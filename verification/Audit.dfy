/** Fixed-point audit detection: how far rounding can drift from the exact probability. */
module Audit {
  import opened Prelude

  const SCALE := 1_000_000_000
  const BPS := 10_000

  /** Division rounded to the nearest unit of the fixed-point scale. */
  function RoundScale(x: nat): nat { (x + SCALE / 2) / SCALE }

  /** The chance that one claim escapes the sample, in units of the scale. */
  function Escape(sampleBps: nat): nat
    requires sampleBps <= BPS
  {
    SCALE - sampleBps * (SCALE / BPS)
  }

  function Miss(q: nat, n: nat): nat {
    if n == 0 then SCALE else RoundScale(Miss(q, n - 1) * q)
  }

  function DetectionBps(sampleBps: nat, n: nat): int
    requires sampleBps <= BPS
  {
    Min(BPS, (((SCALE - Miss(Escape(sampleBps), n)) * BPS) + SCALE / 2) / SCALE)
  }

  /* ---- exact values ---- */

  function Power(x: real, n: nat): real { if n == 0 then 1.0 else Power(x, n - 1) * x }

  function Unit(q: nat): real { q as real / SCALE as real }

  function ExactDetection(sampleBps: nat, n: nat): real
    requires sampleBps <= BPS
  {
    (1.0 - Power(1.0 - sampleBps as real / BPS as real, n)) * BPS as real
  }

  lemma EscapeExact(sampleBps: nat)
    requires sampleBps <= BPS
    ensures Escape(sampleBps) <= SCALE
    ensures Unit(Escape(sampleBps)) == 1.0 - sampleBps as real / BPS as real
  {
  }

  /** Rounding moves a quotient by at most half a unit. */
  lemma RoundScaleNear(x: nat)
    ensures -0.5 <= RoundScale(x) as real - x as real / SCALE as real <= 0.5
    ensures x <= SCALE * SCALE ==> RoundScale(x) <= SCALE
  {
  }

  lemma RoundScaleMonotone(x: nat, y: nat)
    requires x <= y
    ensures RoundScale(x) <= RoundScale(y)
  {
  }

  lemma {:induction false} MissRange(q: nat, n: nat)
    requires q <= SCALE
    ensures Miss(q, n) <= SCALE
  {
    if n > 0 {
      MissRange(q, n - 1);
      ProductBound(Miss(q, n - 1), q);
      RoundScaleNear(Miss(q, n - 1) * q);
    }
  }

  lemma ProductBound(a: nat, b: nat)
    requires a <= SCALE && b <= SCALE
    ensures a * b <= SCALE * SCALE
  {
    ProductMonotone(a, SCALE, b, SCALE);
  }

  function Drift(q: nat, n: nat): real { Miss(q, n) as real - SCALE as real * Power(Unit(q), n) }

  /** After `n` roundings the miss value is within n / 2 units of scale * (1 - p)^n. */
  lemma {:induction false} MissNearExact(q: nat, n: nat)
    requires q <= SCALE
    ensures -(n as real) / 2.0 <= Drift(q, n) <= n as real / 2.0
  {
    if n > 0 {
      MissNearExact(q, n - 1);
      RoundedStep(Miss(q, n - 1), q, Power(Unit(q), n - 1), Drift(q, n - 1), (n - 1) as real / 2.0);
    }
  }

  /** One more factor adds at most half a unit to the drift. */
  lemma RoundedStep(m: nat, q: nat, power: real, drift: real, bound: real)
    requires q <= SCALE && drift == m as real - SCALE as real * power && -bound <= drift <= bound
    ensures -bound - 0.5 <= RoundScale(m * q) as real - SCALE as real * (power * Unit(q)) <= bound + 0.5
  {
    DriftStep(m, q, power, drift, bound);
    RoundScaleNear(m * q);
  }

  /** Multiplying by a factor at most one does not enlarge the drift. */
  lemma DriftStep(m: nat, q: nat, power: real, drift: real, bound: real)
    requires q <= SCALE && drift == m as real - SCALE as real * power && -bound <= drift <= bound
    ensures -bound <= (m * q) as real / SCALE as real - SCALE as real * (power * Unit(q)) <= bound
  {
    var u := Unit(q);
    assert 0.0 <= u <= 1.0;
    assert (m * q) as real / SCALE as real == m as real * u;
    assert m as real * u - SCALE as real * (power * u) == drift * u;
    Shrinks(drift, u, bound);
  }

  lemma Shrinks(d: real, u: real, bound: real)
    requires 0.0 <= u <= 1.0 && -bound <= d <= bound
    ensures -bound <= d * u <= bound
  {
    if d >= 0.0 { assert d * u <= d; } else { assert d * u >= d; }
  }

  /* ---- monotone in the sample rate and in the number of claims ---- */

  lemma {:induction false} MissMonotone(q: nat, r: nat, n: nat)
    requires q <= r <= SCALE
    ensures Miss(q, n) <= Miss(r, n)
  {
    if n > 0 {
      MissMonotone(q, r, n - 1);
      var a, b := Miss(q, n - 1), Miss(r, n - 1);
      ProductMonotone(a, b, q, r);
      RoundScaleMonotone(a * q, b * r);
    }
  }

  lemma ProductMonotone(a: nat, b: nat, q: nat, r: nat)
    requires a <= b && q <= r
    ensures a * q <= b * r
  {
  }

  lemma MissShrinks(q: nat, n: nat)
    requires q <= SCALE
    ensures Miss(q, n + 1) <= Miss(q, n)
  {
    var m := Miss(q, n);
    assert m * q <= m * SCALE;
    RoundScaleMonotone(m * q, m * SCALE);
  }

  lemma {:induction false} MissShrinksTo(q: nat, n: nat, k: nat)
    requires q <= SCALE && n <= k
    ensures Miss(q, k) <= Miss(q, n)
  {
    if n < k {
      MissShrinksTo(q, n, k - 1);
      MissShrinks(q, k - 1);
    }
  }

  /** A higher sample rate and more invalid claims are detected at least as often. */
  lemma DetectionMonotone(p: nat, r: nat, n: nat, k: nat)
    requires p <= r <= BPS && n <= k
    ensures DetectionBps(p, n) <= DetectionBps(r, k)
  {
    var a, b := Escape(p), Escape(r);
    EscapeExact(p);
    EscapeExact(r);
    MissMonotone(b, a, n);
    MissShrinksTo(b, n, k);
    MissRange(a, n);
    MissRange(b, k);
    RoundScaleMonotone((SCALE - Miss(a, n)) * BPS, (SCALE - Miss(b, k)) * BPS);
  }

  /* ---- the result ---- */

  /** The final cap never bites: rounding a detection of at most `SCALE` stays within `BPS`. */
  lemma CapNeverBites(d: nat)
    requires d <= SCALE
    ensures RoundScale(d * BPS) <= BPS
  {
  }

  /** The answer is within 1/2 + n / 200000 basis points of 1 - (1 - p)^n, and within [0, 10000]. */
  lemma DetectionNearExact(sampleBps: nat, n: nat)
    requires sampleBps <= BPS
    ensures 0 <= DetectionBps(sampleBps, n) <= BPS
    ensures var bound := 0.5 + n as real / 200_000.0;
      -bound <= DetectionBps(sampleBps, n) as real - ExactDetection(sampleBps, n) <= bound
  {
    var q := Escape(sampleBps);
    EscapeExact(sampleBps);
    MissRange(q, n);
    MissNearExact(q, n);
    var d := SCALE - Miss(q, n);
    CapNeverBites(d);
    RoundScaleNear(d * BPS);
    InBps(d, Drift(q, n), Power(Unit(q), n), n as real / 2.0);
  }

  lemma InBps(d: nat, drift: real, power: real, bound: real)
    requires drift == (SCALE - d) as real - SCALE as real * power && -bound <= drift <= bound
    ensures -bound / 100_000.0 <= (d * BPS) as real / SCALE as real - (1.0 - power) * BPS as real <= bound / 100_000.0
  {
  }

  datatype Detection = Bps(value: int) | BadSampleRate | BadClaimCount

  /** The routine itself: one rounding multiplication per claim. */
  method AuditDetection(sampleBps: int, invalidClaims: int) returns (r: Detection)
    ensures r == if !(0 <= sampleBps <= BPS) then BadSampleRate
                 else if invalidClaims < 0 then BadClaimCount
                 else Bps(DetectionBps(sampleBps, invalidClaims))
  {
    if sampleBps < 0 || sampleBps > BPS { return BadSampleRate; }
    if invalidClaims < 0 { return BadClaimCount; }
    var miss := SCALE;
    var oneMinusP := SCALE - sampleBps * (SCALE / BPS);
    EscapeExact(sampleBps);
    for i := 0 to invalidClaims
      invariant miss == Miss(oneMinusP, i)
    {
      miss := (miss * oneMinusP + SCALE / 2) / SCALE;
    }
    MissRange(oneMinusP, invalidClaims);
    var detection := SCALE - miss;
    return Bps(Min(BPS, (detection * BPS + SCALE / 2) / SCALE));
  }
}
