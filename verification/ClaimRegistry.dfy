/** Claim reservations: locked files shared by any number of registries refine the one in-memory map. */
module ClaimRegistries {
  import opened Prelude
  import opened AirdropTypes

  datatype Key = Key(campaign: Bytes, identity: DidText)

  datatype Reservation = Fresh | IdempotentRetry

  datatype RegistryError = AlreadyClaimed | CampaignIdTooLong | CorruptRecord | WriteFailed

  type Reply = Result<Reservation, RegistryError>

  /* ---- the specification: one map ---- */

  type Claimed = map<Key, (U64, Bytes32)>

  function Reserve(m: Claimed, k: Key, digest: Bytes32, at: U64): (Claimed, Reply) {
    if k !in m then (m[k := (at, digest)], Ok(Fresh))
    else if m[k].1 == digest then (m, Ok(IdempotentRetry))
    else (m, Err(AlreadyClaimed))
  }

  /* ---- the files ---- */

  /** Where a key's record lives, and the record's byte form. */
  datatype Env = Env(
    path: Key -> Bytes, put: (Key, Bytes32, U64) -> Bytes, get: (Key, Bytes) -> Option<(Bytes32, U64)>)

  type Directory = map<Bytes, Bytes>

  function ReadRecord(env: Env, dir: Directory, k: Key): Result<Option<(Bytes32, U64)>, RegistryError> {
    if env.path(k) !in dir then Ok(None) else
      var r := env.get(k, dir[env.path(k)]);
      if r.None? then Err(CorruptRecord) else Ok(r)
  }

  /** One locked transaction on the directory; `outcome` is how its durable part went. */
  function FileReserve(env: Env, dir: Directory, k: Key, digest: Bytes32, at: U64, outcome: WriteOutcome)
    : (Directory, Reply)
  {
    if |k.campaign| > MAX_CAMPAIGN_ID_BYTES then (dir, Err(CampaignIdTooLong)) else
    var read := ReadRecord(env, dir, k);
    if read.Err? then (dir, Err(read.error))
    else if read.value.Some? then
      if read.value.value.0 != digest then (dir, Err(AlreadyClaimed))
      else if outcome != Done then (dir, Err(WriteFailed))
      else (dir, Ok(IdempotentRetry))
    else
      var after := dir[env.path(k) := env.put(k, digest, at)];
      match outcome
      case Done => (after, Ok(Fresh))
      case FailedBefore => (dir, Err(WriteFailed))
      case FailedAfter => (after, Err(WriteFailed))
  }

  /* ---- refinement ---- */

  /** A record reads only under its own key, and a record that can be written always reads back. */
  ghost predicate EnvSound(env: Env) {
    && (forall k: Key, d: Bytes32, at: U64, j: Key :: env.get(j, env.put(k, d, at)).Some? ==> j == k)
    && (forall k: Key, d: Bytes32, at: U64 ::
          |k.campaign| <= MAX_CAMPAIGN_ID_BYTES ==> env.get(k, env.put(k, d, at)) == Some((d, at)))
  }

  /** The directory holds exactly the map's reservations. */
  ghost predicate Represents(env: Env, dir: Directory, m: Claimed) {
    && (forall k :: k in m ==> ReadRecord(env, dir, k) == Ok(Some((m[k].1, m[k].0))))
    && (forall k: Key :: k !in m ==> ReadRecord(env, dir, k).Err? || ReadRecord(env, dir, k) == Ok(None))
  }

  datatype Call = Call(registry: nat, key: Key, digest: Bytes32, at: U64, outcome: WriteOutcome)

  /** The call had its effect on the reservations, or read them to answer. */
  predicate Effective(env: Env, dir: Directory, c: Call) {
    var (after, r) := FileReserve(env, dir, c.key, c.digest, c.at, c.outcome);
    r.Ok? || r == Err(AlreadyClaimed) || after != dir
  }

  /** What the specification would do at this point: act on an effective call, ignore the others. */
  function Mirror(env: Env, dir: Directory, m: Claimed, c: Call): Claimed {
    if Effective(env, dir, c) then Reserve(m, c.key, c.digest, c.at).0 else m
  }

  /** One call, by whichever registry holds the lock, is one step of the specification or none. */
  lemma CallRefines(env: Env, dir: Directory, m: Claimed, c: Call)
    requires EnvSound(env) && Represents(env, dir, m)
    ensures var (after, r) := FileReserve(env, dir, c.key, c.digest, c.at, c.outcome);
      && Represents(env, after, Mirror(env, dir, m, c))
      && (r.Ok? || r == Err(AlreadyClaimed) ==> r == Reserve(m, c.key, c.digest, c.at).1)
  {
  }

  function RunFiles(env: Env, calls: seq<Call>): Directory {
    if calls == [] then map[] else
      var c := calls[|calls| - 1];
      FileReserve(env, RunFiles(env, calls[..|calls| - 1]), c.key, c.digest, c.at, c.outcome).0
  }

  /** The specification, called in lock order with the effective calls. */
  function RunSpec(env: Env, calls: seq<Call>): Claimed {
    if calls == [] then map[] else
      Mirror(env, RunFiles(env, calls[..|calls| - 1]), RunSpec(env, calls[..|calls| - 1]), calls[|calls| - 1])
  }

  function ReplyAt(env: Env, calls: seq<Call>, i: nat): Reply
    requires i < |calls|
  {
    FileReserve(env, RunFiles(env, calls[..i]), calls[i].key, calls[i].digest, calls[i].at, calls[i].outcome).1
  }

  /** Any interleaving of locked calls from any registries over one directory refines the one map. */
  lemma {:induction false} RunRefines(env: Env, calls: seq<Call>)
    requires EnvSound(env)
    ensures Represents(env, RunFiles(env, calls), RunSpec(env, calls))
  {
    if calls != [] {
      var n := |calls| - 1;
      RunRefines(env, calls[..n]);
      CallRefines(env, RunFiles(env, calls[..n]), RunSpec(env, calls[..n]), calls[n]);
    }
  }

  /** And every answer it gives is the specification's answer at that moment. */
  lemma AnswersRefine(env: Env, calls: seq<Call>, i: nat)
    requires EnvSound(env) && i < |calls|
      && (ReplyAt(env, calls, i).Ok? || ReplyAt(env, calls, i) == Err(AlreadyClaimed))
    ensures ReplyAt(env, calls, i) == Reserve(RunSpec(env, calls[..i]), calls[i].key, calls[i].digest, calls[i].at).1
  {
    RunRefines(env, calls[..i]);
    CallRefines(env, RunFiles(env, calls[..i]), RunSpec(env, calls[..i]), calls[i]);
  }

  /* ---- one outcome per identity ---- */

  lemma MirrorKeeps(env: Env, dir: Directory, m: Claimed, c: Call, k: Key)
    requires k in m
    ensures k in Mirror(env, dir, m, c) && Mirror(env, dir, m, c)[k] == m[k]
  {
  }

  /** The specification never forgets or replaces a reservation. */
  lemma {:induction false} SpecRemembers(env: Env, calls: seq<Call>, i: nat, k: Key)
    requires i <= |calls| && k in RunSpec(env, calls[..i])
    ensures k in RunSpec(env, calls) && RunSpec(env, calls)[k] == RunSpec(env, calls[..i])[k]
  {
    if i < |calls| {
      var n := |calls| - 1;
      assert calls[..n][..i] == calls[..i];
      SpecRemembers(env, calls[..n], i, k);
      MirrorKeeps(env, RunFiles(env, calls[..n]), RunSpec(env, calls[..n]), calls[n], k);
    } else {
      assert calls[..i] == calls;
    }
  }

  lemma SuccessIsRecorded(env: Env, calls: seq<Call>, i: nat)
    requires EnvSound(env) && i < |calls| && ReplyAt(env, calls, i).Ok?
    ensures calls[i].key in RunSpec(env, calls) && RunSpec(env, calls)[calls[i].key].1 == calls[i].digest
  {
    AnswersRefine(env, calls, i);
    assert calls[..i + 1][..i] == calls[..i];
    SpecRemembers(env, calls, i + 1, calls[i].key);
  }

  /** Whoever asks, whenever, one identity is only ever granted one outcome in a campaign. */
  lemma OneOutcomePerIdentity(env: Env, calls: seq<Call>, i: nat, j: nat)
    requires EnvSound(env) && i < |calls| && j < |calls| && ReplyAt(env, calls, i).Ok? && ReplyAt(env, calls, j).Ok?
    requires calls[i].key == calls[j].key
    ensures calls[i].digest == calls[j].digest
  {
    SuccessIsRecorded(env, calls, i);
    SuccessIsRecorded(env, calls, j);
  }

  /**
   A granted reservation answers every later call under its key, whichever registry makes it and
   whatever happened in between: the same outcome is a retry, another is refused.
   */
  lemma RetryAnswered(env: Env, calls: seq<Call>, i: nat, j: nat)
    requires EnvSound(env) && i < j < |calls| && ReplyAt(env, calls, i).Ok? && calls[i].key == calls[j].key
    ensures ReplyAt(env, calls, j) ==
      if calls[j].digest != calls[i].digest then Err(AlreadyClaimed)
      else if calls[j].outcome != Done then Err(WriteFailed)
      else Ok(IdempotentRetry)
  {
    assert calls[..j][..i] == calls[..i];
    SuccessIsRecorded(env, calls[..j], i);
    RunRefines(env, calls[..j]);
  }

  /* ---- the total form ---- */

  /** What one registry in memory would answer, were it to refuse long campaigns as the files do. */
  function Intended(m: Claimed, c: Call): (Claimed, Reply) {
    if |c.key.campaign| > MAX_CAMPAIGN_ID_BYTES then (m, Err(CampaignIdTooLong))
    else Reserve(m, c.key, c.digest, c.at)
  }

  function RunIntended(calls: seq<Call>): Claimed {
    if calls == [] then map[] else Intended(RunIntended(calls[..|calls| - 1]), calls[|calls| - 1]).0
  }

  /** No write fails, and no two of the keys share a file. */
  ghost predicate Reliable(env: Env, keys: set<Key>, calls: seq<Call>) {
    && (forall i :: 0 <= i < |calls| ==> calls[i].outcome == Done && calls[i].key in keys)
    && (forall k, j :: k in keys && j in keys && env.path(k) == env.path(j) ==> k == j)
  }

  lemma {:induction false} ReliableRun(env: Env, keys: set<Key>, calls: seq<Call>)
    requires EnvSound(env) && Reliable(env, keys, calls)
    ensures Represents(env, RunFiles(env, calls), RunIntended(calls))
    ensures forall k :: k in keys && k !in RunIntended(calls) ==> env.path(k) !in RunFiles(env, calls)
  {
    if calls != [] { ReliableRun(env, keys, calls[..|calls| - 1]); }
  }

  /** Then every reply, refusals included, is the one the map gives to the same calls. */
  lemma RepliesAreExact(env: Env, keys: set<Key>, calls: seq<Call>, i: nat)
    requires EnvSound(env) && Reliable(env, keys, calls) && i < |calls|
    ensures ReplyAt(env, calls, i) == Intended(RunIntended(calls[..i]), calls[i]).1
  {
    ReliableRun(env, keys, calls[..i]);
  }

  /* ---- the answers, from the calls alone ---- */

  /** The first call that named this key, if any. */
  function FirstCall(calls: seq<Call>, k: Key): (f: nat)
    ensures f <= |calls| && (f < |calls| ==> calls[f].key == k)
    ensures forall i :: 0 <= i < f ==> calls[i].key != k
  {
    if calls == [] then 0 else
      var f := FirstCall(calls[..|calls| - 1], k);
      if f < |calls| - 1 || calls[|calls| - 1].key == k then f else |calls|
  }

  /** The map holds exactly what the first admissible call for each key asked for. */
  lemma {:induction false} FirstCallHolds(calls: seq<Call>, k: Key)
    requires |k.campaign| <= MAX_CAMPAIGN_ID_BYTES
    ensures var f := FirstCall(calls, k);
      && (k in RunIntended(calls) <==> f < |calls|)
      && (f < |calls| ==> RunIntended(calls)[k] == (calls[f].at, calls[f].digest))
  {
    if calls != [] { FirstCallHolds(calls[..|calls| - 1], k); }
  }

  /** The first call for a key is granted; later ones are retries if they agree with it, and refused otherwise. */
  lemma FirstCallDecides(env: Env, keys: set<Key>, calls: seq<Call>, i: nat)
    requires EnvSound(env) && Reliable(env, keys, calls) && i < |calls|
    ensures var k := calls[i].key;
      var f := FirstCall(calls, k);
      ReplyAt(env, calls, i) ==
        if |k.campaign| > 128 then Err(CampaignIdTooLong)
        else if i == f then Ok(Fresh)
        else if calls[f].digest == calls[i].digest then Ok(IdempotentRetry)
        else Err(AlreadyClaimed)
  {
    RepliesAreExact(env, keys, calls, i);
    var k := calls[i].key;
    if |k.campaign| <= MAX_CAMPAIGN_ID_BYTES {
      FirstCallHolds(calls[..i], k);
      FirstIsFirst(calls, i, k);
    }
  }

  lemma FirstIsFirst(calls: seq<Call>, i: nat, k: Key)
    requires i < |calls| && calls[i].key == k
    ensures FirstCall(calls, k) == FirstCall(calls[..i], k)
  {
    var f, g := FirstCall(calls, k), FirstCall(calls[..i], k);
    if g < i { assert calls[g].key == k; }
  }
}
