/** Finality of what was accepted, and batches whose result does not depend on their order. */
module SettlementBatches {
  import opened Prelude
  import opened Sorting
  import opened Settlement

  /* ---- nothing registered or accepted is ever changed ---- */

  ghost predicate Remembers(s: Ledger, later: Ledger) {
    && (forall c :: c in s.programs.policies ==>
          c in later.programs.policies && later.programs.policies[c] == s.programs.policies[c])
    && (forall id :: id in s.archive.records ==>
          id in later.archive.records && later.archive.records[id] == s.archive.records[id])
  }

  lemma StepRemembers(env: Env, s: Ledger, op: Op)
    ensures Remembers(s, Step(env, s, op))
  {
    if op.Submitting? {
      SubmitRemembers(env, s, op.claim, op.transcript, op.available, op.now, op.attackers);
    }
  }

  lemma SubmitRemembers(env: Env, s: Ledger, claim: Claim, transcript: Option<Transcript>, available: Availability,
                        now: int, attackers: set<string>)
    ensures var later := Submit(env, s, claim, transcript, available, now, attackers).0;
      && later.programs.policies == s.programs.policies
      && forall id :: id in s.archive.records ==>
           id in later.archive.records && later.archive.records[id] == s.archive.records[id]
  {
  }

  lemma RemembersTransitive(a: Ledger, b: Ledger, c: Ledger)
    requires Remembers(a, b) && Remembers(b, c)
    ensures Remembers(a, c)
  {
  }

  lemma {:induction false} RunRemembers(env: Env, s: Ledger, ops: seq<Op>)
    ensures Remembers(s, Run(env, s, ops))
  {
    if ops != [] {
      var before := Run(env, s, ops[..|ops| - 1]);
      RunRemembers(env, s, ops[..|ops| - 1]);
      StepRemembers(env, before, ops[|ops| - 1]);
      RemembersTransitive(s, before, Step(env, before, ops[|ops| - 1]));
    }
  }

  /** Known to the ledger as an accepted claim, with this finality reference. */
  ghost predicate Final(env: Env, s: Ledger, claim: Claim, finality: string) {
    && claim.policy in s.programs.policies && Screen(env, s.programs.policies[claim.policy], claim).None?
    && claim.id in s.archive.records && s.archive.records[claim.id].finality == finality
  }

  lemma AcceptanceIsFinal(env: Env, s: Ledger, claim: Claim, transcript: Option<Transcript>,
                          available: Availability, now: int, attackers: set<string>)
    requires var code := Submit(env, s, claim, transcript, available, now, attackers).1.code;
      code == Accepted || code == AlreadyAccepted
    ensures var (s1, o) := Submit(env, s, claim, transcript, available, now, attackers);
      o.finality.Some? && Final(env, s1, claim, o.finality.value)
  {
  }

  lemma FinalAnswers(env: Env, s: Ledger, claim: Claim, finality: string, transcript: Option<Transcript>,
                     available: Availability, now: int, attackers: set<string>)
    requires Final(env, s, claim, finality)
    ensures Submit(env, s, claim, transcript, available, now, attackers)
            == (Attempt(s, claim), Outcome(claim.id, AlreadyAccepted, 0, 0, Some(finality)))
  {
  }

  /**
   An accepted claim, sent again after any further run, with any evidence, at any time, is reported
   as already accepted with the same finality reference, spends nothing, and moves only the
   attempted volume.
   */
  lemma ResubmissionIsIdempotent(env: Env, s: Ledger, claim: Claim, first: Op, ops: seq<Op>, again: Op)
    requires first.Submitting? && first.claim == claim && again.Submitting? && again.claim == claim
    requires var o := Submit(env, s, claim, first.transcript, first.available, first.now, first.attackers).1;
      o.code == Accepted || o.code == AlreadyAccepted
    ensures
      var o := Submit(env, s, claim, first.transcript, first.available, first.now, first.attackers).1;
      var later := Run(env, Step(env, s, first), ops);
      Submit(env, later, claim, again.transcript, again.available, again.now, again.attackers)
        == (Attempt(later, claim), Outcome(claim.id, AlreadyAccepted, 0, 0, o.finality))
  {
    var (s1, o) := Submit(env, s, claim, first.transcript, first.available, first.now, first.attackers);
    AcceptanceIsFinal(env, s, claim, first.transcript, first.available, first.now, first.attackers);
    RunRemembers(env, s1, ops);
    var later := Run(env, s1, ops);
    assert Final(env, later, claim, o.finality.value);
    FinalAnswers(env, later, claim, o.finality.value, again.transcript, again.available, again.now, again.attackers);
  }

  /* ---- payers are never overdrawn ---- */

  predicate Solvent(balances: map<string, int>) { forall k :: k in balances ==> balances[k] >= 0 }

  lemma {:induction false} RunStaysSolvent(env: Env, s: Ledger, ops: seq<Op>)
    requires Solvent(s.accounts.balances)
    ensures Solvent(Run(env, s, ops).accounts.balances)
  {
    if ops != [] {
      var before := Run(env, s, ops[..|ops| - 1]);
      RunStaysSolvent(env, s, ops[..|ops| - 1]);
      StepStaysSolvent(env, before, ops[|ops| - 1]);
    }
  }

  lemma StepStaysSolvent(env: Env, s: Ledger, op: Op)
    requires Solvent(s.accounts.balances)
    ensures Solvent(Step(env, s, op).accounts.balances)
  {
  }

  /* ---- the order of strings ---- */

  /** Lexicographic by code point. */
  predicate Leq(a: string, b: string) {
    a == "" || (b != "" && (a[0] < b[0] || (a[0] == b[0] && Leq(a[1..], b[1..]))))
  }

  lemma {:induction false} LeqTotal(a: string, b: string)
    ensures Leq(a, b) || Leq(b, a)
    ensures Leq(a, b) && Leq(b, a) ==> a == b
  {
    if a != "" && b != "" {
      LeqTotal(a[1..], b[1..]);
      if Leq(a, b) && Leq(b, a) { assert a == [a[0]] + a[1..] && b == [b[0]] + b[1..]; }
    }
  }

  lemma {:induction false} LeqTransitive(a: string, b: string, c: string)
    requires Leq(a, b) && Leq(b, c)
    ensures Leq(a, c)
  {
    if a != "" && a[0] == b[0] == c[0] { LeqTransitive(a[1..], b[1..], c[1..]); }
  }

  /** A prefix comes first, and otherwise the first character that differs decides. */
  lemma {:induction false} FirstDifferenceDecides(a: string, b: string, k: nat)
    requires k <= |a| && k <= |b| && a[..k] == b[..k] && (k == |a| || (k < |b| && a[k] != b[k]))
    ensures Leq(a, b) <==> k == |a| || a[k] < b[k]
  {
    if k > 0 {
      assert a[0] == a[..k][0] == b[..k][0] == b[0];
      assert a[1..][..k - 1] == a[..k][1..] && b[1..][..k - 1] == b[..k][1..];
      FirstDifferenceDecides(a[1..], b[1..], k - 1);
    }
  }

  /* ---- canonical batches ---- */

  type Item = (Claim, Option<Transcript>)

  predicate ById(a: Item, b: Item) { Leq(a.0.id, b.0.id) }

  /** Sorted by claim identifier, equal identifiers in their original order. */
  function Canonical(items: seq<Item>): seq<Item> { Sort(ById, items) }

  lemma ByIdTotal()
    ensures TotalPreorder(ById)
  {
    forall x: Item, y: Item ensures ById(x, y) || ById(y, x) { LeqTotal(x.0.id, y.0.id); }
    forall x: Item, y: Item, z: Item | ById(x, y) && ById(y, z) ensures ById(x, z) {
      LeqTransitive(x.0.id, y.0.id, z.0.id);
    }
  }

  /** No two positions carry the same claim identifier. */
  predicate DistinctIds(items: seq<Item>) {
    forall i, j :: 0 <= i < j < |items| ==> items[i].0.id != items[j].0.id
  }

  lemma DistinctIdsDecide(items: seq<Item>)
    requires DistinctIds(items)
    ensures Decides(ById, multiset(items))
  {
    forall x, y | x in multiset(items) && y in multiset(items) && ById(x, y) && ById(y, x) ensures x == y {
      var i :| 0 <= i < |items| && items[i] == x;
      var j :| 0 <= j < |items| && items[j] == y;
      LeqTotal(x.0.id, y.0.id);
    }
  }

  function SubmitAll(env: Env, s: Ledger, items: seq<Item>, available: Availability, now: int, attackers: set<string>)
    : (Ledger, seq<Outcome>)
  {
    if items == [] then (s, []) else
      var n := |items| - 1;
      var (before, outcomes) := SubmitAll(env, s, items[..n], available, now, attackers);
      var (after, o) := Submit(env, before, items[n].0, items[n].1, available, now, attackers);
      (after, outcomes + [o])
  }

  function SubmitBatch(env: Env, s: Ledger, items: seq<Item>, available: Availability, now: int, attackers: set<string>)
    : (Ledger, seq<Outcome>)
  {
    SubmitAll(env, s, Canonical(items), available, now, attackers)
  }

  /** Any permutation of a batch with distinct claim identifiers gives the same ledger and outcomes. */
  lemma BatchOrderFree(env: Env, s: Ledger, items: seq<Item>, shuffled: seq<Item>, available: Availability, now: int,
                       attackers: set<string>)
    requires multiset(items) == multiset(shuffled) && DistinctIds(items)
    ensures SubmitBatch(env, s, items, available, now, attackers)
            == SubmitBatch(env, s, shuffled, available, now, attackers)
  {
    ByIdTotal();
    DistinctIdsDecide(items);
    SortForgetsOrder(ById, items, shuffled);
  }

  function AsOps(items: seq<Item>, available: Availability, now: int, attackers: set<string>): (ops: seq<Op>)
    ensures |ops| == |items|
  {
    seq(|items|, i requires 0 <= i < |items| => Submitting(items[i].0, items[i].1, available, now, attackers))
  }

  /** The answer to the `i`-th item, in the run of the submissions before it. */
  function AnswerAt(env: Env, s: Ledger, items: seq<Item>, available: Availability, now: int, attackers: set<string>,
                    i: nat): Outcome
    requires i < |items|
  {
    Submit(env, Run(env, s, AsOps(items[..i], available, now, attackers)), items[i].0, items[i].1, available, now,
           attackers).1
  }

  lemma OneMoreOp(env: Env, s: Ledger, items: seq<Item>, available: Availability, now: int, attackers: set<string>)
    requires items != []
    ensures var n := |items| - 1;
      Run(env, s, AsOps(items, available, now, attackers))
        == Submit(env, Run(env, s, AsOps(items[..n], available, now, attackers)), items[n].0, items[n].1, available,
                  now, attackers).0
  {
    var ops := AsOps(items, available, now, attackers);
    assert ops[..|ops| - 1] == AsOps(items[..|items| - 1], available, now, attackers);
  }

  /** Submitting a list is the run of its submissions. */
  lemma {:induction false} ListIsRun(env: Env, s: Ledger, items: seq<Item>, available: Availability, now: int,
                                     attackers: set<string>)
    ensures SubmitAll(env, s, items, available, now, attackers).0
            == Run(env, s, AsOps(items, available, now, attackers))
    ensures |SubmitAll(env, s, items, available, now, attackers).1| == |items|
  {
    if items != [] {
      ListIsRun(env, s, items[..|items| - 1], available, now, attackers);
      OneMoreOp(env, s, items, available, now, attackers);
    }
  }

  lemma OneMoreAnswer(env: Env, s: Ledger, items: seq<Item>, available: Availability, now: int, attackers: set<string>,
                      n: nat)
    requires n < |items|
    ensures SubmitAll(env, s, items[..n + 1], available, now, attackers).1
            == SubmitAll(env, s, items[..n], available, now, attackers).1
               + [AnswerAt(env, s, items, available, now, attackers, n)]
  {
    TakeOneMore(items, n);
    ListIsRun(env, s, items[..n], available, now, attackers);
  }

  /** A list grown one element at a time holds each element at its place. */
  lemma {:induction false} GrownList<T>(list: nat -> seq<T>, at: nat -> T, n: nat)
    requires list(0) == [] && forall k: nat :: k < n ==> list(k + 1) == list(k) + [at(k)]
    ensures |list(n)| == n && forall i: nat :: i < n ==> list(n)[i] == at(i)
  {
    if n > 0 {
      GrownList(list, at, n - 1);
      assert list(n - 1 + 1) == list(n);
    }
  }

  /** And each of its answers is the one given in that run. */
  lemma AnswersOfRun(env: Env, s: Ledger, items: seq<Item>, available: Availability, now: int, attackers: set<string>,
                     i: nat)
    requires i < |items|
    ensures i < |SubmitAll(env, s, items, available, now, attackers).1|
    ensures SubmitAll(env, s, items, available, now, attackers).1[i]
            == AnswerAt(env, s, items, available, now, attackers, i)
  {
    var list := (n: nat) => if n <= |items| then SubmitAll(env, s, items[..n], available, now, attackers).1 else [];
    var at := (n: nat) =>
      if n < |items| then AnswerAt(env, s, items, available, now, attackers, n)
      else AnswerAt(env, s, items, available, now, attackers, i);
    forall n: nat | n < |items| ensures list(n + 1) == list(n) + [at(n)] {
      OneMoreAnswer(env, s, items, available, now, attackers, n);
    }
    GrownList(list, at, |items|);
    assert items[..|items|] == items;
  }

  /** A batch is the run of its claims, every one exactly once, in the order of their identifiers. */
  lemma BatchIsRun(env: Env, s: Ledger, items: seq<Item>, available: Availability, now: int, attackers: set<string>)
    returns (order: seq<Item>)
    ensures multiset(order) == multiset(items)
    ensures forall i, j :: 0 <= i < j < |order| ==> Leq(order[i].0.id, order[j].0.id)
    ensures SubmitBatch(env, s, items, available, now, attackers).0
            == Run(env, s, AsOps(order, available, now, attackers))
    ensures var outcomes := SubmitBatch(env, s, items, available, now, attackers).1;
      |outcomes| == |order|
      && forall i :: 0 <= i < |order| ==> outcomes[i] == AnswerAt(env, s, order, available, now, attackers, i)
  {
    ByIdTotal();
    SortSorts(ById, items);
    order := Canonical(items);
    forall i, j | 0 <= i < j < |order| ensures Leq(order[i].0.id, order[j].0.id) { assert ById(order[i], order[j]); }
    ListIsRun(env, s, order, available, now, attackers);
    forall i | 0 <= i < |order|
      ensures SubmitAll(env, s, order, available, now, attackers).1[i]
              == AnswerAt(env, s, order, available, now, attackers, i)
    {
      AnswersOfRun(env, s, order, available, now, attackers, i);
    }
  }
}
