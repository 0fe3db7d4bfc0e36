/** Largest-first input selection: conservation, no redundant input, fewest inputs. */
module CoinSelection {
  import opened Prelude
  import opened Sorting

  const MAX_TRANSFER_INPUTS := 64
  const U64_MAX := U64_LIMIT - 1

  datatype Output = Output(account: Bytes, source: Bytes, index: nat, amount: U64, spent: bool)

  datatype Selection =
    | Chosen(inputs: seq<Output>, change: nat)
    | TooManyInputs
    | InsufficientOutputs
    | AmountNotPositive

  function Total(xs: seq<Output>): nat {
    if xs == [] then 0 else Total(xs[..|xs| - 1]) + xs[|xs| - 1].amount
  }

  /* ---- the order ---- */

  /** Larger amounts first, then by source, then by index. */
  predicate Before(a: Output, b: Output) {
    if a.amount != b.amount then a.amount > b.amount
    else if CompareBytes(a.source, b.source) != 0 then CompareBytes(a.source, b.source) < 0
    else a.index < b.index
  }

  predicate Leq(a: Output, b: Output) { !Before(b, a) }

  lemma LeqTotal(a: Output, b: Output)
    ensures Leq(a, b) || Leq(b, a)
    ensures Leq(a, b) && Leq(b, a) ==> a.amount == b.amount && a.source == b.source && a.index == b.index
  {
    CompareLaws(a.source, b.source);
  }

  lemma LeqTransitive(a: Output, b: Output, c: Output)
    requires Leq(a, b) && Leq(b, c)
    ensures Leq(a, c)
  {
    CompareLaws(a.source, b.source);
    CompareLaws(b.source, c.source);
    CompareLaws(a.source, c.source);
    if a.amount == b.amount == c.amount { CompareTransitive(a.source, b.source, c.source); }
  }

  lemma LeqIsTotalPreorder()
    ensures TotalPreorder(Leq)
  {
    forall x: Output, y: Output ensures Leq(x, y) || Leq(y, x) { LeqTotal(x, y); }
    forall x: Output, y: Output, z: Output | Leq(x, y) && Leq(y, z) ensures Leq(x, z) { LeqTransitive(x, y, z); }
  }

  function LargestFirst(xs: seq<Output>): seq<Output> { Sort(Leq, xs) }

  predicate Descending(xs: seq<Output>) {
    forall i, j :: 0 <= i < j < |xs| ==> xs[i].amount >= xs[j].amount
  }

  lemma LargestFirstDescends(xs: seq<Output>)
    ensures Descending(LargestFirst(xs)) && multiset(LargestFirst(xs)) == multiset(xs)
  {
    LeqIsTotalPreorder();
    SortSorts(Leq, xs);
    var s := LargestFirst(xs);
    forall i, j | 0 <= i < j < |s| ensures s[i].amount >= s[j].amount { assert Leq(s[i], s[j]); }
  }

  /** Larger amounts first; equal amounts by source, then by index. */
  lemma LargestFirstOrder(xs: seq<Output>, i: nat, j: nat)
    requires i < j < |LargestFirst(xs)|
    ensures var a, b := LargestFirst(xs)[i], LargestFirst(xs)[j];
      && a.amount >= b.amount
      && (a.amount == b.amount ==> CompareBytes(a.source, b.source) <= 0)
      && (a.amount == b.amount && a.source == b.source ==> a.index <= b.index)
  {
    LeqIsTotalPreorder();
    SortSorts(Leq, xs);
    var a, b := LargestFirst(xs)[i], LargestFirst(xs)[j];
    assert Leq(a, b);
    CompareLaws(a.source, b.source);
  }

  /** Any listing of the same outputs, told apart by source and index, is taken in the same order. */
  lemma ListingIrrelevant(xs: seq<Output>, ys: seq<Output>)
    requires multiset(xs) == multiset(ys)
    requires forall x, y :: x in xs && y in xs && x.source == y.source && x.index == y.index ==> x == y
    ensures LargestFirst(xs) == LargestFirst(ys)
  {
    LeqIsTotalPreorder();
    forall x, y | x in multiset(xs) && y in multiset(xs) && Leq(x, y) && Leq(y, x) ensures x == y {
      LeqTotal(x, y);
    }
    SortForgetsOrder(Leq, xs, ys);
  }

  function Spendable(outputs: seq<Output>, account: Bytes): seq<Output> {
    if outputs == [] then [] else
      var last := outputs[|outputs| - 1];
      var rest := Spendable(outputs[..|outputs| - 1], account);
      if !last.spent && last.account == account then rest + [last] else rest
  }

  /** Exactly the account's unspent outputs, each as often as it is listed. */
  lemma {:induction false} SpendableMeaning(outputs: seq<Output>, account: Bytes, x: Output)
    ensures multiset(Spendable(outputs, account))[x]
            == if !x.spent && x.account == account then multiset(outputs)[x] else 0
  {
    if outputs != [] {
      SpendableMeaning(outputs[..|outputs| - 1], account, x);
      DropLast(outputs);
    }
  }

  /* ---- how much `k` outputs can be worth ---- */

  lemma {:induction false} TotalSplit(xs: seq<Output>, ys: seq<Output>)
    ensures Total(xs + ys) == Total(xs) + Total(ys)
  {
    if ys == [] {
      assert xs + ys == xs;
    } else {
      var n := |ys| - 1;
      TotalSplit(xs, ys[..n]);
      assert (xs + ys)[..|xs + ys| - 1] == xs + ys[..n];
    }
  }

  lemma TotalRemove(xs: seq<Output>, i: nat)
    requires i < |xs|
    ensures Total(xs) == xs[i].amount + Total(xs[..i] + xs[i + 1..])
    ensures multiset(xs[..i] + xs[i + 1..]) == multiset(xs) - multiset{xs[i]}
  {
    SplitAround(xs, i);
    TotalSplit(xs[..i], [xs[i]] + xs[i + 1..]);
    TotalSplit([xs[i]], xs[i + 1..]);
    TotalSplit(xs[..i], xs[i + 1..]);
    assert Total([xs[i]]) == Total([]) + xs[i].amount by { assert [xs[i]][..0] == []; }
  }

  /** Some of the outputs are never worth more than all of them. */
  lemma {:induction false} PartWithinWhole(part: seq<Output>, whole: seq<Output>)
    requires multiset(part) <= multiset(whole)
    ensures Total(part) <= Total(whole)
    decreases |part|
  {
    if part != [] {
      var last := part[|part| - 1];
      DropLast(part);
      assert last in multiset(part);
      var i :| 0 <= i < |whole| && whole[i] == last;
      TotalRemove(whole, i);
      PartWithinWhole(part[..|part| - 1], whole[..i] + whole[i + 1..]);
    }
  }

  /** Skipping the largest output never gains. */
  lemma {:induction false} ShiftLoses(xs: seq<Output>, k: nat)
    requires Descending(xs) && k < |xs|
    ensures Total(xs[1..][..k]) <= Total(xs[..k])
  {
    if k > 0 {
      ShiftLoses(xs, k - 1);
      assert xs[1..][..k][..k - 1] == xs[1..][..k - 1];
      assert xs[..k][..k - 1] == xs[..k - 1];
    }
  }

  lemma TotalOfFirst(xs: seq<Output>, k: nat)
    requires k < |xs|
    ensures Total(xs[..k + 1]) == xs[0].amount + Total(xs[1..][..k])
  {
    assert xs[..k + 1] == [xs[0]] + xs[1..][..k];
    TotalSplit([xs[0]], xs[1..][..k]);
    assert Total([xs[0]]) == Total([]) + xs[0].amount by { assert [xs[0]][..0] == []; }
  }

  lemma WithoutFirst<T>(xs: seq<T>)
    requires xs != []
    ensures multiset(xs[1..]) == multiset(xs) - multiset{xs[0]}
  {
    assert xs == [xs[0]] + xs[1..];
  }

  lemma BestWithFirst(xs: seq<Output>, t: seq<Output>, i: nat)
    requires xs != [] && i < |t| && t[i] == xs[0]
    requires var u := t[..i] + t[i + 1..]; |u| <= |xs[1..]| && Total(u) <= Total(xs[1..][..|u|])
    ensures Total(t) <= Total(xs[..|t|])
  {
    TotalRemove(t, i);
    TotalOfFirst(xs, |t| - 1);
  }

  lemma RestOf<T>(xs: seq<T>, t: seq<T>, i: nat)
    requires xs != [] && multiset(t) <= multiset(xs) && i < |t| && t[i] == xs[0]
    ensures multiset(t[..i] + t[i + 1..]) <= multiset(xs[1..])
  {
    WithoutFirst(xs);
    SplitAround(t, i);
  }

  /** No `k` of the outputs are worth more than the `k` largest. */
  lemma {:induction false} LargestAreBest(xs: seq<Output>, t: seq<Output>)
    requires Descending(xs) && multiset(t) <= multiset(xs)
    ensures |t| <= |xs| && Total(t) <= Total(xs[..|t|])
    decreases |xs|
  {
    if xs == [] {
      assert multiset(xs) == multiset(t) + (multiset(xs) - multiset(t));
      assert t == [];
    } else if xs[0] in t {
      var i :| 0 <= i < |t| && t[i] == xs[0];
      RestOf(xs, t, i);
      LargestAreBest(xs[1..], t[..i] + t[i + 1..]);
      BestWithFirst(xs, t, i);
    } else {
      WithoutFirst(xs);
      assert xs[0] !in multiset(t);
      LargestAreBest(xs[1..], t);
      ShiftLoses(xs, |t|);
    }
  }

  lemma {:induction false} PrefixGrows(xs: seq<Output>, j: nat, k: nat)
    requires j <= k <= |xs|
    ensures Total(xs[..j]) <= Total(xs[..k])
  {
    if j < k {
      PrefixGrows(xs, j, k - 1);
      assert xs[..k][..k - 1] == xs[..k - 1];
    }
  }

  /* ---- the selection ---- */

  function Saturated(n: nat): nat { Min(n, U64_MAX) }

  function SaturatingAdd(a: nat, b: nat): nat { Saturated(a + b) }

  /** A selection by somebody else: some of the spendable outputs, worth at least the amount. */
  ghost predicate Covers(t: seq<Output>, spendable: seq<Output>, amount: nat) {
    multiset(t) <= multiset(spendable) && Total(t) >= amount
  }

  /** What a selection promises about every other way of covering the amount. */
  ghost predicate Optimal(spendable: seq<Output>, amount: U64, r: Selection) {
    match r
    case Chosen(inputs, change) =>
      && Covers(inputs, spendable, amount) && |inputs| <= MAX_TRANSFER_INPUTS
      && (forall t :: Covers(t, spendable, amount) ==> |t| >= |inputs|)
      && (forall x :: x in inputs ==> change < x.amount)
      && change == Saturated(Total(inputs)) - amount
    case TooManyInputs => forall t :: Covers(t, spendable, amount) ==> |t| > MAX_TRANSFER_INPUTS
    case InsufficientOutputs => forall t :: !Covers(t, spendable, amount)
    case AmountNotPositive => amount == 0
  }

  lemma NoSmallCover(sorted: seq<Output>, spendable: seq<Output>, amount: nat, k: nat)
    requires Descending(sorted) && multiset(sorted) == multiset(spendable) && k <= |sorted|
    requires Total(sorted[..k]) < amount
    ensures forall t :: Covers(t, spendable, amount) ==> |t| > k
  {
    forall t | Covers(t, spendable, amount) ensures |t| > k {
      LargestAreBest(sorted, t);
      if |t| <= k { PrefixGrows(sorted, |t|, k); }
    }
  }

  lemma GatherStep(sorted: seq<Output>, k: nat)
    requires k < |sorted|
    ensures SaturatingAdd(Saturated(Total(sorted[..k])), sorted[k].amount) == Saturated(Total(sorted[..k + 1]))
  {
    TakeOneMore(sorted, k);
  }

  /** The wallet's loop: take outputs from the largest down until the amount is covered. */
  method TakeInputs(sorted: seq<Output>, ghost spendable: seq<Output>, amount: U64) returns (r: Selection)
    requires Descending(sorted) && multiset(sorted) == multiset(spendable) && amount > 0
    ensures Optimal(spendable, amount, r) && (r.Chosen? ==> r.inputs <= sorted)
  {
    var gathered := 0;
    var k := 0;
    while k < |sorted|
      invariant k <= |sorted| && k <= MAX_TRANSFER_INPUTS
      invariant gathered == Saturated(Total(sorted[..k]))
      invariant k > 0 ==> Total(sorted[..k - 1]) < amount
    {
      if gathered >= amount { break; }
      if k == MAX_TRANSFER_INPUTS {
        TooManyIsRight(sorted, spendable, amount, k);
        return TooManyInputs;
      }
      GatherStep(sorted, k);
      gathered := SaturatingAdd(gathered, sorted[k].amount);
      k := k + 1;
    }
    if gathered < amount {
      InsufficientIsRight(sorted, spendable, amount, k);
      return InsufficientOutputs;
    }
    ChosenIsOptimal(sorted, spendable, amount, k, gathered - amount);
    return Chosen(sorted[..k], gathered - amount);
  }

  /** Filter, sort, select. */
  method SelectInputs(outputs: seq<Output>, account: Bytes, amount: U64) returns (r: Selection)
    ensures Optimal(Spendable(outputs, account), amount, r) && (r == AmountNotPositive <==> amount == 0)
    ensures r.Chosen? ==> r.inputs <= LargestFirst(Spendable(outputs, account))
    ensures Total(Spendable(outputs, account)) <= U64_MAX && r.Chosen? ==> Total(r.inputs) == amount + r.change
  {
    if amount == 0 { return AmountNotPositive; }
    var spendable := Spendable(outputs, account);
    LargestFirstDescends(spendable);
    r := TakeInputs(LargestFirst(spendable), spendable, amount);
    Conserves(spendable, amount, r);
  }

  /** Nothing saturates when everything spendable sums to a `u64`. */
  lemma Conserves(spendable: seq<Output>, amount: U64, r: Selection)
    requires Optimal(spendable, amount, r)
    ensures Total(spendable) <= U64_MAX && r.Chosen? ==> Total(r.inputs) == amount + r.change
  {
    if r.Chosen? { PartWithinWhole(r.inputs, spendable); }
  }

  /* ---- the transfer: resolver, balance check, selection ---- */

  datatype PlanError = BalanceOverflow | InsufficientBalance

  function Balance(balances: map<Bytes, U64>, account: Bytes): U64 {
    if account in balances then balances[account] else 0
  }

  /** Every account's unspent outputs sum to a `u64`. */
  ghost predicate Representable(outputs: seq<Output>) {
    forall account :: Total(Spendable(outputs, account)) <= U64_MAX
  }

  lemma {:induction false} SpendableGrows(outputs: seq<Output>, i: nat, account: Bytes)
    requires i <= |outputs|
    ensures Total(Spendable(outputs[..i], account)) <= Total(Spendable(outputs, account))
  {
    if i == |outputs| {
      assert outputs[..i] == outputs;
    } else {
      var n := |outputs| - 1;
      assert outputs[..n][..i] == outputs[..i];
      SpendableGrows(outputs[..n], i, account);
      SpendableOneMore(outputs, n, account);
    }
  }

  lemma SpendableOneMore(outputs: seq<Output>, i: nat, account: Bytes)
    requires i < |outputs|
    ensures Total(Spendable(outputs[..i + 1], account)) == Total(Spendable(outputs[..i], account))
              + if !outputs[i].spent && outputs[i].account == account then outputs[i].amount else 0
  {
    TakeOneMore(outputs, i);
    var rest := Spendable(outputs[..i], account);
    assert (rest + [outputs[i]])[..|rest|] == rest;
  }

  /** The resolver's checked running sums: they overflow exactly when some account's total does. */
  method ResolveBalances(outputs: seq<Output>) returns (r: Result<map<Bytes, U64>, PlanError>)
    ensures r.Ok? <==> Representable(outputs)
    ensures r.Err? ==> r.error == BalanceOverflow
    ensures r.Ok? ==> forall account :: Balance(r.value, account) == Total(Spendable(outputs, account))
  {
    var balances: map<Bytes, U64> := map[];
    for i := 0 to |outputs|
      invariant forall account :: Balance(balances, account) == Total(Spendable(outputs[..i], account))
    {
      var output := outputs[i];
      if !output.spent {
        var next := Balance(balances, output.account) + output.amount;
        if next > U64_MAX {
          SpendableOneMore(outputs, i, output.account);
          SpendableGrows(outputs, i + 1, output.account);
          return Err(BalanceOverflow);
        }
        balances := balances[output.account := next];
      }
      forall account ensures Balance(balances, account) == Total(Spendable(outputs[..i + 1], account)) {
        SpendableOneMore(outputs, i, account);
      }
    }
    assert outputs[..|outputs|] == outputs;
    return Ok(balances);
  }

  /**
   The whole plan. Because the resolver refuses balances beyond a `u64`, the wallet's saturating sum
   never saturates: the inputs equal the amount plus the change, always, and a balance that covers
   the amount never runs out of outputs.
   */
  method PlanTransfer(outputs: seq<Output>, account: Bytes, amount: U64) returns (r: Result<Selection, PlanError>)
    ensures r == Ok(AmountNotPositive) <==> amount == 0
    ensures r == Err(BalanceOverflow) <==> amount > 0 && !Representable(outputs)
    ensures r == Err(InsufficientBalance) <==>
      amount > 0 && Representable(outputs) && Total(Spendable(outputs, account)) < amount
    ensures r.Ok? ==> Optimal(Spendable(outputs, account), amount, r.value) && !r.value.InsufficientOutputs?
    ensures r.Ok? && r.value.Chosen? ==> Total(r.value.inputs) == amount + r.value.change
  {
    if amount == 0 { return Ok(AmountNotPositive); }
    var balances :- ResolveBalances(outputs);
    if Balance(balances, account) < amount { return Err(InsufficientBalance); }
    var selection := SelectInputs(outputs, account, amount);
    assert Covers(Spendable(outputs, account), Spendable(outputs, account), amount);
    return Ok(selection);
  }

  lemma TooManyIsRight(sorted: seq<Output>, spendable: seq<Output>, amount: U64, k: nat)
    requires Descending(sorted) && multiset(sorted) == multiset(spendable) && k == MAX_TRANSFER_INPUTS <= |sorted|
    requires Total(sorted[..k]) < amount
    ensures Optimal(spendable, amount, TooManyInputs)
  {
    NoSmallCover(sorted, spendable, amount, k);
  }

  lemma InsufficientIsRight(sorted: seq<Output>, spendable: seq<Output>, amount: U64, k: nat)
    requires Descending(sorted) && multiset(sorted) == multiset(spendable) && k == |sorted|
      && Total(sorted[..k]) < amount
    ensures Optimal(spendable, amount, InsufficientOutputs)
  {
    NoSmallCover(sorted, spendable, amount, k);
    forall t ensures !Covers(t, spendable, amount) {
      if Covers(t, spendable, amount) { LargestAreBest(sorted, t); }
    }
  }

  lemma ChosenIsOptimal(sorted: seq<Output>, spendable: seq<Output>, amount: U64, k: nat, change: nat)
    requires Descending(sorted) && multiset(sorted) == multiset(spendable)
    requires 0 < k <= |sorted| && k <= MAX_TRANSFER_INPUTS
    requires Total(sorted[..k - 1]) < amount <= Total(sorted[..k])
    requires change == Saturated(Total(sorted[..k])) - amount
    ensures Optimal(spendable, amount, Chosen(sorted[..k], change))
  {
    assert sorted == sorted[..k] + sorted[k..];
    assert sorted[..k][..k - 1] == sorted[..k - 1];
    NoSmallCover(sorted, spendable, amount, k - 1);
    forall x | x in sorted[..k] ensures change < x.amount {
      var i :| 0 <= i < k && sorted[i] == x;
      assert x.amount >= sorted[k - 1].amount;
    }
  }
}
