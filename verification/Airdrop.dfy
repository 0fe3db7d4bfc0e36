/** Airdrop snapshots, claim resolution, and the bound on everything ever awarded. */
module Airdrop {
  import opened Prelude
  import opened Sorting
  import opened AirdropTypes
  import opened ClaimRegistries

  const MAX_REASON_BYTES := 512
  const MAX_ENTRIES := 1_000_000

  datatype Entry = Entry(identity: DidText, amount: U64, reason: Bytes)

  datatype Snapshot = Snapshot(campaign: Bytes, entries: seq<Entry>)

  datatype AirdropError =
    | CampaignTooLong | ZeroAmount | ReasonTooLong | DuplicateIdentityRoot | TooManyEntries | RecipientTooLong
    | CampaignMismatch | BadKel | IdentityMismatch | ControlNotProven | NotEligible | Registry(error: RegistryError)
    | TotalAllocationOverflow | InsufficientTreasuryBalance

  type Answer<T> = Result<T, AirdropError>

  /* ---- snapshots ---- */

  predicate ByIdentity(a: Entry, b: Entry) { CompareBytes(a.identity, b.identity) <= 0 }

  /** One entry per identity, in identity order: exactly the entries of `m`. */
  ghost predicate BuiltFrom(m: map<DidText, Entry>, entries: seq<Entry>) {
    && Sorted(ByIdentity, entries)
    && (forall i, j :: 0 <= i < j < |entries| ==> entries[i].identity != entries[j].identity)
    && (forall e :: e in entries <==> e.identity in m && m[e.identity] == e)
  }

  lemma ByIdentityTotal()
    ensures TotalPreorder(ByIdentity)
  {
    forall x: Entry, y: Entry ensures ByIdentity(x, y) || ByIdentity(y, x) { CompareLaws(x.identity, y.identity); }
    forall x: Entry, y: Entry, z: Entry | ByIdentity(x, y) && ByIdentity(y, z) ensures ByIdentity(x, z) {
      CompareTransitive(x.identity, y.identity, z.identity);
    }
  }

  lemma {:induction false} DistinctMultiset(entries: seq<Entry>, e: Entry)
    requires forall i, j :: 0 <= i < j < |entries| ==> entries[i].identity != entries[j].identity
    ensures multiset(entries)[e] == if e in entries then 1 else 0
  {
    if entries != [] {
      var n := |entries| - 1;
      DistinctMultiset(entries[..n], e);
      DropLast(entries);
      assert e in entries <==> e in entries[..n] || e == entries[n];
    }
  }

  /** Two builders given the same entries in any order produce the same snapshot. */
  lemma BuildIsDeterministic(m: map<DidText, Entry>, s: seq<Entry>, t: seq<Entry>)
    requires BuiltFrom(m, s) && BuiltFrom(m, t)
    ensures s == t
  {
    forall e ensures multiset(s)[e] == multiset(t)[e] {
      DistinctMultiset(s, e);
      DistinctMultiset(t, e);
    }
    ByIdentityTotal();
    forall x, y | x in multiset(s) && y in multiset(s) && ByIdentity(x, y) && ByIdentity(y, x) ensures x == y {
      CompareLaws(x.identity, y.identity);
    }
    assert multiset(s) == multiset(t);
    SortedUnique(ByIdentity, s, t);
  }

  class SnapshotBuilder {
    const campaign: Bytes
    var entries: map<DidText, Entry>

    /** Every entry sits under its own identity and awards something. */
    ghost predicate Valid()
      reads this
    {
      forall id :: id in entries ==> entries[id].identity == id && entries[id].amount > 0
    }

    constructor (id: Bytes)
      ensures Valid() && campaign == id && entries == map[]
    {
      campaign, entries := id, map[];
    }

    static method Start(id: Bytes) returns (r: Answer<SnapshotBuilder>)
      ensures if |id| > MAX_CAMPAIGN_ID_BYTES then r == Err(CampaignTooLong)
              else r.Ok? && fresh(r.value) && r.value.Valid() && r.value.campaign == id && r.value.entries == map[]
    {
      if |id| > MAX_CAMPAIGN_ID_BYTES { return Err(CampaignTooLong); }
      var b := new SnapshotBuilder(id);
      return Ok(b);
    }

    method Add(e: Entry) returns (r: Answer<()>)
      requires Valid()
      modifies this`entries
      ensures Valid()
      ensures r == Err(ZeroAmount) <==> e.amount == 0
      ensures r == Err(ReasonTooLong) <==> e.amount != 0 && |e.reason| > MAX_REASON_BYTES
      ensures r == Err(DuplicateIdentityRoot) <==>
        e.amount != 0 && |e.reason| <= MAX_REASON_BYTES && e.identity in old(entries)
      ensures r == Err(TooManyEntries) <==>
        e.amount != 0 && |e.reason| <= MAX_REASON_BYTES && e.identity !in old(entries) && |old(entries)| >= MAX_ENTRIES
      ensures r.Ok? <==> e.amount != 0 && |e.reason| <= MAX_REASON_BYTES && e.identity !in old(entries)
                         && |old(entries)| < MAX_ENTRIES
      ensures entries == if r.Ok? then old(entries)[e.identity := e] else old(entries)
    {
      if e.amount == 0 { return Err(ZeroAmount); }
      if |e.reason| > MAX_REASON_BYTES { return Err(ReasonTooLong); }
      if e.identity in entries { return Err(DuplicateIdentityRoot); }
      if |entries| >= MAX_ENTRIES { return Err(TooManyEntries); }
      entries := entries[e.identity := e];
      return Ok(());
    }

    method Build() returns (s: Snapshot)
      requires Valid()
      ensures s.campaign == campaign && BuiltFrom(entries, s.entries)
    {
      var listed := Listed(entries);
      ByIdentityTotal();
      SortSorts(ByIdentity, listed);
      SortKeepsDistinct(listed);
      return Snapshot(campaign, Sort(ByIdentity, listed));
    }
  }

  /** The map's values in some order. */
  method Listed(m: map<DidText, Entry>) returns (listed: seq<Entry>)
    requires forall id :: id in m ==> m[id].identity == id
    ensures forall i, j :: 0 <= i < j < |listed| ==> listed[i].identity != listed[j].identity
    ensures forall e :: e in listed <==> e.identity in m && m[e.identity] == e
  {
    listed := [];
    var todo := m.Keys;
    while todo != {}
      invariant todo <= m.Keys
      invariant forall e :: e in listed <==> e.identity in m && e.identity !in todo && m[e.identity] == e
      invariant forall i, j :: 0 <= i < j < |listed| ==> listed[i].identity != listed[j].identity
    {
      var id :| id in todo;
      assert forall i :: 0 <= i < |listed| ==> listed[i] in listed;
      todo := todo - {id};
      listed := listed + [m[id]];
    }
  }

  lemma SortKeepsDistinct(xs: seq<Entry>)
    requires TotalPreorder(ByIdentity)
    requires forall i, j :: 0 <= i < j < |xs| ==> xs[i].identity != xs[j].identity
    ensures var s := Sort(ByIdentity, xs);
      && (forall i, j :: 0 <= i < j < |s| ==> s[i].identity != s[j].identity) && (forall e :: e in s <==> e in xs)
  {
    SortSorts(ByIdentity, xs);
    var s := Sort(ByIdentity, xs);
    SameMembers(s, xs);
    forall i, j | 0 <= i < j < |s| ensures s[i].identity != s[j].identity {
      if s[i].identity == s[j].identity {
        assert s[i] in xs && s[j] in xs;
        assert s[i] == s[j];
        DistinctMultiset(xs, s[i]);
        TwiceIsTwo(s, i, j);
      }
    }
  }

  lemma TwiceIsTwo<T>(s: seq<T>, i: nat, j: nat)
    requires i < j < |s| && s[i] == s[j]
    ensures multiset(s)[s[i]] >= 2
  {
    assert s == s[..i] + [s[i]] + s[i + 1..j] + [s[j]] + s[j + 1..];
  }
}
