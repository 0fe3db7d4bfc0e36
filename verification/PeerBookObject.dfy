/** The peer book as an object over its directory, each method tied to its step of the book model. */
module PeerBookObjects {
  import opened Prelude
  import opened KeyEventLog
  import opened Sorting
  import opened PeerBooks

  method HasRoot(did: Kel -> Bytes, peers: seq<Peer>, root: Kel) returns (taken: bool)
    ensures taken <==> RootListed(did, peers, root)
  {
    for i := 0 to |peers|
      invariant forall y :: y in peers[..i] ==> did(y.root) != did(root)
    {
      if did(peers[i].root) == did(root) { return true; }
    }
    return false;
  }

  /** The entries no longer in `todo` are valid, have distinct roots and are exactly `peers`. */
  ghost predicate Scanned(t: Trust, disk: map<Bytes, Peer>, todo: set<Bytes>, peers: seq<Peer>) {
    && todo <= disk.Keys && |peers| + |todo| == |disk.Keys| && |peers| <= MAX_DELIVERY_PEERS
    && (forall x :: x in peers ==> x.id in disk && x == disk[x.id] && x.id !in todo)
    && (forall l :: l in disk && l !in todo ==> RecordOk(t, disk[l]) && disk[l].id == l && disk[l] in peers)
    && (forall l, m :: l in disk && l !in todo && m in disk && m !in todo && l != m ==>
          t.did(disk[l].root) != t.did(disk[m].root))
  }

  predicate RootListed(did: Kel -> Bytes, peers: seq<Peer>, root: Kel) {
    exists y :: y in peers && did(y.root) == did(root)
  }

  lemma ScanOne(t: Trust, disk: map<Bytes, Peer>, todo: set<Bytes>, peers: seq<Peer>, l: Bytes)
    requires Scanned(t, disk, todo, peers) && l in todo && RecordOk(t, disk[l]) && disk[l].id == l
    requires |peers| < MAX_DELIVERY_PEERS && !RootListed(t.did, peers, disk[l].root)
    ensures Scanned(t, disk, todo - {l}, peers + [disk[l]])
  {
  }

  lemma ScanRefused(t: Trust, disk: map<Bytes, Peer>, todo: set<Bytes>, peers: seq<Peer>, l: Bytes)
    requires Scanned(t, disk, todo, peers) && l in todo
    requires !RecordOk(t, disk[l]) || disk[l].id != l || |peers| >= MAX_DELIVERY_PEERS
             || RootListed(t.did, peers, disk[l].root)
    ensures !BookOk(t, disk)
  {
    if RecordOk(t, disk[l]) && disk[l].id == l && |peers| < MAX_DELIVERY_PEERS {
      var y :| y in peers && t.did(y.root) == t.did(disk[l].root);
      assert disk[y.id] == y && y.id != l;
    }
  }

  predicate ById(a: Peer, b: Peer) { CompareBytes(a.id, b.id) <= 0 }

  /** Sorting by label neither loses nor adds a record. */
  lemma SortedById(peers: seq<Peer>)
    ensures var s := Sort(ById, peers);
      Sorted(ById, s) && |s| == |peers| && forall x :: x in s <==> x in peers
  {
    forall x: Peer, y: Peer ensures ById(x, y) || ById(y, x) { CompareLaws(x.id, y.id); }
    forall x: Peer, y: Peer, z: Peer | ById(x, y) && ById(y, z) ensures ById(x, z) {
      CompareTransitive(x.id, y.id, z.id);
    }
    SortSorts(ById, peers);
    var s := Sort(ById, peers);
    SameMembers(s, peers);
    assert |s| == |multiset(s)| && |peers| == |multiset(peers)|;
  }

  /** The records of `disk`, each once, by label. */
  ghost predicate ListOf(disk: map<Bytes, Peer>, peers: seq<Peer>) {
    Sorted(ById, peers) && |peers| == |disk| && forall x :: x in peers <==> x.id in disk && x == disk[x.id]
  }

  lemma ScanDone(t: Trust, disk: map<Bytes, Peer>, peers: seq<Peer>)
    requires Scanned(t, disk, {}, peers)
    ensures BookOk(t, disk) && ListOf(disk, Sort(ById, peers))
  {
    SortedById(peers);
    forall x: Peer | x.id in disk && x == disk[x.id] ensures x in peers { }
  }

  class PeerBook {
    const trust: Trust
    var disk: map<Bytes, Peer>
    var poisoned: bool

    ghost function State(): Book
      reads this
    {
      Book(disk, poisoned)
    }

    constructor (t: Trust, records: map<Bytes, Peer>)
      ensures trust == t && State() == Book(records, false)
    {
      trust, disk, poisoned := t, records, false;
    }

    /** A book opens exactly when everything in its directory validates. */
    static method Open(t: Trust, records: map<Bytes, Peer>) returns (r: Reply<PeerBook>)
      ensures r.Ok? <==> BookOk(t, records)
      ensures r.Ok? ==> fresh(r.value) && r.value.trust == t && r.value.State() == Reopen(t, Book(records, true))
    {
      var book := new PeerBook(t, records);
      var listed := book.List();
      return if listed.Ok? then Ok(book) else Err(listed.error);
    }

    /** One pass over the directory in any order, refusing bad, surplus and duplicate entries; then by label. */
    method List() returns (r: Reply<seq<Peer>>)
      ensures r.Ok? <==> !poisoned && BookOk(trust, disk)
      ensures r.Ok? ==> ListOf(disk, r.value)
      ensures r.Err? ==> r.error == if poisoned then NeedsReopen else BadBook
    {
      if poisoned { return Err(NeedsReopen); }
      var todo := disk.Keys;
      var peers: seq<Peer> := [];
      while todo != {}
        invariant Scanned(trust, disk, todo, peers)
      {
        var l :| l in todo;
        var x := disk[l];
        if !RecordOk(trust, x) || x.id != l || |peers| >= MAX_DELIVERY_PEERS {
          ScanRefused(trust, disk, todo, peers, l);
          return Err(BadBook);
        }
        var taken := HasRoot(trust.did, peers, x.root);
        if taken {
          ScanRefused(trust, disk, todo, peers, l);
          return Err(BadBook);
        }
        ScanOne(trust, disk, todo, peers, l);
        todo := todo - {l};
        peers := peers + [x];
      }
      ScanDone(trust, disk, peers);
      return Ok(Sort(ById, peers));
    }

    method Lookup(id: Bytes) returns (r: Reply<Option<Peer>>)
      ensures r == Get(trust, State(), id)
    {
      if poisoned { return Err(NeedsReopen); }
      if !trust.idOk(id) { return Err(BadLabel); }
      if id !in disk { return Ok(None); }
      if !RecordOk(trust, disk[id]) || disk[id].id != id { return Err(BadRecord); }
      return Ok(Some(disk[id]));
    }

    /** `outcome` is how the durable replace went. */
    method Store(x: Peer, outcome: WriteOutcome) returns (r: Reply<Peer>)
      modifies this`disk, this`poisoned
      ensures (State(), r) == Write(trust, old(State()), x, outcome)
    {
      if poisoned { return Err(NeedsReopen); }
      poisoned := true;
      if !RecordOk(trust, x) { return Err(BadRecord); }
      if outcome == FailedBefore { return Err(StorageFailed); }
      disk := disk[x.id := x];
      if outcome == FailedAfter { return Err(StorageFailed); }
      poisoned := false;
      return Ok(x);
    }

    method AdmitDevice(id: Bytes, address: Bytes, root: Kel, deviceBytes: Bytes, known: Option<Peer>,
                       outcome: WriteOutcome) returns (r: Reply<Peer>)
      requires !poisoned
      modifies this`disk, this`poisoned
      ensures (State(), r) == Admit(trust, old(State()), id, address, root, deviceBytes, known, outcome)
    {
      if |deviceBytes| > MAX_DELIVERY_KEL_BYTES { return Err(LogTooLarge); }
      var parsed := trust.parse(deviceBytes);
      if parsed.Err? || !trust.verified(parsed.value) { return Err(BadLog); }
      var device := parsed.value;
      if trust.delegator(device) != Some(trust.did(root)) { return Err(ForeignDevice); }
      if known.Some? {
        if !trust.prefixOf(known.value.device, device) { return Err(RollbackOrFork); }
      } else {
        var listed := List();
        if listed.Err? { return Err(listed.error); }
        if RootLabelled(trust.did, disk, root) { return Err(RootAlreadyLabelled); }
        if |listed.value| >= MAX_DELIVERY_PEERS { return Err(BookFull); }
      }
      var endpoint := trust.endpoint(address);
      if endpoint.None? { return Err(BadEndpoint); }
      r := Store(Peer(id, endpoint.value, root, device, trust.delegates(root, device)), outcome);
    }

    method AuthorizePeer(id: Bytes, address: Bytes, rootBytes: Bytes, deviceBytes: Bytes, outcome: WriteOutcome)
      returns (r: Reply<Peer>)
      modifies this`disk, this`poisoned
      ensures (State(), r) == Authorize(trust, old(State()), id, address, rootBytes, deviceBytes, outcome)
    {
      if poisoned { return Err(NeedsReopen); }
      if !trust.idOk(id) { return Err(BadLabel); }
      if |rootBytes| > MAX_DELIVERY_KEL_BYTES { return Err(LogTooLarge); }
      var root := trust.parse(rootBytes);
      if root.Err? || !trust.verified(root.value) { return Err(BadLog); }
      var known :- Lookup(id);
      if known.Some? {
        if !trust.prefixOf(known.value.root, root.value) { return Err(RollbackOrFork); }
        if !trust.delegates(root.value, known.value.device) {
          r := Store(known.value.(root := root.value, enabled := false), outcome);
          return;
        }
      }
      r := AdmitDevice(id, address, root.value, deviceBytes, known, outcome);
    }

    method RevokePeer(id: Bytes, outcome: WriteOutcome) returns (r: Reply<Peer>)
      modifies this`disk, this`poisoned
      ensures (State(), r) == Revoke(trust, old(State()), id, outcome)
    {
      var known :- Lookup(id);
      if known.None? { return Err(UnknownPeer); }
      r := Store(known.value.(enabled := false), outcome);
    }
  }
}
