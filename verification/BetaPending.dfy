/** Why recovery's limit is never met: at most one operation is ever pending. */
module BetaPending {
  import opened Prelude
  import opened BetaJournals

  /** The scan lists exactly the pending files, each once, in some order. */
  predicate Lists(d: Disk, order: seq<Bytes>) { NoDup(order) && Elements(order) == d.pending.Keys }

  function OrderOf(c: Call): seq<Bytes> { c.order }

  ghost predicate FullScans(env: Env, calls: seq<Call>) {
    forall i :: 0 <= i < |calls| ==> Lists(Run(env, EMPTY, calls[..i]), OrderOf(calls[i]))
  }

  /** No disk along the way has a pending file outside `ids`. */
  predicate PendingIn(ids: set<Bytes>, disks: seq<Disk>) {
    forall i :: 0 <= i < |disks| ==> disks[i].pending.Keys <= ids
  }

  lemma CompletePending(env: Env, d: Disk, id: Bytes, r: Record)
    ensures var t := Complete(env, d, id, r);
      && PendingIn(d.pending.Keys, t.disks) && t.reply != Err(TooManyPending)
      && (t.reply.Ok? ==> Last(t.disks).pending == d.pending - {id})
  {
  }

  /** Recovery only removes pending files, and a scan that succeeds has removed all it listed. */
  lemma {:induction false} ScanPending(env: Env, d: Disk, order: seq<Bytes>)
    ensures var t := CommitPending(env, d, order);
      && PendingIn(d.pending.Keys, t.disks)
      && (t.reply.Ok? ==> Last(t.disks).pending.Keys !! Elements(order))
      && (|order| <= MAX_PENDING_RECORDS ==> t.reply != Err(TooManyPending))
  {
    if order != [] {
      var n := |order| - 1;
      var before := CommitPending(env, d, order[..n]);
      var now := Last(before.disks);
      ScanPending(env, d, order[..n]);
      assert Elements(order) == Elements(order[..n]) + {order[n]} by { assert order == order[..n] + [order[n]]; }
      if order[n] in now.pending && env.getPending(now.pending[order[n]]).Some? {
        var more := Complete(env, now, order[n], env.getPending(now.pending[order[n]]).value);
        CompletePending(env, now, order[n], env.getPending(now.pending[order[n]]).value);
        LastOfThen(before.disks, more.disks);
      }
    }
  }

  lemma AtMostOne(ids: set<Bytes>, d: Disk)
    requires d.pending.Keys <= ids && |ids| <= 1
    ensures |d.pending| <= 1
  {
    SubsetCard(d.pending.Keys, ids);
  }

  lemma ListedOnce(d: Disk, order: seq<Bytes>)
    requires Lists(d, order)
    ensures |order| == |d.pending|
  {
    NoDupCard(order);
  }

  /** One operation: whatever was pending is completed first, so its own record is then the only one. */
  lemma OperatePending(env: Env, d: Disk, id: Bytes, kind: Kind, digest: Bytes32, order: seq<Bytes>,
                       signed: Option<Record>)
    requires Lists(d, order) && |d.pending| <= 1
    ensures var t := Operate(env, d, id, kind, digest, order, signed);
      && t.reply != Err(TooManyPending) && forall i :: 0 <= i < |t.disks| ==> |t.disks[i].pending| <= 1
  {
    var t := Operate(env, d, id, kind, digest, order, signed);
    var entry := Lookup(env, d, id);

    if entry.Ok? && entry.value.Waiting? {
      CompletePending(env, d, id, entry.value.record);
    } else if entry == Ok(Absent) {
      ListedOnce(d, order);
      NewPending(env, d, id, kind, digest, order, signed);
    }
    forall i | 0 <= i < |t.disks| ensures |t.disks[i].pending| <= 1 {
      AtMostOne(if t.disks[i].pending.Keys <= d.pending.Keys then d.pending.Keys else {id}, t.disks[i]);
    }
  }

  lemma NewPending(env: Env, d: Disk, id: Bytes, kind: Kind, digest: Bytes32, order: seq<Bytes>, signed: Option<Record>)
    requires Lists(d, order) && |order| <= MAX_PENDING_RECORDS && Lookup(env, d, id) == Ok(Absent)
    ensures var t := Operate(env, d, id, kind, digest, order, signed);
      && t.reply != Err(TooManyPending)
      && forall i :: 0 <= i < |t.disks| ==>
           t.disks[i].pending.Keys <= d.pending.Keys || t.disks[i].pending.Keys <= {id}
  {
    ScanPending(env, d, order);
    var recovered := CommitPending(env, d, order);
    if recovered.reply.Ok? && signed.Some? {
      var now, r := Last(recovered.disks), signed.value.(kind := kind, digest := digest);
      assert now.pending.Keys == {};
      JournalPending(env, now, id, r);
    }
  }

  lemma JournalPending(env: Env, d: Disk, id: Bytes, r: Record)
    requires d.pending.Keys == {}
    ensures var t := JournalAndCommit(env, d, id, r); PendingIn({id}, t.disks) && t.reply != Err(TooManyPending)
  {
    var bytes := env.putPending(r);
    if bytes.Some? { CompletePending(env, d.(pending := d.pending[id := bytes.value]), id, r); }
  }

  /** The answer of a call, as far as the limit is concerned. */
  predicate HitsLimit(env: Env, d: Disk, c: Call) {
    match c
    case Recovering(order, _) => CommitPending(env, d, order).reply == Err(TooManyPending)
    case Operating(id, kind, digest, order, signed, _) =>
      Operate(env, d, id, kind, digest, order, signed).reply == Err(TooManyPending)
  }

  lemma CallPending(env: Env, d: Disk, c: Call)
    requires Lists(d, OrderOf(c)) && |d.pending| <= 1
    ensures |After(env, d, c).pending| <= 1 && !HitsLimit(env, d, c)
  {
    match c {
      case Recovering(order, _) =>
        ListedOnce(d, order);
        ScanPending(env, d, order);
        AtMostOne(d.pending.Keys, After(env, d, c));
      case Operating(id, kind, digest, order, signed, _) =>
        OperatePending(env, d, id, kind, digest, order, signed);
    }
  }

  lemma ScansOfPrefix(env: Env, calls: seq<Call>, n: nat)
    requires FullScans(env, calls) && n <= |calls|
    ensures FullScans(env, calls[..n])
  {
    forall i | 0 <= i < n ensures Lists(Run(env, EMPTY, calls[..n][..i]), OrderOf(calls[..n][i])) {
      assert calls[..n][..i] == calls[..i];
    }
  }

  /** Over every run, crashed anywhere, at most one record is pending. */
  lemma {:induction false} AtMostOnePending(env: Env, calls: seq<Call>)
    requires FullScans(env, calls)
    ensures |Run(env, EMPTY, calls).pending| <= 1
  {
    if calls != [] {
      var n := |calls| - 1;
      ScansOfPrefix(env, calls, n);
      AtMostOnePending(env, calls[..n]);
      CallPending(env, Run(env, EMPTY, calls[..n]), calls[n]);
    }
  }

  /** So no call is ever refused for too many pending records. */
  lemma LimitNeverMet(env: Env, calls: seq<Call>, i: nat)
    requires FullScans(env, calls) && i < |calls|
    ensures !HitsLimit(env, Run(env, EMPTY, calls[..i]), calls[i])
  {
    ScansOfPrefix(env, calls, i);
    AtMostOnePending(env, calls[..i]);
    CallPending(env, Run(env, EMPTY, calls[..i]), calls[i]);
  }
}
