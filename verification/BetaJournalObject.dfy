/** The operation journal as the wallet runs it, one durable step at a time. */
module BetaJournalObjects {
  import opened Prelude
  import opened BetaJournals

  /** With `fuel` durable steps before the crash, the call ends here. */
  ghost predicate Reached<T>(fuel: nat, left: nat, disk: Disk, r: Reply<T>, t: Trace<T>)
    requires t.disks != []
  {
    var steps := |t.disks| - 1;
    if fuel >= steps then left == fuel - steps && disk == Last(t.disks) && r == t.reply
    else left == 0 && disk == t.disks[fuel] && r == Err(Io)
  }

  /** Running on from where one stretch ended is running both. */
  lemma ReachedThen(f0: nat, f1: nat, f2: nat, disk: Disk, r: Reply<Receipt>, before: Trace<()>, t: Trace<Receipt>,
                    both: Trace<()>)
    requires before.disks != [] && t.disks != [] && t.disks[0] == Last(before.disks)
    requires f0 >= |before.disks| - 1 && f1 == f0 - (|before.disks| - 1) && Reached(f1, f2, disk, r, t)
    requires both == Trace(Then(before.disks, t.disks), if t.reply.Ok? then Ok(()) else Err(t.reply.error))
    ensures Reached(f0, f2, disk, if r.Ok? then Ok(()) else Err(r.error), both)
  {
  }

  /** A stretch that ended in an error ends the whole. */
  lemma ReachedPrefix<T>(f0: nat, f1: nat, disk: Disk, e: JournalError, part: Trace<T>, whole: Trace<T>)
    requires part.disks != [] && Reached(f0, f1, disk, Err(e), part)
    requires part.disks <= whole.disks && (part.reply.Err? ==> part == whole)
    ensures Reached(f0, f1, disk, Err(e), whole)
  {
  }

  class Journal {
    const env: Env
    var pending: map<Bytes, Bytes>
    var receipts: map<Bytes, Bytes>
    var accounts: map<Bytes, Bytes>
    var store: set<Bytes>
    ghost var committed: set<(Bytes, Bytes)>
    /** How many more durable steps take effect before an input or output error. */
    var fuel: nat

    ghost function State(): Disk
      reads this
    {
      Disk(pending, receipts, accounts, store, committed)
    }

    constructor (e: Env, steps: nat)
      ensures env == e && fuel == steps && State() == EMPTY
    {
      env, fuel := e, steps;
      pending, receipts, accounts, store, committed := map[], map[], map[], {}, {};
    }

    method Find(id: Bytes) returns (r: Reply<Entry>)
      ensures r == Lookup(env, State(), id)
    {
      if id in receipts {
        var receipt := env.getReceipt(receipts[id]);
        return if receipt.Some? then Ok(Finished(receipt.value)) else Err(Corrupt);
      }
      if id in pending {
        var record := env.getPending(pending[id]);
        return if record.Some? then Ok(Waiting(record.value)) else Err(Corrupt);
      }
      return Ok(Absent);
    }

    method CompleteRecord(id: Bytes, r: Record) returns (res: Reply<Receipt>)
      modifies this
      ensures Reached(old(fuel), fuel, State(), res, Complete(env, old(State()), id, r))
    {
      if !env.canonical(r.body) { return Err(Corrupt); }
      if fuel == 0 { return Err(Io); }
      fuel := fuel - 1;
      store := store + {r.body};
      committed := committed + {(id, r.body)};
      if r.kind == KIND_REGISTER {
        var marker := env.registration(r.body);
        if marker.None? { return Err(Storage); }
        if fuel == 0 { return Err(Io); }
        fuel := fuel - 1;
        accounts := accounts[marker.value.0 := marker.value.1];
      }
      res := WriteReceipt(id, r);
    }

    method WriteReceipt(id: Bytes, r: Record) returns (res: Reply<Receipt>)
      modifies this`receipts, this`pending, this`fuel
      ensures Reached(old(fuel), fuel, State(), res, Finish(env, [old(State())], id, r))
    {
      var receipt := ReceiptOf(env, r);
      var bytes := env.putReceipt(receipt);
      if bytes.None? { return Err(Corrupt); }
      if fuel == 0 { return Err(Io); }
      fuel := fuel - 1;
      receipts := receipts[id := bytes.value];
      if fuel == 0 { return Err(Io); }
      fuel := fuel - 1;
      pending := pending - {id};
      return Ok(receipt);
    }

    method CommitEntry(id: Bytes, i: nat, ghost f0: nat, ghost before: Trace<()>) returns (res: Reply<()>)
      requires before.disks != [] && before.reply.Ok? && Reached(f0, fuel, State(), Ok(()), before)
      modifies this
      ensures Reached(f0, fuel, State(), res, CommitNext(env, before, id, i))
    {
      if i >= MAX_PENDING_RECORDS { return Err(TooManyPending); }
      if id !in pending { return Ok(()); }
      var r := env.getPending(pending[id]);
      if r.None? { return Err(Corrupt); }
      ghost var f1, t := fuel, Complete(env, State(), id, r.value);
      var completed := CompleteRecord(id, r.value);
      ReachedThen(f0, f1, fuel, State(), completed, before, t, CommitNext(env, before, id, i));
      return if completed.Ok? then Ok(()) else Err(completed.error);
    }

    /** The scan over `pending`, in the order the directory lists it. */
    method CommitAllPending(order: seq<Bytes>) returns (res: Reply<()>)
      modifies this
      ensures Reached(old(fuel), fuel, State(), res, CommitPending(env, old(State()), order))
    {
      ghost var d0, f0 := State(), fuel;
      for i := 0 to |order|
        invariant CommitPending(env, d0, order[..i]).reply.Ok?
        invariant Reached(f0, fuel, State(), Ok(()), CommitPending(env, d0, order[..i]))
      {
        assert order[..i + 1][..i] == order[..i];
        var r := CommitEntry(order[i], i, f0, CommitPending(env, d0, order[..i]));
        if r.Err? {
          CommitStops(env, d0, order, i + 1);
          ReachedPrefix(f0, fuel, State(), r.error, CommitPending(env, d0, order[..i + 1]), CommitPending(env, d0,
            order));
          return r;
        }
      }
      assert order[..|order|] == order;
      return Ok(());
    }

    /** Replay what the id stands for, or recover, sign and journal; `signed` is made only if needed. */
    method OperateOnce(id: Bytes, kind: Kind, digest: Bytes32, order: seq<Bytes>, signed: Option<Record>)
      returns (res: Reply<Receipt>)
      modifies this
      ensures Reached(old(fuel), fuel, State(), res, Operate(env, old(State()), id, kind, digest, order, signed))
    {
      var entry :- Find(id);
      match entry {
        case Finished(receipt) =>
          return if receipt.kind == kind && receipt.digest == digest then Ok(receipt) else Err(Reused);
        case Waiting(r) =>
          if r.kind != kind || r.digest != digest { return Err(Reused); }
          res := CompleteRecord(id, r);
        case Absent =>
          ghost var f0, recovered := fuel, CommitPending(env, State(), order);
          var done := CommitAllPending(order);
          if done.Err? { return Err(done.error); }
          if signed.None? { return Err(Refused); }
          ghost var f1, t := fuel, JournalAndCommit(env, State(), id, signed.value.(kind := kind, digest := digest));
          res := JournalRecord(id, signed.value.(kind := kind, digest := digest));
          ReachedOn(f0, f1, fuel, State(), res, recovered.disks, t);
      }
    }

    method JournalRecord(id: Bytes, r: Record) returns (res: Reply<Receipt>)
      modifies this
      ensures Reached(old(fuel), fuel, State(), res, JournalAndCommit(env, old(State()), id, r))
    {
      var bytes := env.putPending(r);
      if bytes.None? { return Err(Corrupt); }
      if fuel == 0 { return Err(Io); }
      fuel := fuel - 1;
      pending := pending[id := bytes.value];
      res := CompleteRecord(id, r);
    }
  }

  lemma ReachedOn(f0: nat, f1: nat, f2: nat, disk: Disk, r: Reply<Receipt>, disks: seq<Disk>, t: Trace<Receipt>)
    requires disks != [] && t.disks != [] && t.disks[0] == Last(disks)
    requires f0 >= |disks| - 1 && f1 == f0 - (|disks| - 1) && Reached(f1, f2, disk, r, t)
    ensures Reached(f0, f2, disk, r, Trace(Then(disks, t.disks), t.reply))
  {
  }

  /** A scan that failed, or got part of the way, is a prefix of the whole scan. */
  lemma {:induction false} CommitStops(env: Env, d: Disk, order: seq<Bytes>, i: nat)
    requires i <= |order|
    ensures var part, whole := CommitPending(env, d, order[..i]), CommitPending(env, d, order);
      part.disks <= whole.disks && (part.reply.Err? ==> part == whole)
    decreases |order| - i
  {
    if i < |order| {
      CommitStops(env, d, order, i + 1);
      assert order[..i + 1][..i] == order[..i];
    } else {
      assert order[..i] == order;
    }
  }
}
