/** The wallet's operation journal: one signed object per operation id, whatever crashes. */
module BetaJournals {
  import opened Prelude

  /** Register, transfer, approval, policy, grant. */
  type Kind = k: byte | 1 <= k <= 5 witness 1

  const KIND_REGISTER: Kind := 1
  const MAX_PENDING_RECORDS := 1024

  /** A signed object waiting to be committed. */
  datatype Record = Record(kind: Kind, digest: Bytes32, account: Bytes32, amount: U64, change: U64, body: Bytes)

  /** The outcome of a committed operation. */
  datatype Receipt = Receipt(kind: Kind, digest: Bytes32, account: Bytes32, amount: U64, change: U64, objectId: Bytes)

  datatype JournalError = Corrupt | Storage | Io | TooManyPending | Reused | Refused

  type Reply<T> = Result<T, JournalError>

  /** Record codecs, the object parser and the registration parser. */
  datatype Env = Env(
    putPending: Record -> Option<Bytes>, getPending: Bytes -> Option<Record>,
    putReceipt: Receipt -> Option<Bytes>, getReceipt: Bytes -> Option<Receipt>,
    canonical: Bytes -> bool, objectId: Bytes -> Bytes, registration: Bytes -> Option<(Bytes, Bytes)>)

  /**
   The journal's directories and the store. `committed` records which operation put which object
   into the store; nothing reads it.
   */
  datatype Disk = Disk(
    pending: map<Bytes, Bytes>, receipts: map<Bytes, Bytes>, accounts: map<Bytes, Bytes>,
    store: set<Bytes>, committed: set<(Bytes, Bytes)>)

  /** The disk after each durable step, starting with the disk as it was; a crash leaves any of these. */
  datatype Trace<T> = Trace(disks: seq<Disk>, reply: Reply<T>)

  function Last(disks: seq<Disk>): Disk
    requires disks != []
  {
    disks[|disks| - 1]
  }

  /** One stretch of durable steps after another; `more` starts where `disks` ended. */
  function Then(disks: seq<Disk>, more: seq<Disk>): seq<Disk>
    requires more != []
  {
    disks + more[1..]
  }

  function ReceiptOf(env: Env, r: Record): Receipt {
    Receipt(r.kind, r.digest, r.account, r.amount, r.change, env.objectId(r.body))
  }

  datatype Entry = Finished(receipt: Receipt) | Waiting(record: Record) | Absent

  function Lookup(env: Env, d: Disk, id: Bytes): Reply<Entry> {
    if id in d.receipts then
      var r := env.getReceipt(d.receipts[id]);
      if r.Some? then Ok(Finished(r.value)) else Err(Corrupt)
    else if id in d.pending then
      var r := env.getPending(d.pending[id]);
      if r.Some? then Ok(Waiting(r.value)) else Err(Corrupt)
    else Ok(Absent)
  }

  function Stored(d: Disk, id: Bytes, body: Bytes): Disk {
    d.(store := d.store + {body}, committed := d.committed + {(id, body)})
  }

  /** Store the exact signed bytes, mark a registration, write the receipt, drop the pending file. */
  function Complete(env: Env, d: Disk, id: Bytes, r: Record): (t: Trace<Receipt>)
    ensures t.disks != [] && t.disks[0] == d
  {
    if !env.canonical(r.body) then Trace([d], Err(Corrupt)) else
    var d1 := Stored(d, id, r.body);
    if r.kind != KIND_REGISTER then Finish(env, [d, d1], id, r) else
      var marker := env.registration(r.body);
      if marker.None? then Trace([d, d1], Err(Storage)) else
        Finish(env, [d, d1, d1.(accounts := d1.accounts[marker.value.0 := marker.value.1])], id, r)
  }

  function Finish(env: Env, disks: seq<Disk>, id: Bytes, r: Record): (t: Trace<Receipt>)
    requires disks != []
    ensures disks <= t.disks
  {
    var receipt := ReceiptOf(env, r);
    var bytes := env.putReceipt(receipt);
    if bytes.None? then Trace(disks, Err(Corrupt)) else
      var d := Last(disks);
      var written := d.(receipts := d.receipts[id := bytes.value]);
      Trace(disks + [written, written.(pending := written.pending - {id})], Ok(receipt))
  }

  /** The `i`-th entry of the scan over `pending`, after the entries before it. */
  function CommitNext(env: Env, before: Trace<()>, id: Bytes, i: nat): (t: Trace<()>)
    requires before.disks != []
    ensures before.disks <= t.disks
  {
    var now := Last(before.disks);
    if before.reply.Err? then before
    else if i >= MAX_PENDING_RECORDS then Trace(before.disks, Err(TooManyPending))
    else if id !in now.pending then before
    else
      var r := env.getPending(now.pending[id]);
      if r.None? then Trace(before.disks, Err(Corrupt)) else
        var t := Complete(env, now, id, r.value);
        Trace(Then(before.disks, t.disks), if t.reply.Ok? then Ok(()) else Err(t.reply.error))
  }

  /** Startup recovery: complete what is pending, in whatever order the directory lists it. */
  function CommitPending(env: Env, d: Disk, order: seq<Bytes>): (t: Trace<()>)
    ensures t.disks != [] && t.disks[0] == d
  {
    if order == [] then Trace([d], Ok(())) else
      CommitNext(env, CommitPending(env, d, order[..|order| - 1]), order[|order| - 1], |order| - 1)
  }

  /** Journal a freshly signed record, then complete it. */
  function JournalAndCommit(env: Env, d: Disk, id: Bytes, r: Record): (t: Trace<Receipt>)
    ensures t.disks != [] && t.disks[0] == d
  {
    var bytes := env.putPending(r);
    if bytes.None? then Trace([d], Err(Corrupt)) else
      var t := Complete(env, d.(pending := d.pending[id := bytes.value]), id, r);
      Trace([d] + t.disks, t.reply)
  }

  /**
   One call of a wallet operation: replay what the id already stands for, or recover, sign and
   journal. `signed` is what this call would sign now; `None` if it is refused before signing.
   */
  function Operate(env: Env, d: Disk, id: Bytes, kind: Kind, digest: Bytes32, order: seq<Bytes>, signed: Option<Record>)
    : (t: Trace<Receipt>)
    ensures t.disks != [] && t.disks[0] == d
  {
    var entry := Lookup(env, d, id);
    if entry.Err? then Trace([d], Err(entry.error)) else
    match entry.value
    case Finished(receipt) =>
      Trace([d], if receipt.kind == kind && receipt.digest == digest then Ok(receipt) else Err(Reused))
    case Waiting(r) =>
      if r.kind == kind && r.digest == digest then Complete(env, d, id, r) else Trace([d], Err(Reused))
    case Absent =>
      var recovered := CommitPending(env, d, order);
      if recovered.reply.Err? then Trace(recovered.disks, Err(recovered.reply.error))
      else if signed.None? then Trace(recovered.disks, Err(Refused))
      else
        var t := JournalAndCommit(env, Last(recovered.disks), id, signed.value.(kind := kind, digest := digest));
        Trace(Then(recovered.disks, t.disks), t.reply)
  }

  /* ---- runs with crashes ---- */

  datatype Call =
    | Recovering(order: seq<Bytes>, reached: nat)
    | Operating(id: Bytes, kind: Kind, digest: Bytes32, order: seq<Bytes>, signed: Option<Record>, reached: nat)

  function DisksOf(env: Env, d: Disk, c: Call): seq<Disk> {
    match c
    case Recovering(order, _) => CommitPending(env, d, order).disks
    case Operating(id, kind, digest, order, signed, _) => Operate(env, d, id, kind, digest, order, signed).disks
  }

  /** The call gets as far as `reached` durable steps, or to its end. */
  function After(env: Env, d: Disk, c: Call): Disk {
    var disks := DisksOf(env, d, c);
    if disks == [] then d else disks[if c.reached < |disks| then c.reached else |disks| - 1]
  }

  function Run(env: Env, d: Disk, calls: seq<Call>): Disk {
    if calls == [] then d else After(env, Run(env, d, calls[..|calls| - 1]), calls[|calls| - 1])
  }

  /* ---- the invariant ---- */

  /** Encoded records read back as themselves. */
  ghost predicate EnvSound(env: Env) {
    && (forall r: Record :: env.putPending(r).Some? ==> env.getPending(env.putPending(r).value) == Some(r))
    && (forall r: Receipt :: env.putReceipt(r).Some? ==> env.getReceipt(env.putReceipt(r).value) == Some(r))
  }

  predicate Holds(env: Env, d: Disk, id: Bytes, r: Record) {
    id in d.pending && env.getPending(d.pending[id]) == Some(r)
  }

  /** The receipt of `id` is the one its committed object and record determine. */
  predicate Receipted(env: Env, d: Disk, id: Bytes, body: Bytes) {
    && id in d.receipts && env.getReceipt(d.receipts[id]).Some?
    && env.getReceipt(d.receipts[id]).value.objectId == env.objectId(body)
  }

  ghost predicate IdOk(env: Env, d: Disk, id: Bytes) {
    && (id in d.pending ==> env.getPending(d.pending[id]).Some?)
    && (id in d.receipts ==> env.getReceipt(d.receipts[id]).Some?)
    && (id in d.pending && id in d.receipts ==>
          env.getReceipt(d.receipts[id]).value == ReceiptOf(env, env.getPending(d.pending[id]).value))
  }

  /** Whatever an operation put into the store is the object its id still stands for. */
  ghost predicate CommittedOk(env: Env, d: Disk, id: Bytes, body: Bytes) {
    && body in d.store
    && (id in d.pending ==> env.getPending(d.pending[id]).Some? && env.getPending(d.pending[id]).value.body == body)
    && (id !in d.pending ==> id in d.receipts)
    && (id in d.receipts ==> Receipted(env, d, id, body))
  }

  ghost predicate Inv(env: Env, d: Disk) {
    && (forall id :: IdOk(env, d, id))
    && (forall c :: c in d.committed ==> CommittedOk(env, d, c.0, c.1))
    && (forall c, e :: c in d.committed && e in d.committed && c.0 == e.0 ==> c.1 == e.1)
    && (forall id :: id in d.receipts ==> exists c :: c in d.committed && c.0 == id)
  }

  /* ---- each durable step keeps it ---- */

  lemma StoredInv(env: Env, d: Disk, id: Bytes, r: Record)
    requires Inv(env, d) && Holds(env, d, id, r)
    ensures Inv(env, Stored(d, id, r.body)) && Holds(env, Stored(d, id, r.body), id, r)
  {
    var d1 := Stored(d, id, r.body);
    forall x ensures IdOk(env, d1, x) { assert IdOk(env, d, x); }
    forall c | c in d1.committed ensures CommittedOk(env, d1, c.0, c.1) {
      if c in d.committed { assert CommittedOk(env, d, c.0, c.1); } else { assert IdOk(env, d, id); }
    }
    forall c, e | c in d1.committed && e in d1.committed && c.0 == e.0 ensures c.1 == e.1 {
      if c in d.committed { assert CommittedOk(env, d, c.0, c.1); }
      if e in d.committed { assert CommittedOk(env, d, e.0, e.1); }
    }
    forall x | x in d1.receipts ensures exists c :: c in d1.committed && c.0 == x {
      var c :| c in d.committed && c.0 == x;
      assert c in d1.committed;
    }
  }

  lemma MarkedInv(env: Env, d: Disk, accounts: map<Bytes, Bytes>)
    requires Inv(env, d)
    ensures Inv(env, d.(accounts := accounts))
  {
    var d1 := d.(accounts := accounts);
    forall x ensures IdOk(env, d1, x) { assert IdOk(env, d, x); }
    forall c | c in d1.committed ensures CommittedOk(env, d1, c.0, c.1) { assert CommittedOk(env, d, c.0, c.1); }
  }

  lemma ReceiptInv(env: Env, d: Disk, id: Bytes, r: Record, bytes: Bytes)
    requires Inv(env, d) && Holds(env, d, id, r) && (id, r.body) in d.committed
    requires env.getReceipt(bytes) == Some(ReceiptOf(env, r))
    ensures Inv(env, d.(receipts := d.receipts[id := bytes]))
  {
    var d1 := d.(receipts := d.receipts[id := bytes]);
    forall x ensures IdOk(env, d1, x) { assert IdOk(env, d, x); }
    forall c | c in d1.committed ensures CommittedOk(env, d1, c.0, c.1) { assert CommittedOk(env, d, c.0, c.1); }
    forall x | x in d1.receipts ensures exists c :: c in d1.committed && c.0 == x {
      if x == id {
        assert (id, r.body) in d1.committed;
      } else {
        var c :| c in d.committed && c.0 == x;
        assert c in d1.committed;
      }
    }
  }

  lemma DroppedInv(env: Env, d: Disk, id: Bytes)
    requires Inv(env, d) && id in d.receipts
    ensures Inv(env, d.(pending := d.pending - {id}))
  {
    var d1 := d.(pending := d.pending - {id});
    forall x ensures IdOk(env, d1, x) { assert IdOk(env, d, x); }
    forall c | c in d1.committed ensures CommittedOk(env, d1, c.0, c.1) { assert CommittedOk(env, d, c.0, c.1); }
  }

  /** Only an id nothing is known about is journaled, so nothing was ever stored for it. */
  lemma JournaledInv(env: Env, d: Disk, id: Bytes, r: Record, bytes: Bytes)
    requires Inv(env, d) && id !in d.pending && id !in d.receipts && env.getPending(bytes) == Some(r)
    ensures Inv(env, d.(pending := d.pending[id := bytes]))
  {
    var d1 := d.(pending := d.pending[id := bytes]);
    forall x ensures IdOk(env, d1, x) { assert IdOk(env, d, x); }
    forall c | c in d1.committed ensures CommittedOk(env, d1, c.0, c.1) { assert CommittedOk(env, d, c.0, c.1); }
  }

  /* ---- whole calls, at every point they can stop ---- */

  /** Nothing an id stands for is lost or changed between two disks. */
  ghost predicate Keeps(env: Env, d: Disk, later: Disk) {
    && d.committed <= later.committed
    && forall id :: Content(env, d, id).Some? ==> Content(env, later, id) == Content(env, d, id)
  }

  /** What an operation id stands for: its kind and the digest of its input. */
  function Content(env: Env, d: Disk, id: Bytes): Option<(Kind, Bytes32)> {
    match Lookup(env, d, id)
    case Ok(Finished(r)) => Some((r.kind, r.digest))
    case Ok(Waiting(r)) => Some((r.kind, r.digest))
    case _ => None
  }

  ghost predicate Safe(env: Env, start: Disk, disks: seq<Disk>) {
    forall i :: 0 <= i < |disks| ==> Inv(env, disks[i]) && Keeps(env, start, disks[i])
  }

  lemma KeepsTransitive(env: Env, a: Disk, b: Disk, c: Disk)
    requires Keeps(env, a, b) && Keeps(env, b, c)
    ensures Keeps(env, a, c)
  {
  }

  lemma SameEntriesKeep(env: Env, d: Disk, later: Disk)
    requires later.pending == d.pending && later.receipts == d.receipts && d.committed <= later.committed
    ensures Keeps(env, d, later)
  {
  }

  /** The receipt stands for exactly what the pending record stood for. */
  lemma ReceiptKeeps(env: Env, d: Disk, id: Bytes, r: Record, bytes: Bytes)
    requires IdOk(env, d, id) && Holds(env, d, id, r) && env.getReceipt(bytes) == Some(ReceiptOf(env, r))
    ensures Keeps(env, d, d.(receipts := d.receipts[id := bytes]))
  {
  }

  lemma DropKeeps(env: Env, d: Disk, id: Bytes)
    requires id in d.receipts
    ensures Keeps(env, d, d.(pending := d.pending - {id}))
  {
  }

  lemma FinishSafe(env: Env, start: Disk, disks: seq<Disk>, id: Bytes, r: Record)
    requires EnvSound(env) && disks != [] && Safe(env, start, disks)
    requires Holds(env, Last(disks), id, r) && (id, r.body) in Last(disks).committed
    ensures Safe(env, start, Finish(env, disks, id, r).disks)
  {
    var bytes := env.putReceipt(ReceiptOf(env, r));
    if bytes.Some? {
      var d := Last(disks);
      var written := d.(receipts := d.receipts[id := bytes.value]);
      var dropped := written.(pending := written.pending - {id});
      assert Inv(env, d) && Keeps(env, start, d) && IdOk(env, d, id);
      assert Inv(env, written) && Keeps(env, start, written) by {
        ReceiptInv(env, d, id, r, bytes.value);
        ReceiptKeeps(env, d, id, r, bytes.value);
        KeepsTransitive(env, start, d, written);
      }
      assert Inv(env, dropped) && Keeps(env, start, dropped) by {
        DroppedInv(env, written, id);
        DropKeeps(env, written, id);
        KeepsTransitive(env, start, written, dropped);
      }
      TwoMoreSafe(env, start, disks, written, dropped);
    }
  }

  lemma TwoMoreSafe(env: Env, start: Disk, disks: seq<Disk>, a: Disk, b: Disk)
    requires Safe(env, start, disks) && Inv(env, a) && Keeps(env, start, a) && Inv(env, b) && Keeps(env, start, b)
    ensures Safe(env, start, disks + [a, b])
  {
  }

  lemma CompleteSafe(env: Env, d: Disk, id: Bytes, r: Record)
    requires EnvSound(env) && Inv(env, d) && Holds(env, d, id, r)
    ensures Safe(env, d, Complete(env, d, id, r).disks)
  {
    if env.canonical(r.body) {
      var d1 := Stored(d, id, r.body);
      StoredInv(env, d, id, r);
      SameEntriesKeep(env, d, d1);
      if r.kind != KIND_REGISTER {
        FinishSafe(env, d, [d, d1], id, r);
      } else if env.registration(r.body).Some? {
        var marker := env.registration(r.body).value;
        var d2 := d1.(accounts := d1.accounts[marker.0 := marker.1]);
        MarkedInv(env, d1, d2.accounts);
        SameEntriesKeep(env, d, d2);
        FinishSafe(env, d, [d, d1, d2], id, r);
      }
    }
  }

  lemma {:induction false} CommitPendingSafe(env: Env, d: Disk, order: seq<Bytes>)
    requires EnvSound(env) && Inv(env, d)
    ensures Safe(env, d, CommitPending(env, d, order).disks)
  {
    if order != [] {
      var n := |order| - 1;
      CommitPendingSafe(env, d, order[..n]);
      var before := CommitPending(env, d, order[..n]);
      var now := Last(before.disks);
      if order[n] in now.pending && env.getPending(now.pending[order[n]]).Some? {
        var r := env.getPending(now.pending[order[n]]).value;
        CompleteSafe(env, now, order[n], r);
        ExtendSafe(env, d, before.disks, Complete(env, now, order[n], r).disks);
      }
    }
  }

  lemma ExtendSafe(env: Env, start: Disk, disks: seq<Disk>, more: seq<Disk>)
    requires disks != [] && more != [] && Safe(env, start, disks) && Safe(env, Last(disks), more)
    ensures Safe(env, start, Then(disks, more))
  {
  }

  lemma LastOfThen(disks: seq<Disk>, more: seq<Disk>)
    requires disks != [] && more != [] && more[0] == Last(disks)
    ensures Last(Then(disks, more)) == Last(more)
  {
  }

  /** Recovery completes what is pending; it never creates an entry for an unknown id. */
  lemma {:induction false} CommitPendingAddsNothing(env: Env, d: Disk, order: seq<Bytes>, id: Bytes)
    requires id !in d.pending && id !in d.receipts
    ensures var last := Last(CommitPending(env, d, order).disks); id !in last.pending && id !in last.receipts
  {
    if order != [] {
      var n := |order| - 1;
      CommitPendingAddsNothing(env, d, order[..n], id);
      var now := Last(CommitPending(env, d, order[..n]).disks);
      if order[n] in now.pending && env.getPending(now.pending[order[n]]).Some? {
        var r := env.getPending(now.pending[order[n]]).value;
        CompleteTouches(env, now, order[n], r, id);
        LastOfThen(CommitPending(env, d, order[..n]).disks, Complete(env, now, order[n], r).disks);
      }
    }
  }

  lemma CompleteTouches(env: Env, d: Disk, id: Bytes, r: Record, other: Bytes)
    requires other != id && other !in d.pending && other !in d.receipts
    ensures var last := Last(Complete(env, d, id, r).disks); other !in last.pending && other !in last.receipts
  {
  }

  lemma JournalAndCommitSafe(env: Env, d: Disk, id: Bytes, r: Record)
    requires EnvSound(env) && Inv(env, d) && id !in d.pending && id !in d.receipts
    ensures Safe(env, d, JournalAndCommit(env, d, id, r).disks)
  {
    var bytes := env.putPending(r);
    if bytes.Some? {
      var d1 := d.(pending := d.pending[id := bytes.value]);
      JournaledInv(env, d, id, r, bytes.value);
      var more := Complete(env, d1, id, r).disks;
      assert Keeps(env, d, d1);
      CompleteSafe(env, d1, id, r);
      forall i | 0 <= i < |more| ensures Keeps(env, d, more[i]) {
        KeepsTransitive(env, d, d1, more[i]);
      }
    }
  }

  lemma OperateSafe(env: Env, d: Disk, id: Bytes, kind: Kind, digest: Bytes32, order: seq<Bytes>,
                    signed: Option<Record>)
    requires EnvSound(env) && Inv(env, d)
    ensures Safe(env, d, Operate(env, d, id, kind, digest, order, signed).disks)
  {
    var entry := Lookup(env, d, id);
    if entry.Ok? && entry.value.Waiting? {
      CompleteSafe(env, d, id, entry.value.record);
    } else if entry == Ok(Absent) {
      var recovered := CommitPending(env, d, order);
      var now := Last(recovered.disks);
      CommitPendingSafe(env, d, order);
      if recovered.reply.Ok? && signed.Some? {
        var r := signed.value.(kind := kind, digest := digest);
        CommitPendingAddsNothing(env, d, order, id);
        JournalAndCommitSafe(env, now, id, r);
        ExtendSafe(env, d, recovered.disks, JournalAndCommit(env, now, id, r).disks);
      }
    }
  }

  const EMPTY := Disk(map[], map[], map[], {}, {})

  lemma {:induction false} RunSafe(env: Env, d: Disk, calls: seq<Call>)
    requires EnvSound(env) && Inv(env, d)
    ensures Inv(env, Run(env, d, calls)) && Keeps(env, d, Run(env, d, calls))
  {
    if calls != [] {
      var before := Run(env, d, calls[..|calls| - 1]);
      var c := calls[|calls| - 1];
      RunSafe(env, d, calls[..|calls| - 1]);
      match c {
        case Recovering(order, _) => CommitPendingSafe(env, before, order);
        case Operating(id, kind, digest, order, signed, _) => OperateSafe(env, before, id, kind, digest, order, signed);
      }
      assert Safe(env, before, DisksOf(env, before, c));
      KeepsTransitive(env, d, before, After(env, before, c));
    }
  }

  /** Over every run, crashed anywhere and retried at will, an operation id stores at most one object. */
  lemma AtMostOneObject(env: Env, calls: seq<Call>, id: Bytes, a: Bytes, b: Bytes)
    requires EnvSound(env)
    requires (id, a) in Run(env, EMPTY, calls).committed && (id, b) in Run(env, EMPTY, calls).committed
    ensures a == b && a in Run(env, EMPTY, calls).store
  {
    RunSafe(env, EMPTY, calls);
  }

  /** Once an id stands for some content, any other content under it is refused and changes nothing. */
  lemma ReuseIsRefused(env: Env, d: Disk, calls: seq<Call>, id: Bytes, kind: Kind, digest: Bytes32,
                       order: seq<Bytes>, signed: Option<Record>)
    requires EnvSound(env) && Inv(env, d)
    requires Content(env, d, id).Some? && Content(env, d, id) != Some((kind, digest))
    ensures var later := Run(env, d, calls);
      Operate(env, later, id, kind, digest, order, signed) == Trace([later], Err(Reused))
  {
    RunSafe(env, d, calls);
  }

  /* ---- crash and retry ---- */

  predicate Completes(env: Env, r: Record) {
    && env.canonical(r.body) && (r.kind == KIND_REGISTER ==> env.registration(r.body).Some?)
    && env.putReceipt(ReceiptOf(env, r)).Some?
  }

  function Marked(env: Env, d: Disk, r: Record): Disk {
    if r.kind == KIND_REGISTER && env.registration(r.body).Some? then
      var marker := env.registration(r.body).value;
      d.(accounts := d.accounts[marker.0 := marker.1])
    else d
  }

  function Settled(env: Env, d: Disk, id: Bytes, r: Record): Disk
    requires Completes(env, r)
  {
    Marked(env, Stored(d, id, r.body), r).(
      receipts := d.receipts[id := env.putReceipt(ReceiptOf(env, r)).value], pending := d.pending - {id})
  }

  lemma CompleteOutcome(env: Env, d: Disk, id: Bytes, r: Record)
    ensures var t := Complete(env, d, id, r);
      && (t.reply.Ok? <==> Completes(env, r))
      && (Completes(env, r) ==> t.reply == Ok(ReceiptOf(env, r)) && Last(t.disks) == Settled(env, d, id, r))
  {
  }

  /** Every disk along the way is the start with some of the four steps already taken. */
  lemma CompleteStages(env: Env, d: Disk, id: Bytes, r: Record, k: nat)
    requires Completes(env, r) && k < |Complete(env, d, id, r).disks|
    ensures var x := Complete(env, d, id, r).disks[k];
      var d1 := Stored(d, id, r.body);
      var d2 := Marked(env, d1, r);
      var d3 := d2.(receipts := d2.receipts[id := env.putReceipt(ReceiptOf(env, r)).value]);
      x == d || x == d1 || x == d2 || x == d3 || x == Settled(env, d, id, r)
  {
  }

  lemma SettledAgain(env: Env, d: Disk, id: Bytes, r: Record)
    requires Completes(env, r)
    ensures var d1 := Stored(d, id, r.body);
      var d2 := Marked(env, d1, r);
      var d3 := d2.(receipts := d2.receipts[id := env.putReceipt(ReceiptOf(env, r)).value]);
      var done := Settled(env, d, id, r);
      && Settled(env, d1, id, r) == done && Settled(env, d2, id, r) == done && Settled(env, d3, id, r) == done
      && Settled(env, done, id, r) == done
  {
  }

  /** Repeating `complete` after a crash at any point reaches the same disk and the same answer. */
  lemma CompleteConverges(env: Env, d: Disk, id: Bytes, r: Record, k: nat)
    requires Completes(env, r) && k < |Complete(env, d, id, r).disks|
    ensures var t := Complete(env, d, id, r);
      var again := Complete(env, t.disks[k], id, r);
      again.reply == t.reply == Ok(ReceiptOf(env, r)) && Last(again.disks) == Last(t.disks)
  {
    CompleteOutcome(env, d, id, r);
    CompleteOutcome(env, Complete(env, d, id, r).disks[k], id, r);
    CompleteStages(env, d, id, r, k);
    SettledAgain(env, d, id, r);
  }

  /** After a crash anywhere past journaling, asking again gives the original receipt; nothing is signed anew. */
  lemma RetryAfterCrash(env: Env, d: Disk, id: Bytes, r: Record, k: nat, order: seq<Bytes>, signed: Option<Record>)
    requires EnvSound(env) && Inv(env, d) && Holds(env, d, id, r)
    requires Completes(env, r) && k < |Complete(env, d, id, r).disks|
    ensures var crashed := Complete(env, d, id, r).disks[k];
      Operate(env, crashed, id, r.kind, r.digest, order, signed).reply == Ok(ReceiptOf(env, r))
  {
    assert IdOk(env, d, id);
    var crashed := Complete(env, d, id, r).disks[k];
    CompleteStages(env, d, id, r, k);
    CompleteOutcome(env, crashed, id, r);
  }

  /* ---- the answers of an operation ---- */

  /** What an id already stands for is answered from the record alone; nothing is signed or recovered. */
  lemma KnownIsAnswered(env: Env, d: Disk, id: Bytes, kind: Kind, digest: Bytes32, order: seq<Bytes>,
                        signed: Option<Record>)
    requires Inv(env, d) && (id in d.receipts || id in d.pending)
    ensures var t := Operate(env, d, id, kind, digest, order, signed);
      && (t.reply == Err(Reused) <==> Content(env, d, id) != Some((kind, digest)))
      && (t.reply == Err(Reused) || id in d.receipts ==> t.disks == [d])
      && (id in d.receipts && t.reply.Ok? ==> Some(t.reply.value) == env.getReceipt(d.receipts[id]))
  {
    assert IdOk(env, d, id);
    if id !in d.receipts { CompleteNeverReuses(env, d, id, env.getPending(d.pending[id]).value); }
  }

  lemma CompleteNeverReuses(env: Env, d: Disk, id: Bytes, r: Record)
    ensures Complete(env, d, id, r).reply != Err(Reused)
  {
  }

  /** The receipt of a record: its own fields and its object's identifier. */
  predicate ReceiptFor(env: Env, r: Receipt, kind: Kind, digest: Bytes32, signed: Record) {
    && r.kind == kind && r.digest == digest && r.account == signed.account
    && r.amount == signed.amount && r.change == signed.change && r.objectId == env.objectId(signed.body)
  }

  /** The operation is on record and its object in the store; a registration also left its marker. */
  predicate OnRecord(env: Env, d: Disk, id: Bytes, receipt: Receipt, kind: Kind, body: Bytes) {
    && id in d.receipts && env.getReceipt(d.receipts[id]) == Some(receipt) && id !in d.pending
    && body in d.store && (id, body) in d.committed
    && (kind == KIND_REGISTER ==>
          && env.registration(body).Some? && env.registration(body).value.0 in d.accounts
          && d.accounts[env.registration(body).value.0] == env.registration(body).value.1)
  }

  lemma CompletedOnRecord(env: Env, d: Disk, id: Bytes, r: Record)
    requires EnvSound(env) && Complete(env, d, id, r).reply.Ok?
    ensures var t := Complete(env, d, id, r);
      && ReceiptFor(env, t.reply.value, r.kind, r.digest, r)
      && OnRecord(env, Last(t.disks), id, t.reply.value, r.kind, r.body)
      && (forall x :: x != id ==>
            && (x in Last(t.disks).receipts <==> x in d.receipts) && (x in Last(t.disks).pending <==> x in d.pending))
  {
    CompleteOutcome(env, d, id, r);
  }

  /** A new id, once recovery is through: refused before signing, or signed, stored and on record under its content. */
  lemma NewIsRecorded(env: Env, d: Disk, id: Bytes, kind: Kind, digest: Bytes32, order: seq<Bytes>,
                      signed: Option<Record>)
    requires EnvSound(env) && id !in d.receipts && id !in d.pending && CommitPending(env, d, order).reply.Ok?
    ensures var t := Operate(env, d, id, kind, digest, order, signed);
      && (signed.None? ==> t.reply == Err(Refused) && t.disks == CommitPending(env, d, order).disks)
      && (t.reply.Ok? <==>
            && signed.Some? && var r := signed.value.(kind := kind, digest := digest);
               env.putPending(r).Some? && Completes(env, r))
      && (t.reply.Ok? ==>
            && ReceiptFor(env, t.reply.value, kind, digest, signed.value)
            && OnRecord(env, Last(t.disks), id, t.reply.value, kind, signed.value.body))
  {
    if signed.Some? {
      var recovered := CommitPending(env, d, order);
      var now, r := Last(recovered.disks), signed.value.(kind := kind, digest := digest);
      var bytes := env.putPending(r);
      if bytes.Some? {
        var journaled := now.(pending := now.pending[id := bytes.value]);
        CompleteOutcome(env, journaled, id, r);
        if Completes(env, r) { CompletedOnRecord(env, journaled, id, r); }
        LastOfThen(recovered.disks, JournalAndCommit(env, now, id, r).disks);
      }
    }
  }
}
