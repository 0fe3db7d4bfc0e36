/** The book of delivery peers: trust that only grows, across failed writes and reopens. */
module PeerBooks {
  import opened Prelude
  import opened Identity
  import opened KeyEventLog
  import opened WireForm
  import opened Fork
  import opened Delegation

  const MAX_DELIVERY_PEERS := 64
  const MAX_DELIVERY_KEL_BYTES := 16 * 1024

  /* ---- the single-digest check ---- */

  predicate Extends(p: Primitives, earlier: Kel, later: Kel) {
    && DidOf(earlier.scid) == DidOf(later.scid)
    && var state := Verify(p, earlier);
       state.Ok? && EventDigestAt(p, later, state.value.sn).Ok?
       && EventDigestAt(p, later, state.value.sn) == HeadDigest(p, earlier)
  }

  /** Comparing one digest decides whether one verified log is an event prefix of another. */
  lemma ExtendsIsPrefix(p: Primitives, earlier: Kel, later: Kel)
    requires Verified(p, earlier) && Verified(p, later) && NoCollision(p, earlier, later)
    ensures Extends(p, earlier, later) <==> earlier.events <= later.events
  {
    var n := |earlier.events| - 1;
    if Extends(p, earlier, later) {
      DigestPinsHistory(p, earlier, later, n, n);
      assert earlier.events[..n + 1] == earlier.events;
    }
    if earlier.events <= later.events {
      VerifiedShape(p, earlier, 0);
      VerifiedShape(p, later, 0);
      assert later.events[n] == earlier.events[n];
    }
  }

  /* ---- what the book consults ---- */

  /** The identity checks, as the book uses them; addresses and labels are text. */
  datatype Trust = Trust(
    parse: Bytes -> Verdict<Kel>, readable: Kel -> bool, verified: Kel -> bool, did: Kel -> Bytes,
    delegator: Kel -> Option<Bytes>, delegates: (Kel, Kel) -> bool, prefixOf: (Kel, Kel) -> bool,
    idOk: Bytes -> bool, endpoint: Bytes -> Option<Bytes>)

  predicate Readable(p: Primitives, k: Kel) {
    |ToBytes(k)| <= MAX_DELIVERY_KEL_BYTES && FromBytes(p, ToBytes(k)) == Ok(k)
  }

  function TrustOf(p: Primitives, idOk: Bytes -> bool, endpoint: Bytes -> Option<Bytes>): Trust {
    Trust(b => FromBytes(p, b), k => Readable(p, k), k => Verified(p, k), (k: Kel) => DidOf(k.scid),
          k => Delegator(p, k), (r, d) => VerifyDelegation(p, r, d).Ok?, (a, b) => Extends(p, a, b),
          idOk, endpoint)
  }

  datatype Peer = Peer(id: Bytes, endpoint: Bytes, root: Kel, device: Kel, enabled: bool)

  datatype PeerError =
    | NeedsReopen | BadLabel | LogTooLarge | BadLog | BadRecord | RollbackOrFork | ForeignDevice
    | RootAlreadyLabelled | BookFull | BadEndpoint | UnknownPeer | StorageFailed | BadBook

  type Reply<T> = Result<T, PeerError>

  /** The records on disk, by label, and whether an earlier write left them in doubt. */
  datatype Book = Book(disk: map<Bytes, Peer>, poisoned: bool)

  /** The checks every record passes when it is read back. */
  predicate RecordOk(t: Trust, r: Peer) {
    && t.idOk(r.id) && t.readable(r.root) && t.readable(r.device)
    && t.verified(r.root) && t.verified(r.device)
    && t.delegator(r.device) == Some(t.did(r.root))
    && (r.enabled ==> t.delegates(r.root, r.device))
    && t.endpoint(r.endpoint) == Some(r.endpoint)
  }

  predicate BookOk(t: Trust, disk: map<Bytes, Peer>) {
    && |disk| <= MAX_DELIVERY_PEERS
    && (forall l :: l in disk ==> RecordOk(t, disk[l]) && disk[l].id == l)
    && UniqueRoots(t.did, disk)
  }

  /** No root identity has two labels. */
  predicate UniqueRoots(did: Kel -> Bytes, disk: map<Bytes, Peer>) {
    forall l, m :: l in disk && m in disk && l != m ==> did(disk[l].root) != did(disk[m].root)
  }

  predicate RootLabelled(did: Kel -> Bytes, disk: map<Bytes, Peer>, root: Kel) {
    exists l :: l in disk && did(disk[l].root) == did(root)
  }

  function Get(t: Trust, b: Book, id: Bytes): Reply<Option<Peer>> {
    if b.poisoned then Err(NeedsReopen)
    else if !t.idOk(id) then Err(BadLabel)
    else if id !in b.disk then Ok(None)
    else if !RecordOk(t, b.disk[id]) || b.disk[id].id != id then Err(BadRecord)
    else Ok(Some(b.disk[id]))
  }

  /** Poison first, check the record that is about to be written, replace it, and only then heal. */
  function Write(t: Trust, b: Book, r: Peer, outcome: WriteOutcome): (Book, Reply<Peer>) {
    if b.poisoned then (b, Err(NeedsReopen))
    else if !RecordOk(t, r) then (b.(poisoned := true), Err(BadRecord))
    else match outcome
      case Done => (Book(b.disk[r.id := r], false), Ok(r))
      case FailedBefore => (Book(b.disk, true), Err(StorageFailed))
      case FailedAfter => (Book(b.disk[r.id := r], true), Err(StorageFailed))
  }

  /** The part of `authorize` that looks at the device and the address. */
  function Admit(t: Trust, b: Book, id: Bytes, address: Bytes, root: Kel, deviceBytes: Bytes,
                 known: Option<Peer>, outcome: WriteOutcome): (Book, Reply<Peer>)
  {
    if |deviceBytes| > MAX_DELIVERY_KEL_BYTES then (b, Err(LogTooLarge)) else
    var device := t.parse(deviceBytes);
    if device.Err? || !t.verified(device.value) then (b, Err(BadLog))
    else if t.delegator(device.value) != Some(t.did(root)) then (b, Err(ForeignDevice))
    else if known.Some? && !t.prefixOf(known.value.device, device.value) then (b, Err(RollbackOrFork))
    else if known.None? && !BookOk(t, b.disk) then (b, Err(BadBook))
    else if known.None? && RootLabelled(t.did, b.disk, root) then (b, Err(RootAlreadyLabelled))
    else if known.None? && |b.disk| >= MAX_DELIVERY_PEERS then (b, Err(BookFull))
    else
      var endpoint := t.endpoint(address);
      if endpoint.None? then (b, Err(BadEndpoint)) else
        Write(t, b, Peer(id, endpoint.value, root, device.value, t.delegates(root, device.value)), outcome)
  }

  function Authorize(t: Trust, b: Book, id: Bytes, address: Bytes, rootBytes: Bytes, deviceBytes: Bytes,
                     outcome: WriteOutcome): (Book, Reply<Peer>)
  {
    if b.poisoned then (b, Err(NeedsReopen))
    else if !t.idOk(id) then (b, Err(BadLabel))
    else if |rootBytes| > MAX_DELIVERY_KEL_BYTES then (b, Err(LogTooLarge))
    else
      var root := t.parse(rootBytes);
      if root.Err? || !t.verified(root.value) then (b, Err(BadLog)) else
      var known := Get(t, b, id);
      if known.Err? then (b, Err(known.error))
      else if known.value.None? then Admit(t, b, id, address, root.value, deviceBytes, None, outcome)
      else
        var prior := known.value.value;
        if !t.prefixOf(prior.root, root.value) then (b, Err(RollbackOrFork))
        else if !t.delegates(root.value, prior.device) then
          Write(t, b, prior.(root := root.value, enabled := false), outcome)
        else Admit(t, b, id, address, root.value, deviceBytes, Some(prior), outcome)
  }

  function Revoke(t: Trust, b: Book, id: Bytes, outcome: WriteOutcome): (Book, Reply<Peer>) {
    var known := Get(t, b, id);
    if known.Err? then (b, Err(known.error))
    else if known.value.None? then (b, Err(UnknownPeer))
    else Write(t, b, known.value.value.(enabled := false), outcome)
  }

  /** Opening the same directory again; a book that does not validate stays closed. */
  function Reopen(t: Trust, b: Book): Book { Book(b.disk, !BookOk(t, b.disk)) }

  /* ---- runs ---- */

  datatype Action =
    | Authorizing(id: Bytes, address: Bytes, rootBytes: Bytes, deviceBytes: Bytes, outcome: WriteOutcome)
    | Revoking(id: Bytes, outcome: WriteOutcome)
    | Reopening

  function Act(t: Trust, b: Book, a: Action): Book {
    match a
    case Authorizing(id, address, root, device, outcome) => Authorize(t, b, id, address, root, device, outcome).0
    case Revoking(id, outcome) => Revoke(t, b, id, outcome).0
    case Reopening => Reopen(t, b)
  }

  function RunBook(t: Trust, b: Book, actions: seq<Action>): Book {
    if actions == [] then b else Act(t, RunBook(t, b, actions[..|actions| - 1]), actions[|actions| - 1])
  }

  /** What holds of the parts the book is built from. */
  ghost predicate TrustSound(t: Trust) {
    && (forall b: Bytes :: t.parse(b).Ok? && |b| <= MAX_DELIVERY_KEL_BYTES ==> t.readable(t.parse(b).value))
    && (forall a: Kel, b: Kel :: t.prefixOf(a, b) ==> t.did(a) == t.did(b))
    && (forall a: Bytes :: t.endpoint(a).Some? ==> t.endpoint(t.endpoint(a).value) == t.endpoint(a))
  }

  /** The real parser, verifier and prefix check are sound in this sense: accepted bytes are canonical. */
  lemma TrustOfIsSound(p: Primitives, idOk: Bytes -> bool, endpoint: Bytes -> Option<Bytes>)
    requires forall a: Bytes :: endpoint(a).Some? ==> endpoint(endpoint(a).value) == endpoint(a)
    ensures TrustSound(TrustOf(p, idOk, endpoint))
  {
    var t := TrustOf(p, idOk, endpoint);
    forall b: Bytes | t.parse(b).Ok? && |b| <= MAX_DELIVERY_KEL_BYTES ensures t.readable(t.parse(b).value) {
      KelCanonical(p, b);
    }
  }

  /** A record that may take its label's place: a grown history, or a new label for a new root. */
  predicate MayReplace(t: Trust, disk: map<Bytes, Peer>, r: Peer) {
    && RecordOk(t, r)
    && if r.id in disk then
         && (r.root == disk[r.id].root || t.prefixOf(disk[r.id].root, r.root))
         && (r.device == disk[r.id].device || t.prefixOf(disk[r.id].device, r.device))
       else |disk| < MAX_DELIVERY_PEERS && !RootLabelled(t.did, disk, r.root)
  }

  /** The record's logs were on disk under its label or were presented by the caller. */
  predicate Presented(t: Trust, disk: map<Bytes, Peer>, a: Action, r: Peer) {
    && ((r.id in disk && r.root == disk[r.id].root) || (a.Authorizing? && t.parse(a.rootBytes) == Ok(r.root)))
    && ((r.id in disk && r.device == disk[r.id].device) || (a.Authorizing? && t.parse(a.deviceBytes) == Ok(r.device)))
  }

  lemma WriteEffect(t: Trust, b: Book, r: Peer, outcome: WriteOutcome)
    ensures var disk := Write(t, b, r, outcome).0.disk;
      disk == b.disk || (disk == b.disk[r.id := r] && RecordOk(t, r))
  {
  }

  lemma AdmitEffect(t: Trust, b: Book, id: Bytes, address: Bytes, root: Kel, deviceBytes: Bytes,
                    known: Option<Peer>, outcome: WriteOutcome) returns (r: Option<Peer>)
    requires if known.None? then id !in b.disk
             else id in b.disk && known.value == b.disk[id] && t.prefixOf(known.value.root, root)
    ensures var disk := Admit(t, b, id, address, root, deviceBytes, known, outcome).0.disk;
      if r.None? then disk == b.disk
      else disk == b.disk[id := r.value] && MayReplace(t, b.disk, r.value) && r.value.id == id
           && r.value.root == root && t.parse(deviceBytes) == Ok(r.value.device)
  {
    r := None;
    var disk := Admit(t, b, id, address, root, deviceBytes, known, outcome).0.disk;
    if disk != b.disk {
      var device := t.parse(deviceBytes).value;
      r := Some(Peer(id, t.endpoint(address).value, root, device, t.delegates(root, device)));
      WriteEffect(t, b, r.value, outcome);
    }
  }

  /** Every action leaves the disk alone or replaces one record by a permitted one. */
  lemma ActEffect(t: Trust, b: Book, a: Action) returns (r: Option<Peer>)
    ensures if r.None? then Act(t, b, a).disk == b.disk
            else Act(t, b, a).disk == b.disk[r.value.id := r.value] && MayReplace(t, b.disk, r.value)
                 && Presented(t, b.disk, a, r.value)
  {
    r := None;
    if Act(t, b, a).disk != b.disk {
      var known := Get(t, b, a.id).value;
      match a {
        case Authorizing(id, address, rootBytes, deviceBytes, outcome) =>
          var root := t.parse(rootBytes).value;
          if known.Some? && !t.delegates(root, known.value.device) {
            r := Some(known.value.(root := root, enabled := false));
            WriteEffect(t, b, r.value, outcome);
          } else {
            r := AdmitEffect(t, b, id, address, root, deviceBytes, known, outcome);
          }
        case Revoking(id, outcome) =>
          r := Some(known.value.(enabled := false));
          WriteEffect(t, b, r.value, outcome);
      }
    }
  }

  lemma AddRecord(t: Trust, disk: map<Bytes, Peer>, r: Peer)
    requires BookOk(t, disk) && MayReplace(t, disk, r)
    requires r.id in disk ==> t.did(disk[r.id].root) == t.did(r.root)
    ensures BookOk(t, disk[r.id := r])
  {
  }

  /**
   Over every run, with any write failing before or after it took effect: each record is verified,
   enabled only while its root delegates its device, root identities are unique across labels, and
   reopening always succeeds.
   */
  lemma {:induction false} RunKeepsBook(t: Trust, b: Book, actions: seq<Action>)
    requires TrustSound(t) && BookOk(t, b.disk)
    ensures BookOk(t, RunBook(t, b, actions).disk)
    ensures !Reopen(t, RunBook(t, b, actions)).poisoned
  {
    if actions != [] {
      var before := RunBook(t, b, actions[..|actions| - 1]);
      RunKeepsBook(t, b, actions[..|actions| - 1]);
      var r := ActEffect(t, before, actions[|actions| - 1]);
      if r.Some? {
        assert r.value.id in before.disk ==> t.did(before.disk[r.value.id].root) == t.did(r.value.root);
        AddRecord(t, before.disk, r.value);
      }
    }
  }

  /** So whatever a run leaves on disk can be trusted as it stands. */
  lemma StoredPeersTrusted(t: Trust, b: Book, actions: seq<Action>, l: Bytes)
    requires TrustSound(t) && BookOk(t, b.disk) && l in RunBook(t, b, actions).disk
    ensures var disk := RunBook(t, b, actions).disk;
      var r := disk[l];
      && r.id == l && t.idOk(l) && t.verified(r.root) && t.verified(r.device)
      && t.delegator(r.device) == Some(t.did(r.root)) && (r.enabled ==> t.delegates(r.root, r.device))
      && t.readable(r.root) && t.readable(r.device) && t.endpoint(r.endpoint) == Some(r.endpoint)
      && |disk| <= 64 && forall m :: m in disk && m != l ==> t.did(disk[m].root) != t.did(r.root)
  {
    RunKeepsBook(t, b, actions);
  }

  /** A directory that does not validate stays closed: nothing is written to it, whatever is asked. */
  lemma {:induction false} ClosedBookStays(t: Trust, b: Book, actions: seq<Action>)
    requires !BookOk(t, b.disk)
    ensures RunBook(t, b, [Reopening] + actions) == Book(b.disk, true)
  {
    var all := [Reopening] + actions;
    if actions == [] {
      assert all[..0] == [];
    } else {
      assert all[..|all| - 1] == [Reopening] + actions[..|actions| - 1];
      ClosedBookStays(t, b, actions[..|actions| - 1]);
    }
  }

  /* ---- histories only grow ---- */

  /* `logs` are the logs a run can store: those on disk already and those its callers present. */

  ghost predicate DiskWithin(disk: map<Bytes, Peer>, logs: set<Kel>) {
    forall l :: l in disk ==> disk[l].root in logs && disk[l].device in logs
  }

  ghost predicate PresentsWithin(t: Trust, a: Action, logs: set<Kel>) {
    a.Authorizing? ==>
      && (t.parse(a.rootBytes).Ok? ==> t.parse(a.rootBytes).value in logs)
      && (t.parse(a.deviceBytes).Ok? ==> t.parse(a.deviceBytes).value in logs)
  }

  /** On these logs the digest check means what it says. */
  ghost predicate ExtendsMeansPrefix(t: Trust, logs: set<Kel>) {
    forall a, b :: a in logs && b in logs && t.verified(a) && t.verified(b) && t.prefixOf(a, b) ==>
      a.events <= b.events
  }

  predicate Grown(before: map<Bytes, Peer>, after: map<Bytes, Peer>) {
    forall l :: l in before ==>
      && l in after && before[l].root.events <= after[l].root.events
      && before[l].device.events <= after[l].device.events
  }

  lemma ReplacingGrows(t: Trust, disk: map<Bytes, Peer>, r: Peer, logs: set<Kel>)
    requires ExtendsMeansPrefix(t, logs) && BookOk(t, disk) && MayReplace(t, disk, r)
    requires DiskWithin(disk, logs) && r.root in logs && r.device in logs
    ensures Grown(disk, disk[r.id := r]) && DiskWithin(disk[r.id := r], logs)
  {
  }

  lemma ActGrows(t: Trust, b: Book, a: Action, logs: set<Kel>)
    requires BookOk(t, b.disk) && DiskWithin(b.disk, logs) && PresentsWithin(t, a, logs)
    requires ExtendsMeansPrefix(t, logs)
    ensures Grown(b.disk, Act(t, b, a).disk) && DiskWithin(Act(t, b, a).disk, logs)
  {
    var r := ActEffect(t, b, a);
    if r.Some? { ReplacingGrows(t, b.disk, r.value, logs); }
  }

  lemma GrownTransitive(x: map<Bytes, Peer>, y: map<Bytes, Peer>, z: map<Bytes, Peer>)
    requires Grown(x, y) && Grown(y, z)
    ensures Grown(x, z)
  {
  }

  /**
   From any state a run can reach, whatever a label stores stays a prefix of what it stores after
   any further run; and the state reached is again such a state.
   */
  lemma {:induction false} HistoriesOnlyGrow(t: Trust, b: Book, actions: seq<Action>, logs: set<Kel>)
    requires TrustSound(t) && BookOk(t, b.disk) && DiskWithin(b.disk, logs) && ExtendsMeansPrefix(t, logs)
    requires forall k :: 0 <= k < |actions| ==> PresentsWithin(t, actions[k], logs)
    ensures Grown(b.disk, RunBook(t, b, actions).disk)
    ensures BookOk(t, RunBook(t, b, actions).disk) && DiskWithin(RunBook(t, b, actions).disk, logs)
  {
    RunKeepsBook(t, b, actions);
    if actions != [] {
      var earlier := actions[..|actions| - 1];
      var before := RunBook(t, b, earlier);
      HistoriesOnlyGrow(t, b, earlier, logs);
      ActGrows(t, before, actions[|actions| - 1], logs);
      GrownTransitive(b.disk, before.disk, RunBook(t, b, actions).disk);
    }
  }

  /** For the real checks the assumption is only that the logs involved do not collide. */
  lemma NoCollisionSuffices(p: Primitives, idOk: Bytes -> bool, endpoint: Bytes -> Option<Bytes>, logs: set<Kel>)
    requires forall a, b :: a in logs && b in logs ==> NoCollision(p, a, b)
    ensures ExtendsMeansPrefix(TrustOf(p, idOk, endpoint), logs)
  {
    forall a, b | a in logs && b in logs && Verified(p, a) && Verified(p, b) && Extends(p, a, b)
      ensures a.events <= b.events
    {
      ExtendsIsPrefix(p, a, b);
    }
  }

  /* ---- refusals and failures ---- */

  /** What a reply says about the book: refusals change nothing, only a failed write poisons. */
  predicate ReplyTruthful(b: Book, after: Book, reply: Reply<Peer>, id: Bytes, outcome: WriteOutcome) {
    match reply
    case Ok(r) => after == Book(b.disk[id := r], false) && r.id == id && outcome == Done
    case Err(StorageFailed) => after.poisoned && outcome != Done && (outcome == FailedBefore ==> after.disk == b.disk)
    case Err(_) => after == b
  }

  lemma WriteReply(t: Trust, b: Book, r: Peer, outcome: WriteOutcome)
    requires !b.poisoned && RecordOk(t, r)
    ensures ReplyTruthful(b, Write(t, b, r, outcome).0, Write(t, b, r, outcome).1, r.id, outcome)
  {
  }

  lemma AdmitReply(t: Trust, b: Book, id: Bytes, address: Bytes, root: Kel, deviceBytes: Bytes,
                   known: Option<Peer>, outcome: WriteOutcome)
    requires TrustSound(t) && !b.poisoned && t.idOk(id) && t.readable(root) && t.verified(root)
    ensures var (b', reply) := Admit(t, b, id, address, root, deviceBytes, known, outcome);
      ReplyTruthful(b, b', reply, id, outcome)
  {
  }

  /** The record a healthy book is about to write never fails its own read-back check. */
  lemma AuthorizeReply(t: Trust, b: Book, id: Bytes, address: Bytes, rootBytes: Bytes, deviceBytes: Bytes,
                       outcome: WriteOutcome)
    requires TrustSound(t) && BookOk(t, b.disk)
    ensures var (b', reply) := Authorize(t, b, id, address, rootBytes, deviceBytes, outcome);
      ReplyTruthful(b, b', reply, id, outcome)
  {
    var root := t.parse(rootBytes);
    var known := Get(t, b, id);
    if !b.poisoned && t.idOk(id) && |rootBytes| <= MAX_DELIVERY_KEL_BYTES && root.Ok? && t.verified(root.value)
       && known.Ok? {
      AdmitReply(t, b, id, address, root.value, deviceBytes, known.value, outcome);
      if known.value.Some? && t.prefixOf(known.value.value.root, root.value) {
        WriteReply(t, b, known.value.value.(root := root.value, enabled := false), outcome);
      }
    }
  }

  lemma RevokeReply(t: Trust, b: Book, id: Bytes, outcome: WriteOutcome)
    requires BookOk(t, b.disk)
    ensures var (b', reply) := Revoke(t, b, id, outcome);
      && ReplyTruthful(b, b', reply, id, outcome)
      && (reply.Ok? ==> id in b.disk && reply.value == b.disk[id].(enabled := false))
  {
  }

  /* ---- exactly when a peer is authorized, and as what ---- */

  predicate Presents(t: Trust, bytes: Bytes, k: Kel) {
    |bytes| <= 16 * 1024 && t.parse(bytes) == Ok(k) && t.verified(k)
  }

  /** The device log, if the root's own word does not already settle the matter. */
  predicate DeviceAcceptable(t: Trust, b: Book, id: Bytes, address: Bytes, root: Kel, deviceBytes: Bytes, device: Kel) {
    && Presents(t, deviceBytes, device) && t.delegator(device) == Some(t.did(root)) && t.endpoint(address).Some?
    && if id in b.disk then t.prefixOf(b.disk[id].device, device)
       else |b.disk| < 64 && forall l :: l in b.disk ==> t.did(b.disk[l].root) != t.did(root)
  }

  /** Stored with the presented logs, and enabled exactly if the root delegates the device now. */
  predicate StoredFor(t: Trust, id: Bytes, address: Bytes, root: Kel, device: Kel, r: Peer) {
    && r.id == id && r.root == root && r.device == device && t.endpoint(address) == Some(r.endpoint)
    && (r.enabled <==> t.delegates(root, device))
  }

  /** The root, already known under this label, no longer delegates the device stored with it. */
  predicate Withdrawn(t: Trust, b: Book, id: Bytes, root: Kel) {
    id in b.disk && !t.delegates(root, b.disk[id].device)
  }

  /** Success exactly under these conditions; a withdrawn peer is kept, with the newer root, disabled. */
  lemma AuthorizedExactly(t: Trust, b: Book, id: Bytes, address: Bytes, rootBytes: Bytes, deviceBytes: Bytes,
                          outcome: WriteOutcome)
    requires TrustSound(t) && BookOk(t, b.disk)
    ensures var reply := Authorize(t, b, id, address, rootBytes, deviceBytes, outcome).1;
      && (reply.Ok? <==>
            && !b.poisoned && t.idOk(id) && outcome == Done
            && exists root :: Presents(t, rootBytes, root) && (id in b.disk ==> t.prefixOf(b.disk[id].root, root))
                 && (Withdrawn(t, b, id, root)
                     || exists device :: DeviceAcceptable(t, b, id, address, root, deviceBytes, device)))
      && (reply.Ok? ==>
            var root := t.parse(rootBytes).value;
            if Withdrawn(t, b, id, root) then reply.value == b.disk[id].(root := root, enabled := false)
            else t.parse(deviceBytes).Ok? && StoredFor(t, id, address, root, t.parse(deviceBytes).value, reply.value))
  {
    if !b.poisoned && t.idOk(id) && |rootBytes| <= MAX_DELIVERY_KEL_BYTES && t.parse(rootBytes).Ok?
       && t.verified(t.parse(rootBytes).value) {
      AuthorizedRoot(t, b, id, address, rootBytes, t.parse(rootBytes).value, deviceBytes, outcome);
    }
  }

  lemma AdmittedExactly(t: Trust, b: Book, id: Bytes, address: Bytes, root: Kel, deviceBytes: Bytes,
                        known: Option<Peer>, outcome: WriteOutcome)
    requires TrustSound(t) && BookOk(t, b.disk) && !b.poisoned && t.idOk(id) && t.readable(root) && t.verified(root)
    requires if known.None? then id !in b.disk else id in b.disk && known.value == b.disk[id]
    ensures var reply := Admit(t, b, id, address, root, deviceBytes, known, outcome).1;
      && (reply.Ok? <==>
            outcome == Done && t.parse(deviceBytes).Ok?
            && DeviceAcceptable(t, b, id, address, root, deviceBytes, t.parse(deviceBytes).value))
      && (reply.Ok? ==> StoredFor(t, id, address, root, t.parse(deviceBytes).value, reply.value))
  {
  }

  lemma AuthorizedRoot(t: Trust, b: Book, id: Bytes, address: Bytes, rootBytes: Bytes, root: Kel, deviceBytes: Bytes,
                       outcome: WriteOutcome)
    requires TrustSound(t) && BookOk(t, b.disk) && !b.poisoned && t.idOk(id) && Presents(t, rootBytes, root)
    ensures var reply := Authorize(t, b, id, address, rootBytes, deviceBytes, outcome).1;
      && (reply.Ok? <==>
            && outcome == Done && (id in b.disk ==> t.prefixOf(b.disk[id].root, root))
            && (Withdrawn(t, b, id, root)
                || (t.parse(deviceBytes).Ok?
                    && DeviceAcceptable(t, b, id, address, root, deviceBytes, t.parse(deviceBytes).value))))
      && (reply.Ok? ==>
            if Withdrawn(t, b, id, root) then reply.value == b.disk[id].(root := root, enabled := false)
            else t.parse(deviceBytes).Ok? && StoredFor(t, id, address, root, t.parse(deviceBytes).value, reply.value))
  {
    var known := if id in b.disk then Some(b.disk[id]) else None;
    AdmittedExactly(t, b, id, address, root, deviceBytes, known, outcome);
  }

  /** Revoking succeeds exactly on a healthy book that has the label, and disables that record alone. */
  lemma RevokedExactly(t: Trust, b: Book, id: Bytes, outcome: WriteOutcome)
    requires BookOk(t, b.disk)
    ensures var (after, reply) := Revoke(t, b, id, outcome);
      && (reply.Ok? <==> !b.poisoned && t.idOk(id) && id in b.disk && outcome == Done)
      && (reply == Err(UnknownPeer) <==> !b.poisoned && t.idOk(id) && id !in b.disk)
      && (reply.Ok? ==> after.disk == b.disk[id := b.disk[id].(enabled := false)])
  {
  }
}
