/** The registries as objects: one in memory, and any number sharing one directory. */
module ClaimRegistryObjects {
  import opened Prelude
  import opened AirdropTypes
  import opened ClaimRegistries
  import opened Airdrop
  import opened AirdropAwards

  class InMemoryRegistry {
    var claimed: Claimed

    constructor ()
      ensures claimed == map[]
    {
      claimed := map[];
    }

    method TryReserve(k: Key, digest: Bytes32, at: U64) returns (r: Reply)
      modifies this
      ensures (claimed, r) == Reserve(old(claimed), k, digest, at)
    {
      if k in claimed {
        return if claimed[k].1 == digest then Ok(IdempotentRetry) else Err(AlreadyClaimed);
      }
      claimed := claimed[k := (at, digest)];
      return Ok(Fresh);
    }
  }

  /** The directory several registries, in several processes, have open. */
  class SharedDirectory {
    var files: Directory

    constructor ()
      ensures files == map[]
    {
      files := map[];
    }
  }

  class FileRegistry {
    const dir: SharedDirectory
    const env: Env

    constructor (d: SharedDirectory, e: Env)
      ensures dir == d && env == e
    {
      dir, env := d, e;
    }

    method ReadClaim(k: Key) returns (r: Result<Option<(Bytes32, U64)>, RegistryError>)
      ensures r == ReadRecord(env, dir.files, k)
    {
      var path := env.path(k);
      if path !in dir.files { return Ok(None); }
      var record := env.get(k, dir.files[path]);
      return if record.None? then Err(CorruptRecord) else Ok(record);
    }

    /** The whole body runs under the directory's exclusive lock. */
    method TryReserve(k: Key, digest: Bytes32, at: U64, outcome: WriteOutcome) returns (r: Reply)
      modifies dir
      ensures (dir.files, r) == FileReserve(env, old(dir.files), k, digest, at, outcome)
    {
      if |k.campaign| > MAX_CAMPAIGN_ID_BYTES { return Err(CampaignIdTooLong); }
      var existing :- ReadClaim(k);
      if existing.Some? {
        if existing.value.0 != digest { return Err(AlreadyClaimed); }
        if outcome != Done { return Err(WriteFailed); }
        return Ok(IdempotentRetry);
      }
      if outcome == FailedBefore { return Err(WriteFailed); }
      dir.files := dir.files[env.path(k) := env.put(k, digest, at)];
      return if outcome == FailedAfter then Err(WriteFailed) else Ok(Fresh);
    }
  }

  method FindEntry(s: Snapshot, identity: DidText) returns (r: Option<Entry>)
    ensures r == EntryFor(s.entries, identity)
  {
    for i := 0 to |s.entries|
      invariant EntryFor(s.entries[i..], identity) == EntryFor(s.entries, identity)
    {
      assert s.entries[i..][1..] == s.entries[i + 1..];
      if s.entries[i].identity == identity { return Some(s.entries[i]); }
    }
    return None;
  }

  /** Nothing is reserved unless every check passed, and nothing is returned unless it was reserved. */
  method VerifyAndResolveClaim(w: World, s: Snapshot, registry: FileRegistry, c: ClaimCall) returns (r: Answer<Outcome>)
    requires registry.env == w.files
    modifies registry.dir
    ensures (registry.dir.files, r) == VerifyAndResolve(w, s, old(registry.dir.files), c)
  {
    if |c.request.recipient| > MAX_RECIPIENT_BYTES { return Err(RecipientTooLong); }
    if c.request.campaign != s.campaign { return Err(CampaignMismatch); }
    var control := w.control(c);
    if control.Some? { return Err(control.value); }
    var entry := FindEntry(s, c.request.identity);
    if entry.None? { return Err(NotEligible); }
    var outcome := Outcome(entry.value.identity, entry.value.amount, c.request.recipient);
    var key := Key(c.request.campaign, c.request.identity);
    var reserved := registry.TryReserve(key, w.digest(outcome), c.at, c.outcome);
    return if reserved.Ok? then Ok(outcome) else Err(Registry(reserved.error));
  }
}
