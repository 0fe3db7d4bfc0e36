/** Cache eviction: which expired objects go, and why nothing that stays loses what it links to. */
module Eviction {
  import opened Prelude

  type Id = Bytes

  const DAY_MS := 86_400_000
  const MAX_EXAMINED := 20_000
  const MAX_EVICTED := 2_000

  datatype Retention = Short | Standard | Long | Never

  datatype SpaceLevel = Plenty | Low | Critical

  datatype ObjectKind = Post | Comment | Reaction | MediaManifest | MediaChunk | Other

  datatype Link = Link(isChunk: bool, target: Id)

  datatype Object = Object(author: Bytes, kind: ObjectKind, encrypted: bool, links: seq<Link>)

  /**
   What one pass asks the store. A reading that fails is `None`; `seen` is when this device first
   saw the object, noted now if never before.
   */
  datatype View = View(
    get: Id -> Option<Object>, ephemeral: Id -> bool, seen: Id -> Option<nat>, linkers: Id -> Option<set<Id>>)

  function EffectiveMs(r: Retention, level: SpaceLevel): Option<nat> {
    if r == Never then None else
      var days := match r case Short => 7 case Standard => 30 case _ => 180;
      Some(match level case Plenty => days * DAY_MS case Low => Min(days, 7) * DAY_MS case Critical => DAY_MS)
  }

  /* ---- candidates ---- */

  predicate EvictableKind(k: ObjectKind) { k != Other }

  /** Somebody else's, of an evictable kind, and in the ephemeral tier. */
  predicate Foreign(v: View, owner: Bytes, id: Id) {
    && v.get(id).Some? && v.get(id).value.author != owner && EvictableKind(v.get(id).value.kind) && v.ephemeral(id)
  }

  /** Foreign, readable by anyone, and first seen at least `maxAge` ago. */
  predicate Expired(v: View, owner: Bytes, maxAge: nat, now: nat, id: Id) {
    && Foreign(v, owner, id) && !v.get(id).value.encrypted
    && v.seen(id).Some? && (if now >= v.seen(id).value then now - v.seen(id).value else 0) >= maxAge
  }

  /** Scan the listing in order until enough have been found. */
  method CollectExpired(v: View, owner: Bytes, maxAge: nat, now: nat, ids: seq<Id>) returns (s: set<Id>)
    ensures |s| <= MAX_EVICTED
    ensures forall id :: id in s ==> id in ids && Expired(v, owner, maxAge, now, id)
    ensures |s| < MAX_EVICTED ==>
      forall i :: 0 <= i < |ids| && i < MAX_EXAMINED && Expired(v, owner, maxAge, now, ids[i]) ==> ids[i] in s
  {
    s := {};
    var i := 0;
    while i < |ids| && i < MAX_EXAMINED
      invariant i <= |ids| && |s| <= MAX_EVICTED
      invariant forall id :: id in s ==> id in ids && Expired(v, owner, maxAge, now, id)
      invariant forall j :: 0 <= j < i && Expired(v, owner, maxAge, now, ids[j]) ==> ids[j] in s
    {
      if |s| >= MAX_EVICTED { return; }
      if Expired(v, owner, maxAge, now, ids[i]) { s := s + {ids[i]}; }
      i := i + 1;
    }
  }

  /** `c` is a foreign chunk of the manifest `m`. */
  predicate ChunkOf(v: View, owner: Bytes, m: Id, c: Id) {
    && v.get(m).Some? && v.get(m).value.kind == MediaManifest
    && (exists i :: 0 <= i < |v.get(m).value.links| && v.get(m).value.links[i] == Link(true, c))
    && Foreign(v, owner, c)
  }

  /** An expired object, or a chunk of an expired manifest. */
  ghost predicate Candidate(v: View, owner: Bytes, expired: set<Id>, id: Id) {
    id in expired || exists m :: m in expired && ChunkOf(v, owner, m, id)
  }

  method PullInChunks(v: View, owner: Bytes, expired: set<Id>) returns (s: set<Id>)
    ensures forall id :: id in s <==> Candidate(v, owner, expired, id)
  {
    s := expired;
    var manifests := expired;
    while manifests != {}
      invariant manifests <= expired <= s
      invariant forall id :: id in s ==> Candidate(v, owner, expired, id)
      invariant forall m, id :: m in expired && m !in manifests && ChunkOf(v, owner, m, id) ==> id in s
    {
      var m :| m in manifests;
      var chunks := ChunksOf(v, owner, m);
      s := s + chunks;
      manifests := manifests - {m};
    }
  }

  method ChunksOf(v: View, owner: Bytes, m: Id) returns (s: set<Id>)
    ensures forall id :: id in s <==> ChunkOf(v, owner, m, id)
  {
    s := {};
    var o := v.get(m);
    if o.None? || o.value.kind != MediaManifest { return; }
    var links := o.value.links;
    for i := 0 to |links|
      invariant forall id :: id in s ==> ChunkOf(v, owner, m, id)
      invariant forall j ::
        0 <= j < i && links[j].isChunk && Foreign(v, owner, links[j].target) ==> links[j].target in s
    {
      if links[i].isChunk && Foreign(v, owner, links[i].target) {
        assert links[i] == Link(true, links[i].target);
        s := s + {links[i].target};
      }
    }
  }

  /* ---- the closure ---- */

  /** Something outside `s` links here, or the store could not say. */
  predicate Blocked(v: View, s: set<Id>, id: Id) { v.linkers(id).None? || !(v.linkers(id).value <= s) }

  /** No member is linked to from outside. */
  ghost predicate Closed(v: View, s: set<Id>) { forall id :: id in s ==> !Blocked(v, s, id) }

  /** The greatest closed subset of the candidates. */
  ghost predicate Greatest(v: View, candidates: set<Id>, s: set<Id>) {
    s <= candidates && Closed(v, s) && forall t: set<Id> :: t <= candidates && Closed(v, t) ==> t <= s
  }

  lemma GreatestUnique(v: View, candidates: set<Id>, s: set<Id>, t: set<Id>)
    requires Greatest(v, candidates, s) && Greatest(v, candidates, t)
    ensures s == t
  {
  }

  /** A blocked member belongs to no closed subset, so dropping it loses none. */
  lemma DropBlocked(v: View, s: set<Id>, t: set<Id>, id: Id)
    requires t <= s && Closed(v, t) && Blocked(v, s, id)
    ensures t <= s - {id}
  {
  }

  /**
   Drop blocked members until none is left. Members are visited in any order, and each is judged
   against the set as it stands at that moment.
   */
  method CloseUnderLinks(v: View, candidates: set<Id>) returns (s: set<Id>)
    ensures Greatest(v, candidates, s)
  {
    s := candidates;
    var removed := true;
    while removed
      invariant s <= candidates && (!removed ==> Closed(v, s))
      invariant forall t: set<Id> :: t <= candidates && Closed(v, t) ==> t <= s
      decreases |s|, removed
    {
      s, removed := OnePass(v, candidates, s);
    }
  }

  method OnePass(v: View, candidates: set<Id>, start: set<Id>) returns (s: set<Id>, removed: bool)
    requires forall t: set<Id> :: t <= candidates && Closed(v, t) ==> t <= start
    ensures s <= start && (removed ==> |s| < |start|) && (!removed ==> s == start && Closed(v, s))
    ensures forall t: set<Id> :: t <= candidates && Closed(v, t) ==> t <= s
  {
    s, removed := start, false;
    var members := start;
    while members != {}
      invariant members <= s <= start && |s| <= |start|
      invariant (removed ==> |s| < |start|) && (!removed ==> s == start)
      invariant !removed ==> forall id :: id in start && id !in members ==> !Blocked(v, start, id)
      invariant forall t: set<Id> :: t <= candidates && Closed(v, t) ==> t <= s
    {
      var id :| id in members;
      members := members - {id};
      if Blocked(v, s, id) {
        forall t: set<Id> | t <= candidates && Closed(v, t) ensures t <= s - {id} { DropBlocked(v, s, t, id); }
        s := s - {id};
        removed := true;
      }
    }
  }

  /* ---- one whole pass ---- */

  /** The identifiers handed to the store for eviction. */
  method SelectEvictions(v: View, owner: Bytes, r: Retention, level: SpaceLevel, now: nat, ids: seq<Id>)
    returns (expired: set<Id>, s: set<Id>)
    ensures r == Never ==> s == {}
    ensures r != Never ==> |expired| <= MAX_EVICTED
    ensures r != Never ==>
      forall id :: id in expired ==> id in ids && Expired(v, owner, EffectiveMs(r, level).value, now, id)
    ensures r != Never && |expired| < MAX_EVICTED ==>
      forall i :: 0 <= i < |ids| && i < MAX_EXAMINED && Expired(v, owner, EffectiveMs(r, level).value, now, ids[i]) ==>
        ids[i] in expired
    ensures r != Never ==> exists candidates: set<Id> ::
      && (forall id :: id in candidates <==> Candidate(v, owner, expired, id)) && Greatest(v, candidates, s)
  {
    var maxAge := EffectiveMs(r, level);
    expired, s := {}, {};
    if maxAge.None? { return; }
    expired := CollectExpired(v, owner, maxAge.value, now, ids);
    var candidates := PullInChunks(v, owner, expired);
    s := CloseUnderLinks(v, candidates);
  }

  /** The store lists every object that links to an identifier. */
  ghost predicate LinkersComplete(v: View) {
    forall m: Id, i: nat :: v.get(m).Some? && i < |v.get(m).value.links| ==>
      var target := v.get(m).value.links[i].target;
      v.linkers(target).Some? ==> m in v.linkers(target).value
  }

  /**
   Only other people's cache goes; nothing that stays links to anything that goes; and whatever
   goes without having expired itself is a chunk that goes together with its expired manifest.
   */
  lemma EvictionIsSafe(v: View, owner: Bytes, maxAge: nat, now: nat, expired: set<Id>, candidates: set<Id>, s: set<Id>,
                       id: Id)
    requires forall x :: x in expired ==> Expired(v, owner, maxAge, now, x)
    requires forall x :: x in candidates <==> Candidate(v, owner, expired, x)
    requires Greatest(v, candidates, s) && LinkersComplete(v) && id in s
    ensures v.get(id).Some? && v.get(id).value.author != owner && v.get(id).value.kind != Other && v.ephemeral(id)
    ensures v.linkers(id).Some? && v.linkers(id).value <= s
    ensures id in expired ==> !v.get(id).value.encrypted && v.seen(id).Some? && OldEnough(v.seen(id).value, maxAge, now)
    ensures id !in expired ==>
      exists m :: m in expired && m in s && ChunkOf(v, owner, m, id)
  {
  }

  /** A clock that runs backwards makes an object as old as nothing. */
  predicate OldEnough(seen: nat, maxAge: nat, now: nat) { maxAge == 0 || seen + maxAge <= now }

  /** Conversely, whatever meets these conditions has expired. */
  lemma ExpiredExactly(v: View, owner: Bytes, maxAge: nat, now: nat, id: Id)
    ensures Expired(v, owner, maxAge, now, id) <==>
      && v.get(id).Some? && v.get(id).value.author != owner && v.get(id).value.kind != Other && v.ephemeral(id)
      && !v.get(id).value.encrypted && v.seen(id).Some? && OldEnough(v.seen(id).value, maxAge, now)
  {
  }

  /** Pressure only shortens retention, and never below a day; "never" is always honoured. */
  lemma PressureShortens(r: Retention)
    ensures r == Never <==> EffectiveMs(r, Plenty).None?
    ensures r != Never ==>
      && DAY_MS == EffectiveMs(r, Critical).value <= EffectiveMs(r, Low).value <= EffectiveMs(r, Plenty).value
      && EffectiveMs(r, Low).value == 7 * DAY_MS
      && EffectiveMs(r, Plenty).value == DAY_MS * (match r case Short => 7 case Standard => 30 case _ => 180)
  {
  }
}
