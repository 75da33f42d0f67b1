/**
 Mutable records over immutable objects: signed pointers kept in a local cache
 file, pushed into peers' stores as objects, and put on the DHT. One slot
 (owner, name) at a time; what the DHT answers is an input.
 */
module Records {
  import opened Prelude
  import opened Objects

  /** A pointer to an object id `M`; `signer` is whose key really made the signature. */
  datatype PointerTo<+M> = Pointer(owner: Identity, name: string, manifest: M, publishedAt: nat, signer: Identity)

  type Pointer = PointerTo<string>

  predicate Genuine<M>(p: PointerTo<M>) {
    p.signer == p.owner
  }

  /** The bytes of an object decode to a pointer, or to nothing of the kind. */
  type Stored = Option<Pointer>

  predicate IsFor<M>(p: PointerTo<M>, owner: Identity, name: string) {
    p.owner == owner && p.name == name && Genuine(p)
  }

  /** What a cache file or a DHT answer is worth: only a genuine pointer for the very slot. */
  function Usable<M>(owner: Identity, name: string, found: Option<PointerTo<M>>): Option<PointerTo<M>> {
    if found.Some? && IsFor(found.value, owner, name) then found else None
  }

  // ---- scanning the store -------------------------------------------------------------

  /** The file holds an object under its own id, and that verifies. */
  predicate Readable<M(==)>(files: Files<Option<PointerTo<M>>>, id: ObjectId<Option<PointerTo<M>>>) {
    && id in files && files[id].Holds? && files[id].content.id == id
    && files[id].content.id == Digest(files[id].content.payload)
    && files[id].content.signature == Signed(files[id].content.publicKey, files[id].content.payload)
  }

  /** It is an object of that owner wrapping a pointer record. */
  predicate Wraps<M(==)>(files: Files<Option<PointerTo<M>>>, owner: Identity, id: ObjectId<Option<PointerTo<M>>>) {
    Readable(files, id) && files[id].content.payload.owner == owner && files[id].content.payload.kind == AppPointer
  }

  /** A file the scan cannot pass: unreadable, or wrapping what does not decode. */
  predicate Bars<M(==)>(files: Files<Option<PointerTo<M>>>, owner: Identity, id: ObjectId<Option<PointerTo<M>>>) {
    id in files && (!Readable(files, id) || (Wraps(files, owner, id) && files[id].content.payload.data == None))
  }

  /** The file delivers `p` for the slot: a genuine pointer of that name. The pointer's own `owner` field is not consulted. */
  predicate Carries<M(==)>(
    files: Files<Option<PointerTo<M>>>, owner: Identity, name: string, id: ObjectId<Option<PointerTo<M>>>, p: PointerTo<M>)
  {
    Wraps(files, owner, id) && files[id].content.payload.data == Some(p) && p.name == name && p.signer == p.owner
  }

  /** What a scan of the store finds: nothing past a file that bars it, and else a pointer no delivered one is later than. */
  ghost predicate ScanFinds<M(!new)>(
    files: Files<Option<PointerTo<M>>>, owner: Identity, name: string, newest: Option<PointerTo<M>>)
  {
    if exists id :: Bars(files, owner, id) then newest == None
    else
      && (newest.None? <==> forall id, p :: !Carries(files, owner, name, id, p))
      && (newest.Some? ==> exists id :: Carries(files, owner, name, id, newest.value))
      && (newest.Some? ==> forall id, p :: Carries(files, owner, name, id, p) ==> p.publishedAt <= newest.value.publishedAt)
  }

  /**
   In full: an unreadable file, or an own pointer object that does not decode, makes the scan
   find nothing. Otherwise what it finds is in some object stored under its own id, the digest
   of its payload, signed by the key it carries, of that owner and of pointer kind, and is a
   pointer of that name, signed by its own owner; it finds one if there is one, and no such
   pointer is later.
   */
  lemma {:induction false} ScanMeans<M(!new)>(
    files: Files<Option<PointerTo<M>>>, owner: Identity, name: string, newest: Option<PointerTo<M>>,
    id: ObjectId<Option<PointerTo<M>>>, o: Object<Option<PointerTo<M>>>)
    requires ScanFinds(files, owner, name, newest)
    ensures id in files && files[id] == Corrupt ==> newest == None
    ensures (id in files && files[id] == Holds(o)
             && (o.id != id || o.id != Digest(o.payload) || o.signature != Signed(o.publicKey, o.payload)))
      ==> newest == None
    ensures (id in files && files[id] == Holds(o)
             && o.payload.owner == owner && o.payload.kind == AppPointer && o.payload.data == None)
      ==> newest == None
    ensures newest.Some? ==> exists id', o' ::
      && id' in files && files[id'] == Holds(o')
      && o' == Object(id', o'.payload, o'.publicKey, Signed(o'.publicKey, o'.payload)) && id' == Digest(o'.payload)
      && o'.payload.owner == owner && o'.payload.kind == AppPointer && o'.payload.data == newest
      && newest.value.name == name && newest.value.signer == newest.value.owner
    ensures (&& id in files && files[id] == Holds(o)
             && o == Object(id, o.payload, o.publicKey, Signed(o.publicKey, o.payload)) && id == Digest(o.payload)
             && o.payload.owner == owner && o.payload.kind == AppPointer && o.payload.data.Some?
             && o.payload.data.value.name == name && o.payload.data.value.signer == o.payload.data.value.owner)
      ==> || (exists other :: Bars(files, owner, other))
          || (newest.Some? && newest.value.publishedAt >= o.payload.data.value.publishedAt)
    ensures ((forall id' :: id' in files ==> files[id'].Holds?)
             && forall id', o' :: id' in files && files[id'] == Holds(o') ==>
                  && o' == Object(id', o'.payload, o'.publicKey, Signed(o'.publicKey, o'.payload)) && id' == Digest(o'.payload)
                  && (o'.payload.owner == owner && o'.payload.kind == AppPointer ==> o'.payload.data.Some?))
      ==> forall other :: !Bars(files, owner, other)
  {
    if id in files && files[id].Holds? {
      assert Bars(files, owner, id) || Readable(files, id);
    }
    if newest.Some? {
      var found :| Carries(files, owner, name, found, newest.value);
      assert files[found] == Holds(files[found].content);
    }
    if id in files && files[id] == Holds(o) && Wraps(files, owner, id) && o.payload.data.Some? {
      assert Carries(files, owner, name, id, o.payload.data.value)
        <==> o.payload.data.value.name == name && o.payload.data.value.signer == o.payload.data.value.owner;
    }
  }

  function SignedPointer(me: Signer, name: string, manifest: string, now: nat): Pointer {
    PointerTo.Pointer(me.identity, name, manifest, now, me.identity)
  }

  function PointerObject(me: Signer, p: Pointer, now: nat): Object<Stored> {
    NewObject(me, Some(p), 0, AppPointer, now)
  }

  class Slot {
    const owner: Identity
    const name: string
    const storage: Storage<Stored>
    var cached: Option<Pointer>

    constructor (owner: Identity, name: string, storage: Storage<Stored>, cached: Option<Pointer>)
      ensures this.owner == owner && this.name == name && this.storage == storage && this.cached == cached
    {
      this.owner, this.name, this.storage, this.cached := owner, name, storage, cached;
    }

    /**
     The newest delivered pointer, provided no file in the store blocks the
     scan; `listing` is the directory in whatever order it is read.
     */
    method LatestPointerRecord(listing: seq<ObjectId<Stored>>) returns (newest: Option<Pointer>)
      requires forall id :: id in listing <==> id in storage.files
      ensures ScanFinds(storage.files, owner, name, newest)
    {
      newest := None;
      for i := 0 to |listing|
        invariant forall j :: 0 <= j < i ==> !Bars(storage.files, owner, listing[j])
        invariant newest.None? ==> forall j, p :: 0 <= j < i ==> !Carries(storage.files, owner, name, listing[j], p)
        invariant newest.Some? ==> exists j :: 0 <= j < i && Carries(storage.files, owner, name, listing[j], newest.value)
        invariant newest.Some? ==> forall j, p :: 0 <= j < i && Carries(storage.files, owner, name, listing[j], p) ==>
          p.publishedAt <= newest.value.publishedAt
      {
        var id := listing[i];
        var held := GetVerified(storage.files, id);
        if held.None? {
          assert Bars(storage.files, owner, id);
          return None;
        }
        if held.value.payload.owner != owner || !held.value.payload.kind.AppPointer? {
          continue;
        }
        if held.value.payload.data.None? {
          assert Bars(storage.files, owner, id);
          return None;
        }
        var p := held.value.payload.data.value;
        if p.name != name || !Genuine(p) {
          continue;
        }
        assert Carries(storage.files, owner, name, id, p);
        if newest.None? || newest.value.publishedAt < p.publishedAt {
          newest := Some(p);
        }
      }
    }

    /**
     The new pointer is authoritative on this machine once the cache file is written;
     wrapped in an object it also goes into the store, from where it is pushed to peers.
     */
    method PublishPointer(me: Signer, manifest: string, now: nat)
      requires me.identity == owner
      modifies this, storage
      ensures cached == Some(SignedPointer(me, name, manifest, now))
      ensures var o := PointerObject(me, SignedPointer(me, name, manifest, now), now);
        storage.files == old(storage.files)[o.id := Holds(o)]
    {
      var pointer := SignedPointer(me, name, manifest, now);
      cached := Some(pointer);
      var _ := storage.PutVerified(PointerObject(me, pointer, now));
    }

    /** Cache first, then what was pushed into the store, then the DHT; a find is cached. */
    method ResolvePointer(pushed: Option<Pointer>, dht: Option<Pointer>) returns (r: Option<Pointer>)
      modifies this
      ensures (cached, r) == Resolved(owner, name, old(cached), pushed, dht)
    {
      if cached.Some? && IsFor(cached.value, owner, name) {
        return cached;
      }
      if pushed.Some? {
        cached := pushed;
        return pushed;
      }
      var found := Usable(owner, name, dht);
      if found.Some? {
        cached := found;
      }
      return found;
    }

    /**
     One refresh: from a pushed pointer if it is newer, else from the DHT if
     that is newer; the target must be fetched before the cache is written.
     `None` is a failed fetch.
     */
    method SyncRecord(world: World<string>) returns (refreshed: Option<bool>)
      modifies this
      ensures (cached, refreshed) == Synced(owner, name, world, old(cached))
    {
      var local := Usable(owner, name, cached);
      if world.pushed.Some? {
        var isNewer := local.None? || world.pushed.value.publishedAt > local.value.publishedAt;
        if isNewer {
          if !world.pushedFetched {
            return None;
          }
          cached := world.pushed;
          return Some(true);
        }
      }
      var found := Usable(owner, name, world.dht);
      if found.None? {
        return Some(false);
      }
      if local.Some? && found.value.publishedAt <= local.value.publishedAt {
        return Some(false);
      }
      if !world.dhtFetched {
        return None;
      }
      cached := found;
      return Some(true);
    }
  }

  // ---- last writer wins -----------------------------------------------------------------

  /** What one refresh meets: the store scan's result, the DHT's answer, and whether fetches succeed. */
  datatype World<+M> = World(
    pushed: Option<PointerTo<M>>, dht: Option<PointerTo<M>>, pushedFetched: bool, dhtFetched: bool)

  predicate Newer<M>(p: Option<PointerTo<M>>, local: Option<PointerTo<M>>) {
    p.Some? && (local.None? || p.value.publishedAt > local.value.publishedAt)
  }

  function Resolved<M>(
    owner: Identity, name: string, cached: Option<PointerTo<M>>, pushed: Option<PointerTo<M>>, dht: Option<PointerTo<M>>)
    : (Option<PointerTo<M>>, Option<PointerTo<M>>)
  {
    if Usable(owner, name, cached).Some? then (cached, cached)
    else if pushed.Some? then (pushed, pushed)
    else if Usable(owner, name, dht).Some? then (dht, dht)
    else (cached, None)
  }

  function Synced<M>(owner: Identity, name: string, w: World<M>, cached: Option<PointerTo<M>>)
    : (Option<PointerTo<M>>, Option<bool>)
  {
    var local := Usable(owner, name, cached);
    var found := Usable(owner, name, w.dht);
    if Newer(w.pushed, local) then
      if w.pushedFetched then (w.pushed, Some(true)) else (cached, None)
    else if Newer(found, local) then
      if w.dhtFetched then (found, Some(true)) else (cached, None)
    else (cached, Some(false))
  }

  /** The pushed pointer would be cached although it is not for this slot. */
  predicate Misfiled(owner: Identity, name: string, w: World<string>, cached: Option<Pointer>) {
    Newer(w.pushed, Usable(owner, name, cached)) && !IsFor(w.pushed.value, owner, name)
  }

  function Stamp(p: Option<Pointer>): int {
    if p.Some? then p.value.publishedAt else -1
  }

  function Max(a: int, b: int): int {
    if a < b then b else a
  }

  /** After `k` refreshes against a world that stays as it is. */
  function After(owner: Identity, name: string, w: World<string>, cached: Option<Pointer>, k: nat): Option<Pointer> {
    if k == 0 then cached else Synced(owner, name, w, After(owner, name, w, cached, k - 1)).0
  }

  function Answer(owner: Identity, name: string, w: World<string>, cached: Option<Pointer>, k: nat): Option<bool> {
    Synced(owner, name, w, After(owner, name, w, cached, k)).1
  }

  /**
   A refresh replaces the usable pointer only by a strictly newer one, and says so
   exactly then, if and only if it does not take a misfiled pointer into the cache.
   */
  lemma {:induction false} SyncMovesForwardIff(owner: Identity, name: string, w: World<string>, cached: Option<Pointer>)
    ensures var (cached', r) := Synced(owner, name, w, cached);
      var before, now := Usable(owner, name, cached), Usable(owner, name, cached');
      && (r == Some(true) <==> now != before)
      && (now != before ==> Stamp(now) > Stamp(before))
      <==> !(w.pushedFetched && Misfiled(owner, name, w, cached))
  {
  }

  /** A misfiled pointer is fetched and cached over a usable one. */
  predicate Lapses(owner: Identity, name: string, w: World<string>, cached: Option<Pointer>) {
    w.pushedFetched && Usable(owner, name, cached).Some? && Misfiled(owner, name, w, cached)
  }

  lemma {:induction false} SyncLowersIff(owner: Identity, name: string, w: World<string>, cached: Option<Pointer>)
    ensures Stamp(Usable(owner, name, Synced(owner, name, w, cached).0)) < Stamp(Usable(owner, name, cached))
       <==> Lapses(owner, name, w, cached)
  {
  }

  function SyncRun(owner: Identity, name: string, worlds: seq<World<string>>, cached: Option<Pointer>): Option<Pointer>
    decreases |worlds|
  {
    if worlds == [] then cached else SyncRun(owner, name, worlds[1..], Synced(owner, name, worlds[0], cached).0)
  }

  predicate NeverLowers(owner: Identity, name: string, worlds: seq<World<string>>, cached: Option<Pointer>)
    decreases |worlds|
  {
    worlds == [] ||
    var after := Synced(owner, name, worlds[0], cached).0;
    && Stamp(Usable(owner, name, after)) >= Stamp(Usable(owner, name, cached))
    && NeverLowers(owner, name, worlds[1..], after)
  }

  predicate NeverLapses(owner: Identity, name: string, worlds: seq<World<string>>, cached: Option<Pointer>)
    decreases |worlds|
  {
    worlds == [] ||
    (!Lapses(owner, name, worlds[0], cached)
     && NeverLapses(owner, name, worlds[1..], Synced(owner, name, worlds[0], cached).0))
  }

  /**
   Over any run of refreshes against changing worlds, no refresh lowers the cached stamp
   if and only if none takes a misfiled pointer over a usable one.
   */
  lemma {:induction false} RunNeverLowersIff(
    owner: Identity, name: string, worlds: seq<World<string>>, cached: Option<Pointer>)
    ensures NeverLowers(owner, name, worlds, cached) <==> NeverLapses(owner, name, worlds, cached)
    ensures NeverLapses(owner, name, worlds, cached) ==>
      Stamp(Usable(owner, name, SyncRun(owner, name, worlds, cached))) >= Stamp(Usable(owner, name, cached))
    decreases |worlds|
  {
    hide Synced, Lapses, Usable;
    if worlds != [] {
      SyncLowersIff(owner, name, worlds[0], cached);
      RunNeverLowersIff(owner, name, worlds[1..], Synced(owner, name, worlds[0], cached).0);
    }
  }

  /**
   What makes it lapse can be in a store: an object that claims the owner but carries a
   genuine pointer of somebody else's verifies, and the scan delivers that pointer for
   the owner's slot; being newer it replaces a usable one.
   */
  lemma {:induction false} ForeignPointerLapses(
    me: Signer, other: Signer, name: string, manifest: string, now: nat, cached: Option<Pointer>)
    requires other.identity != me.identity
    requires Usable(me.identity, name, cached).Some? && cached.value.publishedAt < now
    ensures var p := SignedPointer(other, name, manifest, now);
      var o := NewObject(Signer(me.identity, other.publicKey), Some(p), 0, AppPointer, now);
      && Verifies(o) && o.publicKey == other.publicKey
      && !Bars(map[o.id := Holds(o)], me.identity, o.id)
      && Carries(map[o.id := Holds(o)], me.identity, name, o.id, p)
      && Lapses(me.identity, name, World(Some(p), None, true, true), cached)
  {
    var p := SignedPointer(other, name, manifest, now);
    var o := NewObject(Signer(me.identity, other.publicKey), Some(p), 0, AppPointer, now);
    assert GetVerified(map[o.id := Holds(o)], o.id) == Some(o);
  }

  /**
   A pointer just published stands: the store it was put into delivers it, resolution
   returns it whatever else is pushed or on the DHT, and a refresh replaces it only by
   one published later.
   */
  lemma {:induction false} PublishedPointerStands(
    me: Signer, name: string, manifest: string, now: nat, files: Files<Stored>,
    pushed: Option<Pointer>, dht: Option<Pointer>, w: World<string>)
    ensures var p := SignedPointer(me, name, manifest, now);
      var o := PointerObject(me, p, now);
      && Carries(files[o.id := Holds(o)], me.identity, name, o.id, p)
      && Resolved(me.identity, name, Some(p), pushed, dht) == (Some(p), Some(p))
      && var after := Synced(me.identity, name, w, Some(p)).0;
         after == Some(p) || (after.Some? && after.value.publishedAt > now)
  {
    var o := PointerObject(me, SignedPointer(me, name, manifest, now), now);
    assert GetVerified(files[o.id := Holds(o)], o.id) == Some(o);
  }

  /**
   Store and DHT fixed, fetches succeeding: refreshing settles, in at most two
   rounds, on the maximum of cache, store and DHT, if and only if the pushed
   pointer is for this slot or is not newer than the usable cached one.
   Otherwise every call refreshes and the cached pointer is never usable.
   */
  lemma {:induction false} SyncSettlesIff(owner: Identity, name: string, w: World<string>, cached: Option<Pointer>, k: nat)
    requires w.pushedFetched && w.dhtFetched && k >= 2
    ensures Answer(owner, name, w, cached, k) == Some(false) <==> !Misfiled(owner, name, w, cached)
    ensures !Misfiled(owner, name, w, cached) ==>
      Stamp(Usable(owner, name, After(owner, name, w, cached, k)))
      == Max(Stamp(Usable(owner, name, cached)),
             Max(if w.pushed.Some? && IsFor(w.pushed.value, owner, name) then Stamp(w.pushed) else -1,
                 Stamp(Usable(owner, name, w.dht))))
    ensures Misfiled(owner, name, w, cached) ==>
      Answer(owner, name, w, cached, k) == Some(true) && Usable(owner, name, After(owner, name, w, cached, k)).None?
  {
    var one := After(owner, name, w, cached, 1);
    var two := After(owner, name, w, cached, 2);
    assert one == Synced(owner, name, w, After(owner, name, w, cached, 0)).0;
    assert two == Synced(owner, name, w, one).0;
    if Misfiled(owner, name, w, cached) {
      StaysAt(owner, name, w, cached, 1, k);
    } else {
      assert Synced(owner, name, w, two).0 == two;
      StaysAt(owner, name, w, cached, 2, k);
    }
  }

  lemma {:induction false} StaysAt(owner: Identity, name: string, w: World<string>, cached: Option<Pointer>, from: nat, k: nat)
    requires from <= k
    requires Synced(owner, name, w, After(owner, name, w, cached, from)).0 == After(owner, name, w, cached, from)
    ensures After(owner, name, w, cached, k) == After(owner, name, w, cached, from)
    decreases k
  {
    if from < k {
      StaysAt(owner, name, w, cached, from, k - 1);
    }
  }

  /** Once something usable is cached, resolution returns it whatever store and DHT come to hold. */
  lemma {:induction false} ResolutionIsSticky(
    owner: Identity, name: string, cached: Option<Pointer>, pushed: Option<Pointer>, dht: Option<Pointer>,
    pushed': Option<Pointer>, dht': Option<Pointer>)
    ensures var (cached', r) := Resolved(owner, name, cached, pushed, dht);
      r.Some? && IsFor(r.value, owner, name) ==> Resolved(owner, name, cached', pushed', dht') == (r, r)
  {
  }

  // ---- in the pointers' own fields ---------------------------------------------------------------

  /** A genuine pointer for the very slot: its owner, its name, signed by its owner. */
  predicate GoodFor<M>(owner: Identity, name: string, p: Option<PointerTo<M>>) {
    p.Some? && p.value.owner == owner && p.value.name == name && p.value.signer == owner
  }

  /** What publishing signs and what it puts into the store. */
  lemma {:induction false} PublishedMeans(me: Signer, name: string, manifest: string, now: nat)
    ensures var p := SignedPointer(me, name, manifest, now);
      var o := PointerObject(me, p, now);
      && p.owner == me.identity && p.name == name && p.manifest == manifest && p.publishedAt == now && p.signer == me.identity
      && o.payload == Payload(me.identity, now, 0, AppPointer, Some(p))
      && o == Object(Digest(o.payload), o.payload, me.publicKey, Signed(me.publicKey, o.payload))
  {
  }

  /** Resolving: a good cached pointer, else whatever was pushed, else a good answer of the DHT; a find replaces the cache. */
  lemma {:induction false} ResolvingMeans<M>(
    owner: Identity, name: string, cached: Option<PointerTo<M>>, pushed: Option<PointerTo<M>>, dht: Option<PointerTo<M>>)
    ensures var (after, r) := Resolved(owner, name, cached, pushed, dht);
      && (GoodFor(owner, name, cached) ==> after == cached && r == cached)
      && (!GoodFor(owner, name, cached) && pushed.Some? ==> after == pushed && r == pushed)
      && (!GoodFor(owner, name, cached) && pushed.None? && GoodFor(owner, name, dht) ==> after == dht && r == dht)
      && (!GoodFor(owner, name, cached) && pushed.None? && !GoodFor(owner, name, dht) ==> after == cached && r == None)
  {
  }

  /**
   Refreshing: a pushed pointer later than the good cached one, if there is one, is the only one
   looked at; failing it a good and later one of the DHT. It replaces the cache if its target
   can be fetched, and else the refresh fails.
   */
  lemma {:induction false} RefreshMeans<M>(owner: Identity, name: string, w: World<M>, cached: Option<PointerTo<M>>)
    ensures var (after, r) := Synced(owner, name, w, cached);
      var floor: int := if GoodFor(owner, name, cached) then cached.value.publishedAt else -1;
      var push := w.pushed.Some? && w.pushed.value.publishedAt > floor;
      var pull := !push && GoodFor(owner, name, w.dht) && w.dht.value.publishedAt > floor;
      && (r == Some(true) <==> (push && w.pushedFetched) || (pull && w.dhtFetched))
      && (r == None <==> (push && !w.pushedFetched) || (pull && !w.dhtFetched))
      && (r == Some(false) <==> !push && !pull)
      && after == if r == Some(true) then (if push then w.pushed else w.dht) else cached
  {
  }
}
