/**
 The runtime and its node in the source's own form: fields updated in place,
 the diff of the serving set applied id by id, and the eviction sweep. Each
 method is proved against the state function of the same operation in
 `Serving`.
 */
module ServingRuntime {
  import opened Prelude
  import opened Objects
  import opened CacheIndex
  import opened Serving

  /** How an eviction sweep ended. */
  datatype Sweep = UnderCap | Stuck(id: Id)

  class Runtime {
    const me: Signer
    const storage: Storage<Content>
    const cache: Cache<Content>
    var shared: set<Id>
    var home: Option<Id>
    ghost var explicit: set<Id>
    ghost var admitted: set<Id>
    ghost var paired: set<Id>

    ghost function View(): Node
      reads this, storage, cache
    {
      Node(me, storage.files, cache.entries, shared, home, explicit, admitted, paired)
    }

    constructor (me: Signer, storage: Storage<Content>, cache: Cache<Content>, home: Option<Id>)
      ensures this.storage == storage && this.cache == cache
      ensures View() == Node(me, storage.files, cache.entries, {}, home, {}, {}, {})
    {
      this.me, this.storage, this.cache, this.home := me, storage, cache, home;
      shared, explicit, admitted, paired := {}, {}, {}, {};
    }

    /** Start-up: the stored index is reconciled from nothing, then public records are announced. */
    method Open(publicRecords: set<Id>)
      requires shared == {} && explicit == {} && admitted == {} && paired == {}
      modifies this
      ensures View() == Reopened(old(View()), publicRecords)
    {
      admitted := set id | id in cache.entries && Foreign(me, id);
      paired := set id | id in cache.entries && !Foreign(me, id);
      ghost var foreign, own := admitted, paired;
      var index := LoadHomeIndex();
      if index.Ok? {
        ReconcileShared(None, index.value);
      }
      ghost var listed := shared;
      var left := publicRecords;
      while left != {}
        invariant left <= publicRecords
        invariant explicit == publicRecords - left
        invariant shared == listed + (publicRecords - left)
        invariant home == old(home) && admitted == foreign && paired == own
        decreases left
      {
        var id :| id in left;
        Announce(id);
        left := left - {id};
      }
    }

    method Announce(id: Id)
      modifies this
      ensures View() == Announced(old(View()), id)
    {
      shared := shared + {id};
      explicit := explicit + {id};
    }

    /** Servable without being discoverable: the same change to the serving set. */
    method MarkShared(id: Id)
      modifies this
      ensures View() == Announced(old(View()), id)
    {
      shared := shared + {id};
      explicit := explicit + {id};
    }

    method LoadHomeIndex() returns (r: Outcome<Option<HomeIndexRecord>>)
      ensures r == Current(View())
    {
      if home.None? {
        return Ok(None);
      }
      var o := GetVerified(storage.files, home.value);
      if o.None? || !o.value.payload.data.Home? {
        return Err(HomeUnreadable);
      }
      return Ok(Some(o.value.payload.data.index));
    }

    /** Inserts what became shared, then removes what no longer is, id by id. */
    method ReconcileShared(previous: Option<HomeIndexRecord>, current: Option<HomeIndexRecord>)
      modifies this`shared
      ensures shared == Reconciled(old(shared), SharedIds(previous), SharedIds(current))
    {
      var before, after := SharedIds(previous), SharedIds(current);
      var added := after - before;
      while added != {}
        invariant added <= after - before
        invariant shared == old(shared) + (after - before - added)
        decreases added
      {
        var id :| id in added;
        shared := shared + {id};
        added := added - {id};
      }
      var removed := before - after;
      while removed != {}
        invariant removed <= before - after
        invariant shared == old(shared) + (after - before) - (before - after - removed)
        decreases removed
      {
        var id :| id in removed;
        shared := shared - {id};
        removed := removed - {id};
      }
    }

    method SaveHomeIndex(index: HomeIndexRecord, now: nat) returns (r: Outcome<Id>)
      modifies this, storage
      ensures (View(), r) == HomeSaved(old(View()), index, now)
    {
      var previous := LoadHomeIndex();
      if previous.Err? {
        return Err(previous.error);
      }
      var version := if previous.value.Some? then previous.value.value.version + 1 else 1;
      var index' := index.(version := version);
      var o := IndexObject(me, index', now);
      var _ := storage.PutVerified(o);
      home := Some(o.id);
      ReconcileShared(previous.value, Some(index'));
      explicit := explicit - (SharedIds(previous.value) - SharedIds(Some(index')));
      return Ok(o.id);
    }

    static method FindNamed(entries: seq<HomeEntry>, name: string) returns (i: nat)
      ensures i == NamedEntry(entries, name)
    {
      i := 0;
      while i < |entries| && entries[i].name != name
        invariant i <= |entries|
        invariant NamedEntry(entries, name) == i + NamedEntry(entries[i..], name)
      {
        assert entries[i..][1..] == entries[i + 1..];
        i := i + 1;
      }
    }

    method SetHomeEntryShared(name: string, flag: bool, now: nat) returns (r: Outcome<Id>)
      modifies this, storage
      ensures (View(), r) == EntryShared(old(View()), name, flag, now)
    {
      var loaded := LoadHomeIndex();
      if loaded.Err? {
        return Err(loaded.error);
      }
      if loaded.value.None? {
        return Err(NoHomeIndex);
      }
      var index := loaded.value.value;
      var i := FindNamed(index.entries, name);
      if i == |index.entries| {
        return Err(NoSuchEntry);
      }
      index := index.(entries := index.entries[i := index.entries[i].(shared := flag)]);
      r := SaveHomeIndex(index, now);
    }

    method ShareObjectFor(name: string, id: Id, app: Option<string>, copy: Option<Item>, now: nat)
      returns (r: Outcome<Id>)
      requires copy.Some? ==> Verifies(copy.value)
      modifies this, storage
      ensures (View(), r) == ObjectShared(old(View()), name, id, app, copy, now)
    {
      var held := GetVerified(storage.files, id);
      if held.None? {
        return Err(Missing);
      }
      var target := id;
      if copy.Some? {
        var _ := storage.PutVerified(copy.value);
        target := copy.value.id;
      }
      var loaded := LoadHomeIndex();
      if loaded.Err? {
        return Err(loaded.error);
      }
      var index := if loaded.value.Some? then loaded.value.value else EMPTY_HOME;
      var entry := HomeEntry(name, target, held.value.payload.kind, true, app);
      var i := FindNamed(index.entries, name);
      if i < |index.entries| {
        index := index.(entries := index.entries[i := entry]);
      } else {
        index := index.(entries := index.entries + [entry]);
      }
      r := SaveHomeIndex(index, now);
    }

    method PutVerified(o: Item, now: nat) returns (r: Outcome<()>)
      modifies this, storage, cache
      ensures (View(), r) == Pushed(old(View()), o, now)
    {
      var stored := storage.PutVerified(o);
      if !stored {
        return Err(Invalid);
      }
      if o.payload.owner != me.identity {
        cache.MarkCached(o.id, now);
        admitted := admitted + {o.id};
      }
      return Ok(());
    }

    method Import(o: Item, now: nat) returns (r: Outcome<()>)
      modifies this, storage, cache
      ensures (View(), r) == Imported(old(View()), o, now)
    {
      if o.id in storage.files {
        return Err(AlreadyStored);
      }
      r := PutVerified(o, now);
    }

    /** What accepting a pairing does to the store and the cache index, record by record. */
    method InstallPaired(items: seq<Item>, now: nat)
      requires forall i :: 0 <= i < |items| ==> Verifies(items[i])
      modifies this`admitted, this`paired, storage, cache
      ensures View() == Paired(old(View()), items, now)
    {
      for i := 0 to |items|
        invariant View() == Paired(old(View()), items[..i], now)
      {
        assert items[..i + 1][..i] == items[..i];
        var _ := storage.PutVerified(items[i]);
        cache.MarkCached(items[i].id, now);
        if Foreign(me, items[i].id) {
          admitted := admitted + {items[i].id};
        } else {
          paired := paired + {items[i].id};
        }
      }
      assert items[..|items|] == items;
    }

    method GetObject(id: Id, now: nat) returns (r: Option<Item>)
      modifies cache
      ensures (View(), r) == Provided(old(View()), id, now)
    {
      var held := GetVerified(storage.files, id);
      if held.None? {
        return None;
      }
      if id in cache.entries {
        cache.TouchServed(id, now);
        return held;
      }
      if id !in shared {
        return None;
      }
      return held;
    }

    method Evict(id: Id, outcome: DeleteOutcome) returns (r: Outcome<()>)
      modifies this`shared, this`explicit, this`admitted, this`paired, storage, cache
      ensures (View(), r) == Evicted(old(View()), id, outcome)
      ensures r.Ok? <==> outcome.Deleted?
      ensures storage.files == if outcome.Refused? then old(storage.files) else old(storage.files) - {id}
      ensures cache.entries == if r.Ok? then old(cache.entries) - {id} else old(cache.entries)
      ensures shared == if r.Ok? then old(shared) - {id} else old(shared)
    {
      var ok := storage.Delete(id, outcome);
      if !ok {
        return Err(DeleteFailed);
      }
      cache.Remove(id);
      shared := shared - {id};
      explicit, admitted, paired := explicit - {id}, admitted - {id}, paired - {id};
      return Ok(());
    }

    method Unlist(id: Id, now: nat) returns (r: Outcome<()>)
      modifies this, storage
      ensures (View(), r) == Unlisted(old(View()), id, now)
    {
      hide HomeSaved;
      var loaded := LoadHomeIndex();
      if loaded.Err? {
        return Err(loaded.error);
      }
      if loaded.value.None? {
        return Ok(());
      }
      var index := loaded.value.value;
      if index.profile == Some(id) || index.contacts == Some(id) {
        return Err(SystemRecord);
      }
      var i := 0;
      while i < |index.entries| && index.entries[i].target != id
        invariant i <= |index.entries|
        invariant TargetEntry(index.entries, id) == i + TargetEntry(index.entries[i..], id)
      {
        assert index.entries[i..][1..] == index.entries[i + 1..];
        i := i + 1;
      }
      if i == |index.entries| {
        return Ok(());
      }
      index := index.(entries := index.entries[..i] + index.entries[i + 1..]);
      var saved := SaveHomeIndex(index, now);
      return Done(saved);
    }

    method DeleteObject(id: Id, now: nat, outcome: DeleteOutcome, indexOutcome: DeleteOutcome)
      returns (r: Outcome<()>)
      modifies this, storage, cache
      ensures (View(), r) == ObjectDeleted(old(View()), id, now, outcome, indexOutcome)
    {
      hide Unlisted, HomeSaved;
      var held := GetVerified(storage.files, id);
      if held.None? {
        return Err(Missing);
      }
      if held.value.payload.owner != me.identity {
        return Err(NotOwned);
      }
      if !held.value.payload.kind.Blob? && !held.value.payload.kind.AppManifest? {
        return Err(SystemRecord);
      }
      var oldHome := home;
      r := Unlist(id, now);
      if r.Err? {
        return r;
      }
      r := Evict(id, outcome);
      if r.Err? {
        return r;
      }
      if oldHome.Some? && oldHome.value != id {
        var _ := Evict(oldHome.value, indexOutcome);
      }
      return Ok(());
    }

    // ---- the eviction sweep ------------------------------------------------------------

    /**
     Evicts cached objects, least recently served first, while they hold more
     than `cap` bytes. `outcomes` is how the file system treats each deletion;
     `evicted` lists what went, in order.
     */
    method EvictIfOverCap(cap: nat, outcomes: Id -> DeleteOutcome)
      returns (sweep: Sweep, ghost evicted: seq<Id>)
      modifies this`shared, this`explicit, this`admitted, this`paired, storage, cache
      ensures LruPrefix(old(storage.files), old(cache.entries), cap, evicted)
      // the evicted objects, and nothing else, are gone from all three places
      ensures cache.entries == old(cache.entries) - Members(evicted)
      ensures shared == old(shared) - Members(evicted)
      ensures storage.files == old(storage.files) - Members(evicted)
           - (if sweep.Stuck? && !outcomes(sweep.id).Refused? then {sweep.id} else {})
      // the total drops by exactly the evicted sizes, and ends within the cap unless a deletion fails
      ensures TotalSize(old(storage.files), old(cache.entries).Keys)
           == TotalSize(old(storage.files), cache.entries.Keys) + SumOf(old(storage.files), evicted)
      ensures sweep.UnderCap? ==> TotalSize(storage.files, cache.entries.Keys) <= cap
      ensures sweep.Stuck? ==> !outcomes(sweep.id).Deleted?
    {
      hide TotalSize, LruPrefix, LruListing, GetVerified, SizeOf, SumOf, Members, Evicted, View;
      ghost var files, entries := storage.files, cache.entries;
      evicted := [];
      EmptySweep(files, entries, cap);
      while true
        invariant cache.entries == entries - Members(evicted)
        invariant shared == old(shared) - Members(evicted)
        invariant storage.files == files - Members(evicted)
        invariant LruPrefix(files, entries, cap, evicted)
        invariant TotalSize(files, entries.Keys) == TotalSize(files, cache.entries.Keys) + SumOf(files, evicted)
        decreases |cache.entries|
      {
        SurvivorsKeepTheirSizes(files, entries, evicted);
        var total := cache.TotalCachedBytes(storage);
        if total <= cap {
          return UnderCap, evicted;
        }
        var listing := cache.LruCachedObjects(storage);
        if listing == [] {
          EmptyListingMeansNothing(cache.entries, storage.files, listing);
          assert false;
        }
        var id := listing[0].id;
        ghost var kept := cache.entries;
        NextEviction(files, entries, cap, evicted, storage.files, kept, listing);
        var done := Evict(id, outcomes(id));
        if done.Err? {
          return Stuck(id), evicted;
        }
        SubtractOneMore(entries, Members(evicted), id);
        SubtractOneMore(files, Members(evicted), id);
        evicted := evicted + [id];
      }
    }
  }

  // ---- what a sweep removed ------------------------------------------------------------

  ghost function Members(ids: seq<Id>): set<Id> {
    set id | id in ids
  }

  function SumOf(files: Files<Content>, ids: seq<Id>): nat {
    if ids == [] then 0 else SumOf(files, ids[..|ids| - 1]) + SizeOf(files, ids[|ids| - 1])
  }

  /**
   `evicted` is a prefix of the least-recently-served order: distinct readable
   cached objects, in that order, none served later than a readable one that
   stays; and each was still needed: the total before it exceeded the cap.
   */
  ghost predicate LruPrefix(files: Files<Content>, entries: Entries<Content>, cap: nat, evicted: seq<Id>) {
    && (forall i :: 0 <= i < |evicted| ==> evicted[i] in entries && GetVerified(files, evicted[i]).Some?)
    && (forall i, j :: 0 <= i < j < |evicted| ==>
          evicted[i] != evicted[j] && entries[evicted[i]] <= entries[evicted[j]])
    && (forall i, id :: 0 <= i < |evicted| && id in entries && id !in evicted && GetVerified(files, id).Some? ==>
          entries[evicted[i]] <= entries[id])
    && (forall i :: 0 <= i < |evicted| ==> TotalSize(files, entries.Keys - Members(evicted[..i])) > cap)
  }

  lemma {:induction false} EmptySweep(files: Files<Content>, entries: Entries<Content>, cap: nat)
    ensures LruPrefix(files, entries, cap, [])
    ensures Members([]) == {} && entries - {} == entries && files - {} == files
    ensures SumOf(files, []) == 0
  {
  }

  lemma {:induction false} SubtractOneMore<V>(m: map<Id, V>, gone: set<Id>, id: Id)
    ensures m - gone - {id} == m - (gone + {id})
    ensures (m - gone - {id}).Keys == (m - gone).Keys - {id}
  {
  }

  lemma {:induction false} SurvivorsKeepTheirSizes(files: Files<Content>, entries: Entries<Content>, evicted: seq<Id>)
    ensures TotalSize(files, (entries - Members(evicted)).Keys)
         == TotalSize(files - Members(evicted), (entries - Members(evicted)).Keys)
  {
    TotalDependsOnSizes(files, files - Members(evicted), (entries - Members(evicted)).Keys);
  }

  lemma {:induction false} EmptyListingMeansNothing(kept: Entries<Content>, left: Files<Content>, listing: seq<Item>)
    requires LruListing(kept, left, listing) && listing == []
    ensures TotalSize(left, kept.Keys) == 0
  {
    TotalOfUnreadable(left, kept.Keys);
  }

  /** Evicting the head of the listing extends the prefix by one. */
  lemma {:induction false} NextEviction(
    files: Files<Content>, entries: Entries<Content>, cap: nat, evicted: seq<Id>,
    left: Files<Content>, kept: Entries<Content>, listing: seq<Item>)
    requires LruPrefix(files, entries, cap, evicted)
    requires kept == entries - Members(evicted) && left == files - Members(evicted)
    requires LruListing(kept, left, listing) && listing != []
    requires TotalSize(files, kept.Keys) > cap
    ensures var id := listing[0].id;
      && id in kept
      && LruPrefix(files, entries, cap, evicted + [id])
      && Members(evicted + [id]) == Members(evicted) + {id}
      && SumOf(files, evicted + [id]) == SumOf(files, evicted) + SizeOf(files, id)
      && TotalSize(files, kept.Keys) == SizeOf(files, id) + TotalSize(files, kept.Keys - {id})
  {
    hide TotalSize, SumOf;
    SumOfAppend(files, evicted, listing[0].id);
    var id, all := listing[0].id, evicted + [listing[0].id];
    TotalWithout(files, kept.Keys, id);
    assert all[..|evicted|] == evicted;
    assert id in entries && id !in evicted && GetVerified(files, id).Some?;
    HeadIsLeast(kept, left, listing);
    forall i | 0 <= i < |all| ensures TotalSize(files, entries.Keys - Members(all[..i])) > cap {
      assert all[..i] == evicted[..i];
      assert i == |evicted| ==> evicted[..i] == evicted && entries.Keys - Members(evicted) == kept.Keys;
    }
    forall other | other in entries && other !in all && GetVerified(files, other).Some?
      ensures entries[id] <= entries[other]
    {
      assert other in kept && GetVerified(left, other).Some?;
    }
  }

  lemma {:induction false} SumOfAppend(files: Files<Content>, ids: seq<Id>, id: Id)
    ensures SumOf(files, ids + [id]) == SumOf(files, ids) + SizeOf(files, id)
  {
  }

  lemma {:induction false} HeadIsLeast(kept: Entries<Content>, left: Files<Content>, listing: seq<Item>)
    requires LruListing(kept, left, listing) && listing != []
    ensures forall id :: id in kept && GetVerified(left, id).Some? ==> kept[listing[0].id] <= kept[id]
  {
  }
}
