/**
 The sidecar that records which stored objects are cached rather than owned,
 and when each was last served.
 */
module CacheIndex {
  import opened Prelude
  import opened Objects

  type Entries<D(==)> = map<ObjectId<D>, nat>

  // ---- what the index holds --------------------------------------------------------

  /** The declared size of a tracked object, or nothing if it is no longer readable. */
  function SizeOf<D(==)>(files: Files<D>, id: ObjectId<D>): nat {
    match GetVerified(files, id)
    case Some(o) => o.payload.size
    case None => 0
  }

  ghost function TotalSize<D>(files: Files<D>, ids: set<ObjectId<D>>): nat {
    if ids == {} then 0
    else
      var id :| id in ids;
      SizeOf(files, id) + TotalSize(files, ids - {id})
  }

  lemma {:induction false} TotalWithout<D>(files: Files<D>, ids: set<ObjectId<D>>, id: ObjectId<D>)
    requires id in ids
    ensures TotalSize(files, ids) == SizeOf(files, id) + TotalSize(files, ids - {id})
  {
    var first :| first in ids && TotalSize(files, ids) == SizeOf(files, first) + TotalSize(files, ids - {first});
    if first != id {
      TotalWithout(files, ids - {first}, id);
      TotalWithout(files, ids - {id}, first);
      assert ids - {first} - {id} == ids - {id} - {first};
    }
  }

  lemma {:induction false} TotalDependsOnSizes<D>(files: Files<D>, files': Files<D>, ids: set<ObjectId<D>>)
    requires forall id :: id in ids ==> SizeOf(files, id) == SizeOf(files', id)
    ensures TotalSize(files, ids) == TotalSize(files', ids)
  {
    if ids != {} {
      var id :| id in ids;
      TotalWithout(files, ids, id);
      TotalWithout(files', ids, id);
      TotalDependsOnSizes(files, files', ids - {id});
    }
  }

  lemma {:induction false} TotalOfUnreadable<D>(files: Files<D>, ids: set<ObjectId<D>>)
    requires forall id :: id in ids ==> GetVerified(files, id).None?
    ensures TotalSize(files, ids) == 0
  {
    if ids != {} {
      var id :| id in ids;
      TotalWithout(files, ids, id);
      TotalOfUnreadable(files, ids - {id});
    }
  }

  /** A listing of the readable cached objects, least recently served first; ties in any order. */
  ghost predicate LruListing<D>(entries: Entries<D>, files: Files<D>, listing: seq<Object<D>>) {
    && (forall i :: 0 <= i < |listing| ==>
          listing[i].id in entries && GetVerified(files, listing[i].id) == Some(listing[i]))
    && (forall id :: id in entries && GetVerified(files, id).Some? ==>
          exists i :: 0 <= i < |listing| && listing[i].id == id)
    && (forall i, j :: 0 <= i < j < |listing| ==>
          listing[i].id != listing[j].id && entries[listing[i].id] <= entries[listing[j].id])
  }

  class Cache<D(==)> {
    var entries: Entries<D>

    constructor (loaded: Entries<D>)
      ensures entries == loaded
    {
      entries := loaded;
    }

    method MarkCached(id: ObjectId<D>, now: nat)
      modifies this
      ensures entries == old(entries)[id := now]
    {
      entries := entries[id := now];
    }

    /** Refreshes the last-served time of a tracked object; an untracked one stays untracked. */
    method TouchServed(id: ObjectId<D>, now: nat)
      modifies this
      ensures entries == if id in old(entries) then old(entries)[id := now] else old(entries)
    {
      if id in entries {
        entries := entries[id := now];
      }
    }

    method Remove(id: ObjectId<D>)
      modifies this
      ensures entries == old(entries) - {id}
    {
      entries := entries - {id};
    }

    method TotalCachedBytes(storage: Storage<D>) returns (total: nat)
      ensures total == TotalSize(storage.files, entries.Keys)
    {
      total := 0;
      var left := entries.Keys;
      while left != {}
        invariant left <= entries.Keys
        invariant total + TotalSize(storage.files, left) == TotalSize(storage.files, entries.Keys)
        decreases left
      {
        var id :| id in left;
        TotalWithout(storage.files, left, id);
        var held := GetVerified(storage.files, id);
        if held.Some? {
          total := total + held.value.payload.size;
        }
        left := left - {id};
      }
    }

    /** Entries in order of last service, each resolved against the store; missing ones are skipped. */
    method LruCachedObjects(storage: Storage<D>) returns (listing: seq<Object<D>>)
      ensures LruListing(entries, storage.files, listing)
    {
      listing := [];
      var left := entries.Keys;
      while left != {}
        invariant left <= entries.Keys
        invariant forall i :: 0 <= i < |listing| ==>
          && listing[i].id in entries.Keys - left
          && GetVerified(storage.files, listing[i].id) == Some(listing[i])
          && forall id :: id in left ==> entries[listing[i].id] <= entries[id]
        invariant forall id :: id in entries.Keys - left && GetVerified(storage.files, id).Some? ==>
          exists i :: 0 <= i < |listing| && listing[i].id == id
        invariant forall i, j :: 0 <= i < j < |listing| ==>
          listing[i].id != listing[j].id && entries[listing[i].id] <= entries[listing[j].id]
        decreases left
      {
        var id := LeastRecent(left);
        left := left - {id};
        var held := GetVerified(storage.files, id);
        if held.Some? {
          ghost var before := listing;
          listing := listing + [held.value];
          assert listing[|before|].id == id;
          assert forall i :: 0 <= i < |before| ==> listing[i] == before[i];
        }
      }
    }

    /** Some member of `ids` served no later than all the others. */
    method LeastRecent(ids: set<ObjectId<D>>) returns (least: ObjectId<D>)
      requires ids != {} && ids <= entries.Keys
      ensures least in ids && forall id :: id in ids ==> entries[least] <= entries[id]
    {
      least :| least in ids;
      var left := ids - {least};
      while left != {}
        invariant left <= ids && least in ids
        invariant forall id :: id in ids - left ==> entries[least] <= entries[id]
        decreases left
      {
        var id :| id in left;
        if entries[id] < entries[least] {
          least := id;
        }
        left := left - {id};
      }
    }
  }
}
