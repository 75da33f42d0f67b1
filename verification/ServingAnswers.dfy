/**
 What each operation on the home index and the serving set leaves behind, field by field:
 which entry changed and how, what is in the set, and what the gate then hands out.
 */
module ServingAnswers {
  import opened Prelude
  import opened Objects
  import opened CacheIndex
  import opened Serving
  import opened ServingLaws
  import ServingRuntime

  /** The entry at `i` is the first of that name. */
  predicate FirstNamed(entries: seq<HomeEntry>, name: string, i: int) {
    && 0 <= i < |entries| && entries[i].name == name
    && forall j :: 0 <= j < i ==> entries[j].name != name
  }

  predicate FirstFor(entries: seq<HomeEntry>, id: Id, i: int) {
    && 0 <= i < |entries| && entries[i].target == id
    && forall j :: 0 <= j < i ==> entries[j].target != id
  }

  /** Some entry of the index shares `id`. */
  predicate SharesIn(index: HomeIndexRecord, id: Id) {
    exists i :: 0 <= i < |index.entries| && index.entries[i].shared && index.entries[i].target == id
  }

  predicate SharesInCurrent(current: Option<HomeIndexRecord>, id: Id) {
    current.Some? && SharesIn(current.value, id)
  }

  lemma {:induction false} FirstNamedIs(entries: seq<HomeEntry>, name: string, i: nat)
    requires FirstNamed(entries, name, i)
    ensures NamedEntry(entries, name) == i
  {
    NamedEntryReaches(entries, name, i);
  }

  lemma {:induction false} NamedEntryReaches(entries: seq<HomeEntry>, name: string, i: nat)
    requires i < |entries| && entries[i].name == name
    ensures NamedEntry(entries, name) <= i
  {
    if i > 0 && entries[0].name != name {
      NamedEntryReaches(entries[1..], name, i - 1);
    }
  }

  lemma {:induction false} TargetEntryReaches(entries: seq<HomeEntry>, id: Id, i: nat)
    requires i < |entries| && entries[i].target == id
    ensures TargetEntry(entries, id) <= i
  {
    if i > 0 && entries[0].target != id {
      TargetEntryReaches(entries[1..], id, i - 1);
    }
  }

  // ---- saving an index -----------------------------------------------------------------------------

  /** `after` is `before` under the next version, or the first one. */
  predicate NextVersion(previous: Option<HomeIndexRecord>, wanted: HomeIndexRecord, after: HomeIndexRecord) {
    && after.profile == wanted.profile && after.contacts == wanted.contacts && after.entries == wanted.entries
    && after.version == match previous case Some(p) => p.version + 1 case None => 1
  }

  /**
   After saving, the current index is the one given under the next version, filed as an object
   of this identity; an id is in the serving set if and only if the new index shares it and the
   old one did not, or it was in it and is not one that the old index shared and the new one
   does not; and nothing else moved.
   */
  lemma {:induction false} SavingMeans(n: Node, wanted: HomeIndexRecord, now: nat, id: Id)
    requires Current(n).Ok?
    ensures var (end, r) := HomeSaved(n, wanted, now);
      var previous := Current(n).value;
      && r.Ok? && end.home == Some(r.value) && Current(end).Ok? && Current(end).value.Some?
      && var after := Current(end).value.value;
         && NextVersion(previous, wanted, after)
         && GetVerified(end.files, r.value).Some?
         && GetVerified(end.files, r.value).value.payload
            == Payload(n.me.identity, now, |wanted.entries|, HomeIndex, Home(after))
         && (id in end.shared
             <==> || (SharesIn(after, id) && !SharesInCurrent(previous, id))
                  || (id in n.shared && !(SharesInCurrent(previous, id) && !SharesIn(after, id))))
         && (id != r.value ==> (id in end.files <==> id in n.files) && (id in n.files ==> end.files[id] == n.files[id]))
         && end.cache == n.cache && end.me == n.me && end.admitted == n.admitted && end.paired == n.paired
         && (id in end.explicit <==> id in n.explicit && !(SharesInCurrent(previous, id) && !SharesIn(after, id)))
  {
    var previous := Current(n).value;
    var after := WithVersion(wanted, previous);
    var o := IndexObject(n.me, after, now);
    assert GetVerified(n.files[o.id := Holds(o)], o.id) == Some(o);
    assert SharesIn(after, id) <==> id in SharedIds(Some(after));
    assert SharesInCurrent(previous, id) <==> id in SharedIds(previous);
    hide SharedIds, SharesIn;
  }

  // ---- flipping an entry's flag ----------------------------------------------------------------------

  /** `after` is `before` with only the first entry of that name changed, and of it only the flag. */
  predicate Flagged(before: HomeIndexRecord, after: HomeIndexRecord, i: nat, flag: bool)
    requires i < |before.entries|
  {
    && after.profile == before.profile && after.contacts == before.contacts && after.version == before.version + 1
    && |after.entries| == |before.entries|
    && (forall j :: 0 <= j < |before.entries| && j != i ==> after.entries[j] == before.entries[j])
    && var e, e' := before.entries[i], after.entries[i];
       e'.name == e.name && e'.target == e.target && e'.kind == e.kind && e'.app == e.app && e'.shared == flag
  }

  /** Setting the flag of a named entry: each refusal changes nothing, and otherwise just that flag is set. */
  lemma {:induction false} FlagIsSet(n: Node, name: string, flag: bool, now: nat, i: nat)
    requires Current(n).Ok? && Current(n).value.Some? && FirstNamed(Current(n).value.value.entries, name, i)
    ensures var (end, r) := EntryShared(n, name, flag, now);
      && r.Ok? && end.home == Some(r.value) && Current(end).Ok? && Current(end).value.Some?
      && Flagged(Current(n).value.value, Current(end).value.value, i, flag)
  {
    hide HomeSaved, SharedIds;
    var index := Current(n).value.value;
    FirstNamedIs(index.entries, name, i);
    SavingMeans(n, index.(entries := index.entries[i := index.entries[i].(shared := flag)]), now, n.home.value);
  }

  lemma {:induction false} FlagRefusals(n: Node, name: string, flag: bool, now: nat)
    ensures var (end, r) := EntryShared(n, name, flag, now);
      && (Current(n).Err? ==> end == n && r == Err(Current(n).error))
      && (Current(n) == Ok(None) ==> end == n && r == Err(NoHomeIndex))
      && (Current(n).Ok? && Current(n).value.Some?
          && (forall i :: 0 <= i < |Current(n).value.value.entries| ==> Current(n).value.value.entries[i].name != name) ==>
            end == n && r == Err(NoSuchEntry))
  {
    hide HomeSaved;
  }

  /**
   So an own object that this entry alone names, and that was neither announced, marked nor put
   into the cache index, is handed out afterwards if and only if the flag given is true.
   */
  lemma {:induction false} FlagDecides(n: Node, name: string, flag: bool, now: nat, i: nat, id: Id, later: nat)
    requires Refines(n) && Current(n).value.Some? && FirstNamed(Current(n).value.value.entries, name, i)
    requires var entries := Current(n).value.value.entries;
      entries[i].target == id && forall j :: 0 <= j < |entries| && j != i ==> entries[j].target != id
    requires GetVerified(n.files, id).Some? && id !in n.explicit && id !in n.cache
    ensures var end := EntryShared(n, name, flag, now).0;
      Provided(end, id, later).1.Some? <==> flag
  {
    hide HomeSaved, SharedIds;
    var index := Current(n).value.value;
    FirstNamedIs(index.entries, name, i);
    var wanted := index.(entries := index.entries[i := index.entries[i].(shared := flag)]);
    SavingMeans(n, wanted, now, id);
    var end := HomeSaved(n, wanted, now).0;
    assert wanted.entries[i].target == id && wanted.entries[i].shared == flag;
    assert SharesIn(Current(end).value.value, id) <==> flag by { OnlyEntry(Current(end).value.value, id, i); }
    assert SharesIn(index, id) <==> index.entries[i].shared by { OnlyEntry(index, id, i); }
    assert id in n.shared <==> index.entries[i].shared by { SharedMeans(n, id); }
    assert GetVerified(end.files, id).Some?;
    hide SharesIn;
  }

  lemma {:induction false} OnlyEntry(index: HomeIndexRecord, id: Id, i: nat)
    requires i < |index.entries| && index.entries[i].target == id
    requires forall j :: 0 <= j < |index.entries| && j != i ==> index.entries[j].target != id
    ensures SharesIn(index, id) <==> index.entries[i].shared
  {
  }

  /** In a node in step with its index an id not marked by hand is in the serving set if and only if the index shares it. */
  lemma {:induction false} SharedMeans(n: Node, id: Id)
    requires Refines(n) && id !in n.explicit
    ensures id in n.shared <==> SharesInCurrent(Current(n).value, id)
  {
  }

  // ---- sharing an object -----------------------------------------------------------------------------

  /** The index with the entry put in place of the first of its name, or at the end. */
  predicate Placed(before: seq<HomeEntry>, after: seq<HomeEntry>, e: HomeEntry) {
    || (exists i :: 0 <= i < |before| && FirstNamed(before, e.name, i) && after == before[..i] + [e] + before[i + 1..])
    || ((forall i :: 0 <= i < |before| ==> before[i].name != e.name) && after == before + [e])
  }

  lemma {:induction false} UpsertedPlaces(entries: seq<HomeEntry>, e: HomeEntry)
    ensures Placed(entries, Upserted(entries, e), e)
  {
    var i := NamedEntry(entries, e.name);
    if i < |entries| {
      assert FirstNamed(entries, e.name, i);
      assert entries[i := e] == entries[..i] + [e] + entries[i + 1..];
    }
  }

  /**
   Sharing an object puts one entry in place, shared, naming the copy if there is one and else
   the object itself, with the object's kind and the app given; all else of the index stays.
   */
  lemma {:induction false} SharingMeans(
    n: Node, name: string, id: Id, app: Option<string>, copy: Option<Item>, now: nat)
    requires Current(n).Ok? && GetVerified(n.files, id).Some? && (copy.Some? ==> Verifies(copy.value))
    ensures var (end, r) := ObjectShared(n, name, id, app, copy, now);
      && r.Ok? && end.home == Some(r.value) && Current(end).Ok? && Current(end).value.Some?
      && var before, after := Current(n).value, Current(end).value.value;
         var kind := GetVerified(n.files, id).value.payload.kind;
         var target := match copy case Some(o) => o.id case None => id;
         && Placed(match before case Some(index) => index.entries case None => [],
                   after.entries, HomeEntry(name, target, kind, true, app))
         && after.profile == (match before case Some(index) => index.profile case None => None)
         && after.contacts == (match before case Some(index) => index.contacts case None => None)
         && after.version == (match before case Some(index) => index.version + 1 case None => 1)
  {
    hide HomeSaved, SharedIds, Upserted, Placed;
    var kind := GetVerified(n.files, id).value.payload.kind;
    var n' := if copy.Some? then n.(files := n.files[copy.value.id := Holds(copy.value)]) else n;
    if copy.Some? {
      StoringKeepsHome(n.files, n.home, copy.value);
    }
    var e := HomeEntry(name, if copy.Some? then copy.value.id else id, kind, true, app);
    var index := if Current(n').value.Some? then Current(n').value.value else EMPTY_HOME;
    UpsertedPlaces(index.entries, e);
    SavingMeans(n', index.(entries := Upserted(index.entries, e)), now, id);
  }

  /** Sharing an object not held, or with an index that cannot be read, lists nothing; in the second case the copy stays stored. */
  lemma {:induction false} SharingRefusals(
    n: Node, name: string, id: Id, app: Option<string>, copy: Option<Item>, now: nat)
    ensures var (end, r) := ObjectShared(n, name, id, app, copy, now);
      && (GetVerified(n.files, id).None? ==> end == n && r == Err(Missing))
      && (GetVerified(n.files, id).Some? && copy.None? && Current(n).Err? ==> end == n && r == Err(HomeUnreadable))
      && (GetVerified(n.files, id).Some? && copy.Some? ==>
            var with := n.(files := n.files[copy.value.id := Holds(copy.value)]);
            Current(with).Err? ==> end == with && r == Err(HomeUnreadable))
  {
    hide HomeSaved, Upserted;
  }

  /** Announcing puts the id into the serving set, as one marked by hand. */
  lemma {:induction false} AnnouncingMeans(n: Node, id: Id, other: Id)
    ensures var end := Announced(n, id);
      && (other in end.shared <==> other == id || other in n.shared)
      && (other in end.explicit <==> other == id || other in n.explicit)
      && end.files == n.files && end.cache == n.cache && end.home == n.home
  {
  }

  /** One of the items has the id. */
  predicate Among(items: seq<Item>, id: Id) {
    exists i :: 0 <= i < |items| && items[i].id == id
  }

  /** What a pairing brings is stored and tracked as handed out now, whoever owns it; the rest and what is shared stay. */
  lemma {:induction false} PairingMeans(n: Node, items: seq<Item>, now: nat, id: Id)
    ensures var end := Paired(n, items, now);
      && end.shared == n.shared && end.explicit == n.explicit && end.home == n.home && end.me == n.me
      && if Among(items, id) then
           && id in end.files && (exists i :: 0 <= i < |items| && items[i].id == id && end.files[id] == Holds(items[i]))
           && id in end.cache && end.cache[id] == now
         else
           && (id in end.files <==> id in n.files) && (id in n.files ==> end.files[id] == n.files[id])
           && (id in end.cache <==> id in n.cache) && (id in n.cache ==> end.cache[id] == n.cache[id])
    decreases |items|
  {
    if items != [] {
      var k := |items| - 1;
      var init, last := items[..k], items[k];
      PairingMeans(n, init, now, id);
      assert forall i :: 0 <= i < k ==> init[i] == items[i];
      var before := Paired(n, init, now);
      assert Paired(n, items, now) == Transferred(before, last, now);
      hide Paired;
      if last.id == id {
        assert items[k].id == id && Paired(n, items, now).files[id] == Holds(items[k]);
      } else if Among(init, id) {
        var i :| 0 <= i < k && init[i].id == id && before.files[id] == Holds(init[i]);
        assert items[i].id == id;
      }
    }
  }

  // ---- the gate, and what comes in -------------------------------------------------------------------

  /** The gate hands out what is stored and verifies under that id, if it is tracked or shared, and only notes the time. */
  lemma {:induction false} GateIff(n: Node, id: Id, now: nat, o: Item)
    ensures var (end, got) := Provided(n, id, now);
      && (got == Some(o) <==> && id in n.files && n.files[id] == Holds(o) && o.id == id && Verifies(o)
                              && (id in n.cache || id in n.shared))
      && end == n.(cache := end.cache)
      && end.cache == (if got.Some? && id in n.cache then n.cache[id := now] else n.cache)
  {
  }

  /** What is pushed is refused if and only if it does not verify; it is then stored, and tracked if and only if it is another's. */
  lemma {:induction false} PushMeans(n: Node, o: Item, now: nat, id: Id)
    ensures var (end, r) := Pushed(n, o, now);
      && (r == Err(Invalid) <==> !Verifies(o)) && (r.Err? ==> end == n)
      && (r.Ok? ==>
            && end.files == n.files[o.id := Holds(o)] && end.shared == n.shared && end.home == n.home
            && (id in end.cache <==> id in n.cache || (id == o.id && o.payload.owner != n.me.identity))
            && (o.payload.owner != n.me.identity ==> end.cache[o.id] == now))
  {
  }

  lemma {:induction false} ImportMeans(n: Node, o: Item, now: nat)
    ensures var (end, r) := Imported(n, o, now);
      && (o.id in n.files <==> r == Err(AlreadyStored)) && (r.Err? ==> end == n)
      && (o.id !in n.files ==> (end, r) == Pushed(n, o, now))
  {
  }

  /** Opening serves what the stored index shares, if one can be read, and the public records, and nothing else. */
  lemma {:induction false} OpeningMeans(n: Node, publicRecords: set<Id>, id: Id)
    ensures var end := Reopened(n, publicRecords);
      && (id in end.shared <==> (Current(n).Ok? && SharesInCurrent(Current(n).value, id)) || id in publicRecords)
      && end.files == n.files && end.cache == n.cache && end.home == n.home && end.explicit == publicRecords
  {
  }

  // ---- deleting ----------------------------------------------------------------------------------------

  /** What of a deletion is refused before anything changes. */
  predicate Undeletable(n: Node, id: Id) {
    || GetVerified(n.files, id).None?
    || GetVerified(n.files, id).value.payload.owner != n.me.identity
    || (GetVerified(n.files, id).value.payload.kind != Blob && GetVerified(n.files, id).value.payload.kind != AppManifest)
    || Current(n).Err?
    || (Current(n).value.Some? && (Current(n).value.value.profile == Some(id) || Current(n).value.value.contacts == Some(id)))
  }

  lemma {:induction false} RefusedDeletionChangesNothing(
    n: Node, id: Id, now: nat, outcome: DeleteOutcome, indexOutcome: DeleteOutcome)
    requires Undeletable(n, id)
    ensures var (end, r) := ObjectDeleted(n, id, now, outcome, indexOutcome);
      end == n && r.Err?
  {
    hide HomeSaved;
  }

  /**
   Deleting an object that the index lists, everything going well: the new index is the old one
   without the first entry naming it, the object and the old index object are gone from store,
   cache index and serving set, and any other id is where it was in store and cache index.
   */
  lemma {:induction false} DeletionMeans(n: Node, id: Id, now: nat, i: nat, other: Id)
    requires !Undeletable(n, id) && Current(n).value.Some? && FirstFor(Current(n).value.value.entries, id, i)
    requires n.home.value != id
    ensures var (end, r) := ObjectDeleted(n, id, now, Deleted, Deleted);
      var before := Current(n).value.value;
      && r == Ok(()) && end.home.Some? && end.home != n.home && Current(end).Ok? && Current(end).value.Some?
      && var after := Current(end).value.value;
         && after.entries == before.entries[..i] + before.entries[i + 1..]
         && after.profile == before.profile && after.contacts == before.contacts && after.version == before.version + 1
         && id !in end.files && id !in end.cache && id !in end.shared
         && n.home.value !in end.files && n.home.value !in end.cache && n.home.value !in end.shared
         && (other != id && other != n.home.value && other != end.home.value ==>
               && (other in end.files <==> other in n.files) && (other in n.files ==> end.files[other] == n.files[other])
               && (other in end.cache <==> other in n.cache))
  {
    hide HomeSaved, SharedIds;
    var before := Current(n).value.value;
    TargetEntryReaches(before.entries, id, i);
    var wanted := before.(entries := before.entries[..i] + before.entries[i + 1..]);
    SavingMeans(n, wanted, now, other);
    var n1 := HomeSaved(n, wanted, now).0;
    NewIndexIsAnother(n, wanted, now, id);
    var n2 := Evicted(n1, id, Deleted).0;
    var n3 := Evicted(n2, n.home.value, Deleted).0;
    assert n3.files[n3.home.value] == n1.files[n1.home.value];
  }

  /** A newly saved index is neither the old one nor a blob or an app. */
  lemma {:induction false} NewIndexIsAnother(n: Node, wanted: HomeIndexRecord, now: nat, id: Id)
    requires Current(n).Ok? && Current(n).value.Some? && !Undeletable(n, id)
    ensures HomeSaved(n, wanted, now).0.home.Some?
    ensures HomeSaved(n, wanted, now).0.home.value != id && HomeSaved(n, wanted, now).0.home != n.home
  {
    var o := IndexObject(n.me, WithVersion(wanted, Current(n).value), now);
    assert n.home.value == Digest(GetVerified(n.files, n.home.value).value.payload);
    assert o.payload.data.index.version == Current(n).value.value.version + 1;
  }

  /** Every answer to a deletion with its exact cause, in the order of the checks. */
  lemma {:induction false} DeletionAnswers(
    n: Node, id: Id, now: nat, outcome: DeleteOutcome, indexOutcome: DeleteOutcome)
    ensures var r := ObjectDeleted(n, id, now, outcome, indexOutcome).1;
      var held := GetVerified(n.files, id);
      var own := held.Some? && held.value.payload.owner == n.me.identity;
      var plain := own && (held.value.payload.kind == Blob || held.value.payload.kind == AppManifest);
      && (r == Err(Missing) <==> held == None)
      && (r == Err(NotOwned) <==> held.Some? && !own)
      && (r == Err(HomeUnreadable) <==> plain && Current(n).Err?)
      && (r == Err(SystemRecord) <==> own && (!plain || (Current(n).Ok? && Undeletable(n, id))))
      && (r == Err(DeleteFailed) <==> !Undeletable(n, id) && outcome != Deleted)
      && (r == Ok(()) <==> !Undeletable(n, id) && outcome == Deleted)
  {
    UnlistingAnswers(n, id, now);
    var n1 := Unlisted(n, id, now).0;
    EvictionAnswers(n1, id, outcome);
    if n.home.Some? {
      EvictionAnswers(Evicted(n1, id, outcome).0, n.home.value, indexOutcome);
    }
    hide Unlisted, Evicted, GetVerified, Current;
  }

  /** Taking an object out of the index fails just where the index cannot be read or holds it as profile or contacts. */
  lemma {:induction false} UnlistingAnswers(n: Node, id: Id, now: nat)
    ensures var (end, r) := Unlisted(n, id, now);
      && (r.Err? ==> end == n)
      && (r == Err(HomeUnreadable) <==> Current(n).Err?)
      && (r == Err(SystemRecord)
          <==> && Current(n).Ok? && Current(n).value.Some?
               && (Current(n).value.value.profile == Some(id) || Current(n).value.value.contacts == Some(id)))
      && (r.Err? ==> r == Err(HomeUnreadable) || r == Err(SystemRecord))
  {
    hide IndexObject, SharedIds, Reconciled, WithVersion;
  }

  /** An eviction: refused it changes nothing, failing after the fact it loses the object alone, and else all three forget it. */
  lemma {:induction false} EvictionAnswers(n: Node, id: Id, outcome: DeleteOutcome)
    ensures var (end, r) := Evicted(n, id, outcome);
      && r == (if outcome == Deleted then Ok(()) else Err(DeleteFailed))
      && (outcome == Refused ==> end == n)
      && (outcome == SidecarRefused ==> end == n.(files := n.files - {id}))
      && (outcome == Deleted ==>
            && end.files == n.files - {id} && end.cache == n.cache - {id} && end.shared == n.shared - {id}
            && end.explicit == n.explicit - {id} && end.home == n.home && end.me == n.me)
  {
  }

  /** What an unlisted object's deletion goes on to, and a listed one's: the object, and then the index that was current. */
  lemma {:induction false} DeletionEvicts(
    n: Node, id: Id, now: nat, outcome: DeleteOutcome, indexOutcome: DeleteOutcome)
    requires !Undeletable(n, id)
    ensures var first := Evicted(Unlisted(n, id, now).0, id, outcome);
      ObjectDeleted(n, id, now, outcome, indexOutcome).0
      == if first.1.Err? || n.home.None? || n.home.value == id then first.0
         else Evicted(first.0, n.home.value, indexOutcome).0
  {
    UnlistingAnswers(n, id, now);
    hide Unlisted, Evicted, GetVerified;
  }

  // ---- sizes -------------------------------------------------------------------------------------------

  /** A tracked object counts with its declared size if it is stored and verifies, and else not at all. */
  lemma {:induction false} StoredCounts(files: Files<Content>, o: Item, id: Id)
    requires Verifies(o)
    ensures TotalSize(files[o.id := Holds(o)], {o.id}) == o.payload.size
    ensures id !in files || files[id].Corrupt? ==> TotalSize(files, {id}) == 0
  {
    TotalWithout(files[o.id := Holds(o)], {o.id}, o.id);
    TotalWithout(files, {id}, id);
    assert GetVerified(files[o.id := Holds(o)], o.id) == Some(o);
    assert {o.id} - {o.id} == {} && {id} - {id} == {};
  }

  // ---- sweeping the cache --------------------------------------------------------------------------

  /**
   The objects a sweep evicts are tracked, in the order they were last handed out, each once; a
   readable one that stays was handed out no earlier than any of them; and before each of them
   went, what was still tracked was more than the cap.
   */
  lemma {:induction false} SweepMeans(
    files: Files<Content>, entries: Entries<Content>, cap: nat, evicted: seq<Id>, i: nat, j: nat, kept: Id)
    requires ServingRuntime.LruPrefix(files, entries, cap, evicted) && i < j < |evicted|
    ensures evicted[i] in entries && evicted[j] in entries && evicted[i] != evicted[j]
    ensures entries[evicted[i]] <= entries[evicted[j]]
    ensures kept in entries && kept !in evicted && GetVerified(files, kept).Some? ==> entries[evicted[i]] <= entries[kept]
    ensures TotalSize(files, entries.Keys - (set k | 0 <= k < j :: evicted[k])) > cap
  {
    assert (set k | 0 <= k < j :: evicted[k]) == ServingRuntime.Members(evicted[..j]) by {
      assert forall k :: 0 <= k < j ==> evicted[..j][k] == evicted[k];
    }
  }

  /** A listing has every readable tracked object once, an earlier one last handed out no later. */
  lemma {:induction false} ListingMeans(
    files: Files<Content>, entries: Entries<Content>, listing: seq<Item>, i: nat, j: nat, id: Id)
    requires LruListing(entries, files, listing) && i < j < |listing|
    ensures listing[i] != listing[j] && listing[i].id in entries && listing[j].id in entries
    ensures entries[listing[i].id] <= entries[listing[j].id]
    ensures id in entries && GetVerified(files, id).Some? ==> exists k :: 0 <= k < |listing| && listing[k].id == id
  {
  }
}
