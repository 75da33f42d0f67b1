/**
 Properties of the serving state over whole runs: the incrementally kept
 serving set refines the home index, and nothing is served that nobody shared
 or brought in.
 */
module ServingLaws {
  import opened Prelude
  import opened Objects
  import opened CacheIndex
  import opened Serving

  datatype Step =
    | Announce(id: Id)
    | MarkShared(id: Id)
    | SaveHome(index: HomeIndexRecord, now: nat)
    | SetEntryShared(name: string, flag: bool, now: nat)
    | Share(name: string, id: Id, app: Option<string>, copy: Option<Item>, now: nat)
    | Push(o: Item, now: nat)
    | Import(o: Item, now: nat)
    | Pair(items: seq<Item>, now: nat)
    | Put(data: Content, kind: Kind, now: nat)
    | Serve(id: Id, now: nat)
    | Evict(id: Id, outcome: DeleteOutcome)
    | Delete(id: Id, now: nat, outcome: DeleteOutcome, indexOutcome: DeleteOutcome)

  /** A pairing with a record that does not verify is refused before anything is stored. */
  predicate AllVerify(items: seq<Item>) {
    forall i :: 0 <= i < |items| ==> Verifies(items[i])
  }

  function Next(n: Node, step: Step): Node {
    match step
    case Announce(id) => Announced(n, id)
    case MarkShared(id) => Announced(n, id)
    case SaveHome(index, now) => HomeSaved(n, index, now).0
    case SetEntryShared(name, flag, now) => EntryShared(n, name, flag, now).0
    case Share(name, id, app, copy, now) =>
      if copy.Some? && !Verifies(copy.value) then n else ObjectShared(n, name, id, app, copy, now).0
    case Push(o, now) => Pushed(n, o, now).0
    case Import(o, now) => Imported(n, o, now).0
    case Pair(items, now) => if AllVerify(items) then Paired(n, items, now) else n
    case Put(data, kind, now) => PutOwn(n, data, kind, now)
    case Serve(id, now) => Provided(n, id, now).0
    case Evict(id, outcome) => Evicted(n, id, outcome).0
    case Delete(id, now, outcome, indexOutcome) => ObjectDeleted(n, id, now, outcome, indexOutcome).0
  }

  function Run(n: Node, steps: seq<Step>): Node
    decreases |steps|
  {
    if steps == [] then n else Run(Next(n, steps[0]), steps[1..])
  }

  // ---- the serving set refines the home index -------------------------------------------

  /**
   The home index is readable, every object it shares is in the serving set,
   and anything else in the serving set was announced or marked by hand.
   */
  predicate Refines(n: Node) {
    && Current(n).Ok?
    && SharedIds(Current(n).value) <= n.shared <= SharedIds(Current(n).value) + n.explicit
  }

  /** Storing a verified object never changes what another id, or the same id, reads as a payload. */
  lemma {:induction false} StoringKeepsHome(files: Files<Content>, home: Option<Id>, o: Item)
    requires Verifies(o) && LoadHome(files, home).Ok?
    ensures LoadHome(files[o.id := Holds(o)], home) == LoadHome(files, home)
  {
  }

  lemma {:induction false} SavingRefines(n: Node, index: HomeIndexRecord, now: nat)
    requires Refines(n)
    ensures Refines(HomeSaved(n, index, now).0) && HomeSaved(n, index, now).1.Ok?
    ensures var previous := Current(n).value;
      Current(HomeSaved(n, index, now).0) == Ok(Some(WithVersion(index, previous)))
  {
    var o := IndexObject(n.me, WithVersion(index, Current(n).value), now);
    assert GetVerified(n.files[o.id := Holds(o)], o.id) == Some(o);
  }

  lemma {:induction false} SharingRefines(n: Node, name: string, id: Id, app: Option<string>, copy: Option<Item>, now: nat)
    requires Refines(n) && (copy.Some? ==> Verifies(copy.value))
    ensures Refines(ObjectShared(n, name, id, app, copy, now).0)
    ensures GetVerified(n.files, id).Some? ==>
      (if copy.Some? then copy.value.id else id) in ObjectShared(n, name, id, app, copy, now).0.shared
  {
    if GetVerified(n.files, id).Some? {
      var n' := if copy.Some? then n.(files := n.files[copy.value.id := Holds(copy.value)]) else n;
      if copy.Some? {
        StoringKeepsHome(n.files, n.home, copy.value);
      }
      var kind := GetVerified(n.files, id).value.payload.kind;
      var e := HomeEntry(name, if copy.Some? then copy.value.id else id, kind, true, app);
      var index := if Current(n').value.Some? then Current(n').value.value else EMPTY_HOME;
      var entries := Upserted(index.entries, e);
      assert entries[NamedEntry(index.entries, name)] == e;
      SavingRefines(n', index.(entries := entries), now);
    }
  }

  lemma {:induction false} PairingRefines(n: Node, items: seq<Item>, now: nat)
    requires Refines(n) && AllVerify(items)
    ensures Refines(Paired(n, items, now))
    decreases |items|
  {
    hide SharedIds;
    if items != [] {
      var before := Paired(n, items[..|items| - 1], now);
      PairingRefines(n, items[..|items| - 1], now);
      StoringKeepsHome(before.files, before.home, items[|items| - 1]);
    }
  }

  lemma {:induction false} NextRefines(n: Node, step: Step)
    requires Refines(n) && !step.Evict? && !step.Delete?
    ensures Refines(Next(n, step))
  {
    hide SharedIds, HomeSaved, ObjectShared, Paired, Upserted, NamedEntry;
    match step
    case SaveHome(index, now) => SavingRefines(n, index, now);
    case SetEntryShared(name, flag, now) =>
      if Current(n).value.Some? {
        var index := Current(n).value.value;
        var i := NamedEntry(index.entries, name);
        if i < |index.entries| {
          SavingRefines(n, index.(entries := index.entries[i := index.entries[i].(shared := flag)]), now);
        }
      }
    case Share(name, id, app, copy, now) =>
      if copy.None? || Verifies(copy.value) {
        SharingRefines(n, name, id, app, copy, now);
      }
    case Push(o, now) =>
      if Verifies(o) {
        StoringKeepsHome(n.files, n.home, o);
      }
    case Import(o, now) =>
      if Verifies(o) {
        StoringKeepsHome(n.files, n.home, o);
      }
    case Pair(items, now) =>
      if AllVerify(items) {
        PairingRefines(n, items, now);
      }
    case Put(data, kind, now) => StoringKeepsHome(n.files, n.home, NewObject(n.me, data, 0, kind, now));
    case _ =>
  }

  // ---- exactly when a removal keeps the refinement -----------------------------------------

  /** The home pointer's digest shares what the index read through it shares. */
  lemma {:induction false} HomePointerTells(n: Node)
    requires Current(n).Ok?
    ensures SharedByHome(n.home) == SharedIds(Current(n).value)
  {
  }

  /**
   An eviction is harmless when the deletion is refused outright, or the id is not
   the home index and either stays in the serving set or is not shared by the index.
   */
  predicate EvictionKeeps(n: Node, id: Id, outcome: DeleteOutcome) {
    outcome.Refused? || (n.home != Some(id) && (outcome.SidecarRefused? || id !in SharedByHome(n.home)))
  }

  lemma {:induction false} EvictionRefinesIff(n: Node, id: Id, outcome: DeleteOutcome)
    requires Refines(n)
    ensures Refines(Evicted(n, id, outcome).0) <==> EvictionKeeps(n, id, outcome)
  {
    HomePointerTells(n);
    hide SharedIds;
  }

  /** The entries left once the first one naming `id` is taken out. */
  function Remaining(index: HomeIndexRecord, id: Id): HomeIndexRecord {
    var i := TargetEntry(index.entries, id);
    if i == |index.entries| then index
    else index.(entries := index.entries[..i] + index.entries[i + 1..])
  }

  predicate Deletable(n: Node, id: Id) {
    && GetVerified(n.files, id).Some?
    && GetVerified(n.files, id).value.payload.owner == n.me.identity
    && (GetVerified(n.files, id).value.payload.kind.Blob? || GetVerified(n.files, id).value.payload.kind.AppManifest?)
  }

  predicate Lists(index: HomeIndexRecord, id: Id) {
    exists i :: 0 <= i < |index.entries| && index.entries[i].target == id
  }

  lemma {:induction false} UnlistedSaves(n: Node, id: Id, now: nat)
    requires Current(n).Ok? && Current(n).value.Some?
    requires var index := Current(n).value.value;
      index.profile != Some(id) && index.contacts != Some(id) && TargetEntry(index.entries, id) < |index.entries|
    ensures var saved := HomeSaved(n, Remaining(Current(n).value.value, id), now);
      Unlisted(n, id, now).0 == saved.0 && Unlisted(n, id, now).1 == Done(saved.1)
  {
    hide HomeSaved;
  }

  lemma {:induction false} SavedIndexIsNew(n: Node, index: HomeIndexRecord, now: nat, id: Id)
    requires Refines(n) && Deletable(n, id)
    ensures HomeSaved(n, index, now).0.home.Some?
    ensures HomeSaved(n, index, now).0.home.value != id && HomeSaved(n, index, now).0.home != n.home
  {
    var o := IndexObject(n.me, WithVersion(index, Current(n).value), now);
    if n.home.Some? {
      assert n.home.value == Digest(GetVerified(n.files, n.home.value).value.payload);
      assert o.payload.data.index.version == Current(n).value.value.version + 1;
    }
  }

  lemma {:induction false} DeletedIsEvictedTwice(
    n: Node, id: Id, now: nat, outcome: DeleteOutcome, indexOutcome: DeleteOutcome, n1: Node)
    requires Refines(n) && Deletable(n, id) && Unlisted(n, id, now) == (n1, Ok(()))
    ensures ObjectDeleted(n, id, now, outcome, indexOutcome).0
         == if n.home.None? then Evicted(n1, id, outcome).0
            else EvictedBoth(n1, id, outcome, n.home.value, indexOutcome)
  {
    hide Unlisted;
  }

  /** First `id`; then, if that succeeded, `other`. */
  function EvictedBoth(n: Node, id: Id, outcome: DeleteOutcome, other: Id, otherOutcome: DeleteOutcome): Node {
    var n2 := Evicted(n, id, outcome).0;
    if outcome.Deleted? && other != id then Evicted(n2, other, otherOutcome).0 else n2
  }

  /** Evicting two ids other than the home index keeps the refinement iff neither is deleted while shared. */
  lemma {:induction false} EvictingTwo(n: Node, id: Id, outcome: DeleteOutcome, other: Id, otherOutcome: DeleteOutcome)
    requires Refines(n) && n.home != Some(id) && n.home != Some(other)
    ensures Refines(EvictedBoth(n, id, outcome, other, otherOutcome))
       <==> (outcome.Deleted? ==>
              && id !in SharedIds(Current(n).value)
              && (otherOutcome.Deleted? && other != id ==> other !in SharedIds(Current(n).value)))
  {
    hide SharedIds;
    var n2 := Evicted(n, id, outcome).0;
    assert Current(n2) == Current(n);
    assert Current(Evicted(n2, other, otherOutcome).0) == Current(n);
  }

  /** The home index keeps `id` as its profile or contacts, so deleting it is refused. */
  predicate Protected(index: HomeIndexRecord, id: Id) {
    index.profile == Some(id) || index.contacts == Some(id)
  }

  /**
   A deletion is harmless when it is refused or there is no home index. With one that
   lists the object, what remains must share neither the object nor the old index, as
   far as they go. With one that does not, neither of them being the current index may go.
   */
  predicate DeletionKeeps(n: Node, id: Id, outcome: DeleteOutcome, indexOutcome: DeleteOutcome) {
    if !Deletable(n, id) || n.home.None? || Current(n).Err? || Current(n).value.None? then true
    else
      var index, home := Current(n).value.value, n.home.value;
      var rest := SharedIds(Some(Remaining(index, id)));
      if Protected(index, id) then true
      else if Lists(index, id) then
        outcome.Deleted? ==> id !in rest && (indexOutcome.Deleted? && home != id ==> home !in rest)
      else if home == id then outcome.Refused?
      else outcome.Deleted? ==> indexOutcome.Refused?
  }

  lemma {:induction false} DeletingListed(
    n: Node, id: Id, now: nat, outcome: DeleteOutcome, indexOutcome: DeleteOutcome)
    requires Refines(n) && Deletable(n, id) && n.home.Some?
    requires var index := Current(n).value.value;
      !Protected(index, id) && TargetEntry(index.entries, id) < |index.entries|
    ensures var rest := SharedIds(Some(Remaining(Current(n).value.value, id)));
      Refines(ObjectDeleted(n, id, now, outcome, indexOutcome).0)
      <==> (outcome.Deleted? ==> id !in rest && (indexOutcome.Deleted? && n.home.value != id ==> n.home.value !in rest))
  {
    hide HomeSaved, Remaining, ObjectDeleted, Unlisted, EvictedBoth;
    var home, index := n.home.value, Current(n).value.value;
    var rest := Remaining(index, id);
    var n1 := HomeSaved(n, rest, now).0;
    SavingRefines(n, rest, now);
    SavedIndexIsNew(n, rest, now, id);
    UnlistedSaves(n, id, now);
    assert SharedIds(Some(WithVersion(rest, Some(index)))) == SharedIds(Some(rest)) by {
      assert WithVersion(rest, Some(index)).entries == rest.entries;
    }
    EvictingTwo(n1, id, outcome, home, indexOutcome);
    DeletedIsEvictedTwice(n, id, now, outcome, indexOutcome, n1);
  }

  lemma {:induction false} DeletingUnlisted(
    n: Node, id: Id, now: nat, outcome: DeleteOutcome, indexOutcome: DeleteOutcome)
    requires Refines(n) && Deletable(n, id) && n.home.Some?
    requires var index := Current(n).value.value;
      !Protected(index, id) && TargetEntry(index.entries, id) == |index.entries|
    ensures Refines(ObjectDeleted(n, id, now, outcome, indexOutcome).0)
       <==> if n.home.value == id then outcome.Refused? else (outcome.Deleted? ==> indexOutcome.Refused?)
  {
    hide ObjectDeleted, SharedIds;
    DeletedIsEvictedTwice(n, id, now, outcome, indexOutcome, n);
    assert id !in SharedIds(Current(n).value) by { NotListedNotShared(Current(n).value.value, id); }
    HomePointerTells(n);
    EvictionRefinesIff(n, id, outcome);
    if outcome.Deleted? && n.home.value != id {
      EvictionRefinesIff(Evicted(n, id, outcome).0, n.home.value, indexOutcome);
    }
  }

  lemma {:induction false} NotListedNotShared(index: HomeIndexRecord, id: Id)
    requires TargetEntry(index.entries, id) == |index.entries|
    ensures id !in SharedIds(Some(index)) && !Lists(index, id)
  {
  }

  /**
   Deleting an object leaves the serving set refining the home index if and only if
   the deletion is harmless: the guard can be read off the state and the two outcomes.
   Deleting an object the home index does not list evicts the home index that is
   still current.
   */
  lemma {:induction false} DeletionRefinesIff(
    n: Node, id: Id, now: nat, outcome: DeleteOutcome, indexOutcome: DeleteOutcome)
    requires Refines(n)
    ensures Refines(ObjectDeleted(n, id, now, outcome, indexOutcome).0) <==> DeletionKeeps(n, id, outcome, indexOutcome)
  {
    hide HomeSaved, SharedIds, Remaining, EvictedBoth;
    if Deletable(n, id) {
      if n.home.None? {
        hide ObjectDeleted;
        DeletedIsEvictedTwice(n, id, now, outcome, indexOutcome, n);
        EvictionRefinesIff(n, id, outcome);
      } else if !Protected(Current(n).value.value, id) {
        hide ObjectDeleted, Unlisted;
        var index := Current(n).value.value;
        if TargetEntry(index.entries, id) < |index.entries| {
          DeletingListed(n, id, now, outcome, indexOutcome);
          assert Lists(index, id);
        } else {
          DeletingUnlisted(n, id, now, outcome, indexOutcome);
          NotListedNotShared(index, id);
        }
      }
    }
  }

  /** A node whose home index does not list the object it deletes: afterwards no home index can be read. */
  lemma {:induction false} UnlistedDeletionLosesHome(me: Signer, now: nat)
    ensures var blob := NewObject(me, Opaque([1]), 1, Blob, now);
      var n0 := Node(me, map[blob.id := Holds(blob)], map[], {}, None, {}, {}, {});
      var n := HomeSaved(n0, EMPTY_HOME, now).0;
      && Refines(n) && ObjectDeleted(n, blob.id, now, Deleted, Deleted).1 == Ok(())
      && Current(ObjectDeleted(n, blob.id, now, Deleted, Deleted).0).Err?
  {
    var blob := NewObject(me, Opaque([1]), 1, Blob, now);
    var n0 := Node(me, map[blob.id := Holds(blob)], map[], {}, None, {}, {}, {});
    var n := HomeSaved(n0, EMPTY_HOME, now).0;
    SavingRefines(n0, EMPTY_HOME, now);
    assert GetVerified(n.files, blob.id) == Some(blob);
    DeletedIsEvictedTwice(n, blob.id, now, Deleted, Deleted, n);
  }

  // ---- runs ----------------------------------------------------------------------------------

  predicate Keeps(n: Node, step: Step) {
    match step
    case Evict(id, outcome) => EvictionKeeps(n, id, outcome)
    case Delete(id, _, outcome, indexOutcome) => DeletionKeeps(n, id, outcome, indexOutcome)
    case _ => true
  }

  /** Every removal of the run meets its guard when it comes. */
  predicate Guarded(n: Node, steps: seq<Step>)
    decreases |steps|
  {
    steps == [] || (Keeps(n, steps[0]) && Guarded(Next(n, steps[0]), steps[1..]))
  }

  /** The serving set refines the home index at every moment of the run. */
  predicate AlwaysRefines(n: Node, steps: seq<Step>)
    decreases |steps|
  {
    Refines(n) && (steps == [] || AlwaysRefines(Next(n, steps[0]), steps[1..]))
  }

  lemma {:induction false} StepRefinesIff(n: Node, step: Step)
    requires Refines(n)
    ensures Refines(Next(n, step)) <==> Keeps(n, step)
  {
    hide HomeSaved, ObjectDeleted, Evicted, DeletionKeeps, EvictionKeeps, Refines;
    match step
    case Evict(id, outcome) => EvictionRefinesIff(n, id, outcome);
    case Delete(id, now, outcome, indexOutcome) => DeletionRefinesIff(n, id, now, outcome, indexOutcome);
    case _ => NextRefines(n, step);
  }

  /** Over every run, removals included, it refines throughout if and only if every removal is harmless. */
  lemma {:induction false} RunRefinesIff(n: Node, steps: seq<Step>)
    requires Refines(n)
    ensures AlwaysRefines(n, steps) <==> Guarded(n, steps)
    ensures Guarded(n, steps) ==> Refines(Run(n, steps))
    decreases |steps|
  {
    hide Next, Refines, Keeps;
    if steps != [] {
      StepRefinesIff(n, steps[0]);
      if Keeps(n, steps[0]) {
        RunRefinesIff(Next(n, steps[0]), steps[1..]);
      } else {
        assert !AlwaysRefines(Next(n, steps[0]), steps[1..]);
      }
    }
  }

  /**
   Over every run from opening whose removals are harmless, the incremental serving
   set agrees with recomputing it: all that the current home index shares is in it,
   and whatever else is in it was announced or marked by hand and not withdrawn since.
   */
  lemma {:induction false} IncrementalAgreesWithRecomputed(n: Node, publicRecords: set<Id>, steps: seq<Step>)
    requires Current(n).Ok? && Guarded(Reopened(n, publicRecords), steps)
    ensures var end := Run(Reopened(n, publicRecords), steps);
      && Current(end).Ok?
      && SharedIds(Current(end).value) <= end.shared <= SharedIds(Current(end).value) + end.explicit
  {
    hide Guarded, Run;
    assert Current(Reopened(n, publicRecords)) == Current(n);
    RunRefinesIff(Reopened(n, publicRecords), steps);
  }

  // ---- nothing is shared by default ----------------------------------------------------------

  /** Everything servable is accounted for. */
  predicate Accounted(n: Node) {
    && n.shared <= n.explicit + SharedByHome(n.home)
    && n.cache.Keys == n.admitted + n.paired
    && (forall id :: id in n.admitted ==> Foreign(n.me, id))
    && forall id :: id in n.paired ==> !Foreign(n.me, id)
  }

  lemma {:induction false} SavingAccounted(n: Node, index: HomeIndexRecord, now: nat)
    requires Accounted(n)
    ensures Accounted(HomeSaved(n, index, now).0) && HomeSaved(n, index, now).0.me == n.me
  {
    hide SharedIds;
  }

  lemma {:induction false} EvictingAccounted(n: Node, id: Id, outcome: DeleteOutcome)
    requires Accounted(n)
    ensures Accounted(Evicted(n, id, outcome).0) && Evicted(n, id, outcome).0.me == n.me
  {
    hide SharedByHome;
  }

  lemma {:induction false} StoringAccounted(n: Node, o: Item, now: nat)
    requires Accounted(n) && Verifies(o)
    ensures Accounted(Stored(n, o, now)) && Stored(n, o, now).me == n.me
  {
    hide SharedByHome;
  }

  lemma {:induction false} PairingAccounted(n: Node, items: seq<Item>, now: nat)
    requires Accounted(n)
    ensures Accounted(Paired(n, items, now)) && Paired(n, items, now).me == n.me
    decreases |items|
  {
    hide Accounted, Transferred;
    if items != [] {
      PairingAccounted(n, items[..|items| - 1], now);
      TransferAccounted(Paired(n, items[..|items| - 1], now), items[|items| - 1], now);
    }
  }

  lemma {:induction false} TransferAccounted(n: Node, o: Item, now: nat)
    requires Accounted(n)
    ensures Accounted(Transferred(n, o, now)) && Transferred(n, o, now).me == n.me
  {
    hide SharedByHome;
  }

  lemma {:induction false} UnlistingAccounted(n: Node, id: Id, now: nat)
    requires Accounted(n)
    ensures Accounted(Unlisted(n, id, now).0) && Unlisted(n, id, now).0.me == n.me
  {
    hide HomeSaved, SharedIds;
    if Current(n).Ok? && Current(n).value.Some? {
      SavingAccounted(n, Remaining(Current(n).value.value, id), now);
    }
  }

  lemma {:induction false} DeletingAccounted(n: Node, id: Id, now: nat, outcome: DeleteOutcome, indexOutcome: DeleteOutcome)
    requires Accounted(n)
    ensures var end := ObjectDeleted(n, id, now, outcome, indexOutcome).0; Accounted(end) && end.me == n.me
  {
    hide HomeSaved, SharedIds, Unlisted, Evicted, Accounted;
    UnlistingAccounted(n, id, now);
    var n1 := Unlisted(n, id, now).0;
    EvictingAccounted(n1, id, outcome);
    if n.home.Some? {
      EvictingAccounted(Evicted(n1, id, outcome).0, n.home.value, indexOutcome);
    }
  }

  lemma {:induction false} SharingAccounted(n: Node, name: string, id: Id, app: Option<string>, copy: Option<Item>, now: nat)
    requires Accounted(n)
    ensures var end := ObjectShared(n, name, id, app, copy, now).0; Accounted(end) && end.me == n.me
  {
    hide HomeSaved, SharedIds, Upserted;
    if GetVerified(n.files, id).Some? {
      var n' := if copy.Some? then n.(files := n.files[copy.value.id := Holds(copy.value)]) else n;
      var kind := GetVerified(n.files, id).value.payload.kind;
      var e := HomeEntry(name, if copy.Some? then copy.value.id else id, kind, true, app);
      if Current(n').Ok? {
        var index := if Current(n').value.Some? then Current(n').value.value else EMPTY_HOME;
        SavingAccounted(n', index.(entries := Upserted(index.entries, e)), now);
      }
    }
  }

  lemma {:induction false} FlaggingAccounted(n: Node, name: string, flag: bool, now: nat)
    requires Accounted(n)
    ensures var end := EntryShared(n, name, flag, now).0; Accounted(end) && end.me == n.me
  {
    hide HomeSaved, SharedIds;
    if Current(n).Ok? && Current(n).value.Some? {
      var index := Current(n).value.value;
      var i := NamedEntry(index.entries, name);
      if i < |index.entries| {
        SavingAccounted(n, index.(entries := index.entries[i := index.entries[i].(shared := flag)]), now);
      }
    }
  }

  lemma {:induction false} NextAccounted(n: Node, step: Step)
    requires Accounted(n)
    ensures Accounted(Next(n, step)) && Next(n, step).me == n.me
  {
    hide HomeSaved, SharedIds, SharedByHome, EntryShared, ObjectShared, ObjectDeleted, Stored, Evicted;
    match step
    case SaveHome(index, now) => SavingAccounted(n, index, now);
    case Push(o, now) => if Verifies(o) { StoringAccounted(n, o, now); }
    case Import(o, now) => if Verifies(o) { StoringAccounted(n, o, now); }
    case Pair(items, now) => if AllVerify(items) { PairingAccounted(n, items, now); }
    case Evict(id, outcome) => EvictingAccounted(n, id, outcome);
    case SetEntryShared(name, flag, now) => FlaggingAccounted(n, name, flag, now);
    case Share(name, id, app, copy, now) => SharingAccounted(n, name, id, app, copy, now);
    case Delete(id, now, outcome, indexOutcome) => DeletingAccounted(n, id, now, outcome, indexOutcome);
    case _ =>
  }

  lemma {:induction false} RunAccounted(n: Node, steps: seq<Step>)
    requires Accounted(n)
    ensures Accounted(Run(n, steps)) && Run(n, steps).me == n.me
    decreases |steps|
  {
    if steps != [] {
      NextAccounted(n, steps[0]);
      RunAccounted(Next(n, steps[0]), steps[1..]);
    }
  }

  /**
   Over every run, removals and pairings included, and whatever the cache index held at
   start-up: it holds exactly the foreign objects imported, pushed, paired or there at
   start-up, and the others that a pairing put there or that were there at start-up, none
   evicted since. Whatever the gate hands out is one of them, or is shared by the index
   the home pointer names, or was announced or marked by hand and neither evicted nor
   unshared since.
   */
  lemma {:induction false} NothingSharedByDefault(n: Node, publicRecords: set<Id>, steps: seq<Step>, id: Id, now: nat)
    ensures var end := Run(Reopened(n, publicRecords), steps);
      && end.cache.Keys == end.admitted + end.paired
      && (forall c :: c in end.admitted ==> Foreign(n.me, c)) && (forall c :: c in end.paired ==> !Foreign(n.me, c))
      && (Provided(end, id, now).1.Some? ==>
            id in end.explicit || id in SharedByHome(end.home) || id in end.admitted || id in end.paired)
  {
    hide SharedIds, Run;
    ReopenedAccounted(n, publicRecords);
    RunAccounted(Reopened(n, publicRecords), steps);
  }

  lemma {:induction false} ReopenedAccounted(n: Node, publicRecords: set<Id>)
    ensures Accounted(Reopened(n, publicRecords))
  {
    if Current(n).Ok? { HomePointerTells(n); }
  }

  /**
   An own object that the index named by the home pointer does not share, that was not
   announced or marked by hand since it was last withdrawn, and that no pairing brought,
   is not handed out.
   */
  lemma {:induction false} OwnObjectsStayPrivate(n: Node, publicRecords: set<Id>, steps: seq<Step>, id: Id, now: nat)
    requires id.Digest? && id.payload.owner == n.me.identity
    ensures var end := Run(Reopened(n, publicRecords), steps);
      id !in end.explicit && id !in SharedByHome(end.home) && id !in end.paired ==> Provided(end, id, now).1.None?
  {
    hide Run, Provided, SharedByHome;
    NothingSharedByDefault(n, publicRecords, steps, id, now);
  }

  predicate Names(items: seq<Item>, id: Id) {
    exists i :: 0 <= i < |items| && items[i].id == id
  }

  lemma {:induction false} NamesAppend(items: seq<Item>, o: Item, id: Id)
    ensures Names(items + [o], id) <==> Names(items, id) || o.id == id
  {
    var all := items + [o];
    assert all[|items|] == o;
    if i :| 0 <= i < |items| && items[i].id == id {
      assert all[i].id == id;
    }
  }

  /** The gate hands it out because the cache index has it: sharing plays no part. */
  predicate CachedAndReadable(n: Node, id: Id) {
    id in n.cache && GetVerified(n.files, id).Some?
  }

  lemma {:induction false} TransferServes(n: Node, o: Item, now: nat, id: Id, later: nat)
    requires Verifies(o)
    ensures var after := Transferred(n, o, now);
      && (CachedAndReadable(after, id) <==> CachedAndReadable(n, id) || o.id == id)
      && (Provided(after, id, later).1.Some? <==> Provided(n, id, later).1.Some? || o.id == id)
  {
    assert o.id == id ==> GetVerified(n.files[o.id := Holds(o)], id) == Some(o);
  }

  /**
   What a pairing adds to what is handed out is exactly the objects it transfers, also
   those of the identity itself, which nobody shared: they pass the gate as cached.
   */
  lemma {:induction false} PairingServesIff(n: Node, items: seq<Item>, now: nat, id: Id, later: nat)
    requires AllVerify(items)
    ensures Provided(Paired(n, items, now), id, later).1.Some?
       <==> Provided(n, id, later).1.Some? || Names(items, id)
    ensures CachedAndReadable(Paired(n, items, now), id) <==> CachedAndReadable(n, id) || Names(items, id)
    decreases |items|
  {
    hide Provided, CachedAndReadable, Transferred, Names;
    if items == [] {
      assert !Names([], id) by { NothingNamed(id); }
    } else {
      var front, last := items[..|items| - 1], items[|items| - 1];
      PairingServesIff(n, front, now, id, later);
      assert items == front + [last];
      NamesAppend(front, last, id);
      TransferServes(Paired(n, front, now), last, now, id, later);
    }
  }

  lemma {:induction false} NothingNamed(id: Id)
    ensures !Names([], id)
  {
  }

  /** The device restarts as the identity it was given: what was transferred stays served, its own records included. */
  lemma {:induction false} PairedRecordsAreServed(
    n: Node, items: seq<Item>, now: nat, me: Signer, publicRecords: set<Id>, i: nat, later: nat)
    requires AllVerify(items) && i < |items|
    ensures var end := Reopened(Paired(n, items, now).(me := me), publicRecords);
      && Provided(end, items[i].id, later).1.Some?
      && (items[i].payload.owner == me.identity ==> items[i].id in end.paired)
  {
    hide Paired, Current, SharedIds;
    PairingServesIff(n, items, now, items[i].id, later);
  }

  // ---- what stands in the cache index without being foreign ---------------------------------------

  /** A pairing of the run transfers the object. */
  predicate TransferredIn(steps: seq<Step>, id: Id)
    decreases |steps|
  {
    steps != [] && ((steps[0].Pair? && Names(steps[0].items, id)) || TransferredIn(steps[1..], id))
  }

  lemma {:induction false} PairingAddsItems(n: Node, items: seq<Item>, now: nat, id: Id)
    ensures id in Paired(n, items, now).paired ==> id in n.paired || Names(items, id)
    decreases |items|
  {
    hide Foreign;
    if items != [] {
      var front, last := items[..|items| - 1], items[|items| - 1];
      PairingAddsItems(n, front, now, id);
      assert items == front + [last];
      NamesAppend(front, last, id);
    }
  }

  lemma {:induction false} KeepsPaired(n: Node, step: Step, id: Id)
    requires !step.Pair?
    ensures id in Next(n, step).paired ==> id in n.paired
  {
    hide SharedIds, Upserted, NamedEntry, TargetEntry, GetVerified, Current, Reconciled, WithVersion, IndexObject, Foreign;
  }

  lemma {:induction false} OnlyPairingsTransfer(n: Node, steps: seq<Step>, id: Id)
    ensures id in Run(n, steps).paired ==> id in n.paired || TransferredIn(steps, id)
    decreases |steps|
  {
    hide Names, Paired;
    if steps != [] {
      OnlyPairingsTransfer(Next(n, steps[0]), steps[1..], id);
      match steps[0]
      case Pair(items, now) => PairingAddsItems(n, items, now, id);
      case _ =>
        hide Next;
        KeepsPaired(n, steps[0], id);
    }
  }

  /**
   Over every run from a cache index of foreign objects, whatever it tracks is foreign unless
   a pairing of the run transferred it; so without pairings it is foreign throughout.
   */
  lemma {:induction false} TrackedIsForeignOrTransferred(n: Node, publicRecords: set<Id>, steps: seq<Step>, id: Id)
    requires forall c :: c in n.cache ==> Foreign(n.me, c)
    ensures id in Run(Reopened(n, publicRecords), steps).cache ==> Foreign(n.me, id) || TransferredIn(steps, id)
    ensures (forall k :: 0 <= k < |steps| ==> !steps[k].Pair?) ==> !TransferredIn(steps, id)
  {
    var start := Reopened(n, publicRecords);
    assert start.paired == {};
    hide Reopened, Run, TransferredIn;
    NothingSharedByDefault(n, publicRecords, steps, id, 0);
    OnlyPairingsTransfer(start, steps, id);
    if forall k :: 0 <= k < |steps| ==> !steps[k].Pair? {
      NoPairingNoTransfer(steps, id);
    }
  }

  lemma {:induction false} NoPairingNoTransfer(steps: seq<Step>, id: Id)
    requires forall k :: 0 <= k < |steps| ==> !steps[k].Pair?
    ensures !TransferredIn(steps, id)
    decreases |steps|
  {
    if steps != [] {
      NoPairingNoTransfer(steps[1..], id);
    }
  }
}
