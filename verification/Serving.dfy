/**
 What this node serves: the store, the cache index, the set of explicitly
 shared ids and the home index whose `shared` flags drive it, as one state with
 the runtime's operations on it.
 */
module Serving {
  import opened Prelude
  import opened Bytes
  import opened Objects
  import opened CacheIndex

  type Id = ObjectId<Content>
  type Item = Object<Content>

  /** Object data: opaque bytes, or a decoded home index. */
  datatype Content = Opaque(bytes: Octets) | Home(index: HomeIndexRecord)

  datatype HomeEntry = HomeEntry(name: string, target: Id, kind: Kind, shared: bool, app: Option<string>)

  datatype HomeIndexRecord = HomeIndexRecord(
    profile: Option<Id>, contacts: Option<Id>, entries: seq<HomeEntry>, version: nat)

  /**
   `home` is what the (owner, "home") pointer names. The last three fields are
   history: ids announced or marked by hand and not withdrawn since; foreign ids
   admitted by import, push, pairing or at start-up and not evicted since; and ids
   a pairing, or an earlier one by start-up, put into the cache index though they
   are not foreign, and not evicted since.
   */
  datatype Node = Node(
    me: Signer, files: Files<Content>, cache: Entries<Content>, shared: set<Id>, home: Option<Id>,
    explicit: set<Id>, admitted: set<Id>, paired: set<Id>)

  datatype Refusal =
    | Missing | Invalid | AlreadyStored | HomeUnreadable | NoHomeIndex | NoSuchEntry
    | NotOwned | SystemRecord | DeleteFailed

  type Outcome<+T> = Result<T, Refusal>

  // ---- the home index ----------------------------------------------------------------

  function SharedIds(index: Option<HomeIndexRecord>): (ids: set<Id>)
    ensures index.None? ==> ids == {}
    ensures index.Some? ==> forall id :: id in ids <==>
      exists i :: 0 <= i < |index.value.entries| && index.value.entries[i].shared && index.value.entries[i].target == id
  {
    if index.None? then {}
    else set i | 0 <= i < |index.value.entries| && index.value.entries[i].shared :: index.value.entries[i].target
  }

  /** No pointer reads as no index; a pointer to anything but a stored index is an error. */
  function LoadHome(files: Files<Content>, home: Option<Id>): Outcome<Option<HomeIndexRecord>> {
    match home
    case None => Ok(None)
    case Some(id) =>
      match GetVerified(files, id)
      case None => Err(HomeUnreadable)
      case Some(o) => if o.payload.data.Home? then Ok(Some(o.payload.data.index)) else Err(HomeUnreadable)
  }

  function Current(n: Node): Outcome<Option<HomeIndexRecord>> {
    LoadHome(n.files, n.home)
  }

  /** What the home pointer shares: its id is the digest of the index it names. */
  function SharedByHome(home: Option<Id>): set<Id> {
    if home.Some? && home.value.Digest? && home.value.payload.data.Home?
    then SharedIds(Some(home.value.payload.data.index))
    else {}
  }

  function NamedEntry(entries: seq<HomeEntry>, name: string): (i: nat)
    ensures i <= |entries|
    ensures i < |entries| ==> entries[i].name == name
    ensures forall j :: 0 <= j < i ==> entries[j].name != name
  {
    if entries == [] || entries[0].name == name then 0 else 1 + NamedEntry(entries[1..], name)
  }

  function TargetEntry(entries: seq<HomeEntry>, id: Id): (i: nat)
    ensures i <= |entries|
    ensures i < |entries| ==> entries[i].target == id
    ensures forall j :: 0 <= j < i ==> entries[j].target != id
  {
    if entries == [] || entries[0].target == id then 0 else 1 + TargetEntry(entries[1..], id)
  }

  function IndexObject(me: Signer, index: HomeIndexRecord, now: nat): Item {
    NewObject(me, Home(index), |index.entries|, HomeIndex, now)
  }

  /** The diff of the two versions' shared ids applied to the serving set. */
  function Reconciled(shared: set<Id>, before: set<Id>, after: set<Id>): set<Id> {
    shared + (after - before) - (before - after)
  }

  function WithVersion(index: HomeIndexRecord, previous: Option<HomeIndexRecord>): HomeIndexRecord {
    index.(version := if previous.Some? then previous.value.version + 1 else 1)
  }

  // ---- the operations as functions on the state ----------------------------------------

  function Announced(n: Node, id: Id): Node {
    n.(shared := n.shared + {id}, explicit := n.explicit + {id})
  }

  function HomeSaved(n: Node, index: HomeIndexRecord, now: nat): (Node, Outcome<Id>) {
    match Current(n)
    case Err(e) => (n, Err(e))
    case Ok(previous) =>
      var index' := WithVersion(index, previous);
      var o := IndexObject(n.me, index', now);
      var before, after := SharedIds(previous), SharedIds(Some(index'));
      (n.(files := n.files[o.id := Holds(o)], home := Some(o.id),
          shared := Reconciled(n.shared, before, after), explicit := n.explicit - (before - after)),
       Ok(o.id))
  }

  function EntryShared(n: Node, name: string, shared: bool, now: nat): (Node, Outcome<Id>) {
    match Current(n)
    case Err(e) => (n, Err(e))
    case Ok(None) => (n, Err(NoHomeIndex))
    case Ok(Some(index)) =>
      var i := NamedEntry(index.entries, name);
      if i == |index.entries| then (n, Err(NoSuchEntry))
      else HomeSaved(n, index.(entries := index.entries[i := index.entries[i].(shared := shared)]), now)
  }

  const EMPTY_HOME := HomeIndexRecord(None, None, [], 0)

  function Upserted(entries: seq<HomeEntry>, e: HomeEntry): seq<HomeEntry> {
    var i := NamedEntry(entries, e.name);
    if i == |entries| then entries + [e] else entries[i := e]
  }

  /** `copy` is the re-sealed object made for other people, when there are any. */
  function ObjectShared(
    n: Node, name: string, id: Id, app: Option<string>, copy: Option<Item>, now: nat): (Node, Outcome<Id>)
  {
    match GetVerified(n.files, id)
    case None => (n, Err(Missing))
    case Some(o) =>
      var n' := if copy.Some? then n.(files := n.files[copy.value.id := Holds(copy.value)]) else n;
      var target := if copy.Some? then copy.value.id else id;
      match Current(n')
      case Err(e) => (n', Err(e))
      case Ok(current) =>
        var index := if current.Some? then current.value else EMPTY_HOME;
        HomeSaved(n', index.(entries := Upserted(index.entries, HomeEntry(name, target, o.payload.kind, true, app))), now)
  }

  function Stored(n: Node, o: Item, now: nat): Node {
    var n' := n.(files := n.files[o.id := Holds(o)]);
    if o.payload.owner == n.me.identity then n'
    else n'.(cache := n.cache[o.id := now], admitted := n.admitted + {o.id})
  }

  /** A peer pushes an object into our store. */
  function Pushed(n: Node, o: Item, now: nat): (Node, Outcome<()>) {
    if !Verifies(o) then (n, Err(Invalid)) else (Stored(n, o, now), Ok(()))
  }

  /** We import a fetched object. */
  function Imported(n: Node, o: Item, now: nat): (Node, Outcome<()>) {
    if o.id in n.files then (n, Err(AlreadyStored)) else Pushed(n, o, now)
  }

  /** `id` names an object of someone else: an id is the digest of a payload, which names its owner. */
  predicate Foreign(me: Signer, id: Id) {
    id.Digest? && id.payload.owner != me.identity
  }

  /** A pairing stores a transferred object and marks it cached, whoever owns it. */
  function Transferred(n: Node, o: Item, now: nat): Node {
    n.(files := n.files[o.id := Holds(o)], cache := n.cache[o.id := now],
       admitted := n.admitted + if Foreign(n.me, o.id) then {o.id} else {},
       paired := n.paired + if Foreign(n.me, o.id) then {} else {o.id})
  }

  function Paired(n: Node, items: seq<Item>, now: nat): Node {
    if items == [] then n else Transferred(Paired(n, items[..|items| - 1], now), items[|items| - 1], now)
  }

  /** A local put: owned, neither cached nor shared. */
  function PutOwn(n: Node, data: Content, kind: Kind, now: nat): Node {
    var o := NewObject(n.me, data, 0, kind, now);
    n.(files := n.files[o.id := Holds(o)])
  }

  /** The serving gate: what the object-exchange protocol hands out. */
  function Provided(n: Node, id: Id, now: nat): (Node, Option<Item>) {
    match GetVerified(n.files, id)
    case None => (n, None)
    case Some(o) =>
      if id in n.cache then (n.(cache := n.cache[id := now]), Some(o))
      else if id in n.shared then (n, Some(o))
      else (n, None)
  }

  function Evicted(n: Node, id: Id, outcome: DeleteOutcome): (Node, Outcome<()>) {
    var n' := if outcome.Refused? then n else n.(files := n.files - {id});
    if !outcome.Deleted? then (n', Err(DeleteFailed))
    else
      (n'.(cache := n.cache - {id}, shared := n.shared - {id},
           explicit := n.explicit - {id}, admitted := n.admitted - {id}, paired := n.paired - {id}),
       Ok(()))
  }

  function Done(r: Outcome<Id>): Outcome<()> {
    match r
    case Ok(_) => Ok(())
    case Err(e) => Err(e)
  }

  /** Taking the object out of the home index, when it is listed there. */
  function Unlisted(n: Node, id: Id, now: nat): (Node, Outcome<()>) {
    match Current(n)
    case Err(e) => (n, Err(e))
    case Ok(None) => (n, Ok(()))
    case Ok(Some(index)) =>
      if index.profile == Some(id) || index.contacts == Some(id) then (n, Err(SystemRecord))
      else
        var i := TargetEntry(index.entries, id);
        if i == |index.entries| then (n, Ok(()))
        else
          var (n', saved) := HomeSaved(n, index.(entries := index.entries[..i] + index.entries[i + 1..]), now);
          (n', Done(saved))
  }

  /** Deleting an owned blob or app; the home index that was current before is evicted too. */
  function ObjectDeleted(
    n: Node, id: Id, now: nat, outcome: DeleteOutcome, indexOutcome: DeleteOutcome): (Node, Outcome<()>)
  {
    match GetVerified(n.files, id)
    case None => (n, Err(Missing))
    case Some(o) =>
      if o.payload.owner != n.me.identity then (n, Err(NotOwned))
      else if !o.payload.kind.Blob? && !o.payload.kind.AppManifest? then (n, Err(SystemRecord))
      else
        var (n1, unlisted) := Unlisted(n, id, now);
        if unlisted.Err? then (n1, unlisted)
        else
          var (n2, gone) := Evicted(n1, id, outcome);
          if gone.Err? then (n2, gone)
          else if n.home.Some? && n.home.value != id then (Evicted(n2, n.home.value, indexOutcome).0, Ok(()))
          else (n2, Ok(()))
  }

  /** Opening: nothing is shared but what the stored home index lists and the public records announced. */
  function Reopened(n: Node, publicRecords: set<Id>): Node {
    var listed := match Current(n) case Ok(index) => SharedIds(index) case Err(_) => {};
    n.(shared := listed + publicRecords, explicit := publicRecords,
       admitted := (set id | id in n.cache && Foreign(n.me, id)),
       paired := (set id | id in n.cache && !Foreign(n.me, id)))
  }
}
