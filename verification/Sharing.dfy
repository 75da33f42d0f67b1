/**
 Sharing with other people, end to end: the object is opened, sealed again for them and
 stored, and the home index that is published names that copy.
 */
module Sharing {
  import opened Prelude
  import opened Bytes
  import opened Crypto
  import opened Envelope
  import opened Objects
  import opened Sealing
  import opened Serving
  import opened ServingLaws
  import ServingRuntime

  datatype ShareError = Unopened(error: EnvelopeError) | NotShared(refusal: Refusal)

  /** What is stored of an object's data; `encode` is the serialisation of a home index. */
  function BytesOf(encode: HomeIndexRecord -> Octets, content: Content): Octets {
    match content
    case Opaque(bytes) => bytes
    case Home(index) => encode(index)
  }

  /** An object as its readers get it: the same metadata over its bytes. */
  function Lowered(encode: HomeIndexRecord -> Octets, o: Item): DataObject {
    var p := o.payload;
    Resealed(o.publicKey, Payload(p.owner, p.createdAt, p.size, p.kind, BytesOf(encode, p.data)))
  }

  function Lifted(o: DataObject): Item {
    var p := o.payload;
    Resealed(o.publicKey, Payload(p.owner, p.createdAt, p.size, p.kind, Opaque(p.data)))
  }

  /** The sharer's key and how home indexes are encoded. */
  datatype Sharer = Sharer(c: Suite, secret: Key, encode: HomeIndexRecord -> Octets)

  function PlainOf(k: Sharer, held: Item): Opening {
    match OpenedObject(k.c, k.secret, Lowered(k.encode, held))
    case Ok(o) => Ok(o.payload.data)
    case Err(e) => Err(e)
  }

  /** The copy for the recipients: none is needed when there are none. */
  function CopyFor(k: Sharer, me: Signer, held: Item, recipients: seq<Key>, draws: Draws, now: nat)
    : Result<Option<Item>, EnvelopeError>
    requires |recipients| < |draws.slots|
  {
    if recipients == [] then Ok(None)
    else
      match PlainOf(k, held)
      case Err(e) => Err(e)
      case Ok(plain) => Ok(Some(Lifted(SealedObject(k.c, me, k.secret, plain, held.payload.kind, recipients, draws, now))))
  }

  function SharedFor(
    k: Sharer, n: Node, name: string, id: Id, app: Option<string>, recipients: seq<Key>, draws: Draws, now: nat)
    : (Node, Result<Id, ShareError>)
    requires |recipients| < |draws.slots|
  {
    match GetVerified(n.files, id)
    case None => (n, Err(NotShared(Missing)))
    case Some(held) =>
      match CopyFor(k, n.me, held, recipients, draws, now)
      case Err(e) => (n, Err(Unopened(e)))
      case Ok(copy) =>
        var (n', r) := ObjectShared(n, name, id, app, copy, now);
        (n', match r case Ok(index) => Ok(index) case Err(e) => Err(NotShared(e)))
  }

  method ShareObjectFor(
    r: ServingRuntime.Runtime, k: Sharer, name: string, id: Id, app: Option<string>, recipients: seq<Key>, draws: Draws,
    now: nat)
    returns (shared: Result<Id, ShareError>)
    requires |recipients| < |draws.slots|
    modifies r, r.storage
    ensures (r.View(), shared) == SharedFor(k, old(r.View()), name, id, app, recipients, draws, now)
  {
    hide ObjectShared, Opened, Sealed, IsEnvelope;
    var held := GetVerified(r.storage.files, id);
    if held.None? {
      return Err(NotShared(Missing));
    }
    var copy: Option<Item> := None;
    if recipients != [] {
      var plain := DecryptIfEncrypted(k.c, k.secret, BytesOf(k.encode, held.value.payload.data));
      if plain.Err? {
        return Err(Unopened(plain.error));
      }
      var envelope := EncryptForRecipients(k.c, k.secret, plain.value, recipients, draws);
      var p := held.value.payload;
      copy := Some(NewObject(r.me, Opaque(envelope), |plain.value|, p.kind, now));
    }
    var saved := r.ShareObjectFor(name, id, app, copy, now);
    match saved {
      case Ok(index) => return Ok(index);
      case Err(e) => return Err(NotShared(e));
    }
  }

  // ---- it reaches exactly the people it is for ---------------------------------------------------

  /** The current home index shares `target` under `name`, first of that name. */
  predicate ListsAs(n: Node, name: string, target: Id) {
    && Current(n).Ok? && Current(n).value.Some?
    && var entries := Current(n).value.value.entries;
       var i := NamedEntry(entries, name);
       i < |entries| && entries[i].target == target && entries[i].shared
  }

  lemma {:induction false} UpsertedFirst(entries: seq<HomeEntry>, e: HomeEntry)
    ensures var after, i := Upserted(entries, e), NamedEntry(entries, e.name);
      i < |after| && after[i] == e && NamedEntry(after, e.name) == i
  {
    var after, i := Upserted(entries, e), NamedEntry(entries, e.name);
    var j := NamedEntry(after, e.name);
    assert after[i] == e;
    assert j <= i by { FirstIsFirst(after, e.name, i); }
    assert forall m :: 0 <= m < i ==> after[m] == entries[m];
  }

  lemma {:induction false} FirstIsFirst(entries: seq<HomeEntry>, name: string, i: nat)
    requires i < |entries| && entries[i].name == name
    ensures NamedEntry(entries, name) <= i
  {
  }

  /** Sharing a verifying copy lists it in the current index, serves it, and leaves it as it is. */
  lemma {:induction false} CopyIsListedAndServed(
    n: Node, name: string, id: Id, app: Option<string>, copy: Item, now: nat, later: nat)
    requires Refines(n) && GetVerified(n.files, id).Some? && Verifies(copy) && copy.payload.data.Opaque?
    ensures var (end, r) := ObjectShared(n, name, id, app, Some(copy), now);
      && r.Ok? && Refines(end) && ListsAs(end, name, copy.id) && copy.id in end.shared
      && Provided(end, copy.id, later).1 == Some(copy)
  {
    hide SharedIds, Upserted, NamedEntry, HomeSaved;
    SharingRefines(n, name, id, app, Some(copy), now);
    StoringKeepsHome(n.files, n.home, copy);
    var n' := n.(files := n.files[copy.id := Holds(copy)]);
    var index := if Current(n').value.Some? then Current(n').value.value else EMPTY_HOME;
    var e := HomeEntry(name, copy.id, GetVerified(n.files, id).value.payload.kind, true, app);
    var index' := index.(entries := Upserted(index.entries, e));
    UpsertedFirst(index.entries, e);
    SavingRefines(n', index', now);
    assert ObjectShared(n, name, id, app, Some(copy), now) == HomeSaved(n', index', now);
    SavingKeepsFiles(n', index', now, copy);
  }

  lemma {:induction false} SavingKeepsFiles(n: Node, index: HomeIndexRecord, now: nat, o: Item)
    requires GetVerified(n.files, o.id) == Some(o) && o.payload.data.Opaque?
    ensures GetVerified(HomeSaved(n, index, now).0.files, o.id) == Some(o)
  {
    hide SharedIds;
  }

  /**
   Sharing with recipients always succeeds on an object one can open; afterwards the current
   home index names, under that name, a copy this node serves, which each recipient and the
   sharer open to what the sharer reads, and nobody else opens.
   */
  lemma {:induction false} SharedReachesExactlyItsRecipients(
    k: Sharer, n: Node, reader: Key, name: string, id: Id, app: Option<string>, recipients: seq<Key>, draws: Draws,
    now: nat, later: nat)
    requires Refines(n) && GetVerified(n.files, id).Some? && recipients != [] && |recipients| < |draws.slots|
    requires var plain := PlainOf(k, GetVerified(n.files, id).value);
      plain.Ok? && Ideal(k.c) && Fresh(k.c, draws, plain.value)
    requires |Recipients(k.c.publicKey(k.secret), recipients)| <= 65535
    requires k.c.world(k.c.publicKey(k.secret)) && k.c.world(k.c.publicKey(reader))
    requires forall p :: p in recipients ==> k.c.world(p)
    ensures var held := GetVerified(n.files, id).value;
      var (end, r) := SharedFor(k, n, name, id, app, recipients, draws, now);
      && r.Ok? && Refines(end)
      && CopyFor(k, n.me, held, recipients, draws, now).Ok? && CopyFor(k, n.me, held, recipients, draws, now).value.Some?
      && var copy := CopyFor(k, n.me, held, recipients, draws, now).value.value;
         && ListsAs(end, name, copy.id) && Provided(end, copy.id, later).1 == Some(copy)
         && var got := OpenedObject(k.c, reader, Lowered(k.encode, copy));
            if k.c.publicKey(reader) == k.c.publicKey(k.secret) || k.c.publicKey(reader) in recipients
            then got.Ok? && got.value.payload.data == PlainOf(k, held).value
            else got == Err(NoMatchingRecipient)
  {
    hide Ideal, Fresh, Opened, Sealed, IsEnvelope, ObjectShared, Refines, ListsAs, Provided, Recipients;
    var held := GetVerified(n.files, id).value;
    var plain := PlainOf(k, held).value;
    var sealed := SealedObject(k.c, n.me, k.secret, plain, held.payload.kind, recipients, draws, now);
    SealedObjectOpens(k.c, n.me, k.secret, reader, plain, held.payload.kind, recipients, draws, now);
    assert Lowered(k.encode, Lifted(sealed)) == sealed;
    CopyIsListedAndServed(n, name, id, app, Lifted(sealed), now, later);
  }
}
