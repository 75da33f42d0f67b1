/** What storing, obtaining, opening and concatenating objects give, field by field and refusal by refusal. */
module SealingAnswers {
  import opened Prelude
  import opened Bytes
  import opened Crypto
  import opened Envelope
  import opened Objects
  import opened Sealing
  import opened Serving
  import opened Sharing

  /** An object verifies if its id is the digest of its payload and the key it carries signed that; it is read under its own id. */
  lemma {:induction false} StoredIff<D>(files: Files<D>, id: ObjectId<D>, o: Object<D>)
    ensures Verifies(o) <==> o == Object(Digest(o.payload), o.payload, o.publicKey, Signed(o.publicKey, o.payload))
    ensures GetVerified(files, id) == Some(o) <==> id in files && files[id] == Holds(o) && o.id == id && Verifies(o)
  {
  }

  /** Who made a new object, when, and of what. */
  lemma {:induction false} NewObjectMeans<D>(me: Signer, data: D, size: nat, kind: Kind, now: nat)
    ensures var o := NewObject(me, data, size, kind, now);
      && o.payload.owner == me.identity && o.payload.createdAt == now && o.payload.size == size
      && o.payload.kind == kind && o.payload.data == data
      && o.publicKey == me.publicKey && Verifies(o)
  {
  }

  /** A sealed object is made like any, of the envelope but with the size of what is in it. */
  lemma {:induction false} SealedObjectMeans(
    c: Suite, me: Signer, secret: Key, data: Octets, kind: Kind, recipients: seq<Key>, draws: Draws, now: nat)
    requires |recipients| < |draws.slots|
    ensures var o := SealedObject(c, me, secret, data, kind, recipients, draws, now);
      && o.payload.owner == me.identity && o.payload.createdAt == now && o.payload.size == |data|
      && o.payload.kind == kind && o.publicKey == me.publicKey && Verifies(o)
      && o.payload.data == Sealed(c, Recipients(c.publicKey(secret), recipients), draws, data)
  {
    hide Sealed;
  }

  /** Longer than an envelope's header, and with the four octets an envelope starts with. */
  lemma {:induction false} EnvelopeShapeMeans(data: Octets)
    ensures IsEnvelope(data)
       <==> |data| > 40 && data[0] == 0x43 && data[1] == 0x4e && data[2] == 0x50 && data[3] == 0x31
  {
  }

  /** Opening leaves cleartext alone, and of an envelope replaces the data, and only that, by what is in it. */
  lemma {:induction false} OpenedObjectMeans(c: Suite, secret: Key, o: DataObject)
    ensures var r := OpenedObject(c, secret, o);
      && (!IsEnvelope(o.payload.data) ==> r == Ok(o))
      && (IsEnvelope(o.payload.data) && Opened(c, secret, o.payload.data).Err? ==>
            r == Err(Opened(c, secret, o.payload.data).error))
      && (IsEnvelope(o.payload.data) && Opened(c, secret, o.payload.data).Ok? ==>
            && r.Ok? && r.value.payload.data == Opened(c, secret, o.payload.data).value
            && r.value.payload.owner == o.payload.owner && r.value.payload.createdAt == o.payload.createdAt
            && r.value.payload.size == o.payload.size && r.value.payload.kind == o.payload.kind
            && r.value.id == o.id && r.value.publicKey == o.publicKey && r.value.signature == o.signature)
  {
    hide Opened, IsEnvelope;
  }

  /** What is held is had; else the answer is imported, and refused if there is none, if its id is taken, or if it is not intact. */
  lemma {:induction false} ObtainingMeans(
    files: Store, id: ObjectId<Octets>, held: DataObject, answer: Option<DataObject>)
    ensures id in files && files[id] == Holds(held) && held.id == id && Verifies(held) ==>
      Obtained(files, id, answer) == (files, Ok(held))
    ensures GetVerified(files, id).None? ==>
      var (after, r) := Obtained(files, id, answer);
      && (r == Err(NoProvider) <==> answer == None)
      && (r == Err(AlreadyExists) <==> answer.Some? && answer.value.id in files)
      && (r == Err(InvalidObject) <==> answer.Some? && answer.value.id !in files && !Verifies(answer.value))
      && (r.Ok? <==> answer.Some? && answer.value.id !in files && Verifies(answer.value))
      && (r.Ok? ==> r == Ok(answer.value) && after == files[answer.value.id := Holds(answer.value)])
      && (r.Err? ==> after == files)
  {
  }

  /** Reading obtains and then opens; an object that does not open stays in the store. */
  lemma {:induction false} ReadingMeans(
    c: Suite, secret: Key, files: Store, id: ObjectId<Octets>, answer: Option<DataObject>)
    ensures var (after, r) := Read(c, secret, files, id, answer);
      && after == Obtained(files, id, answer).0
      && match Obtained(files, id, answer).1
         case Err(e) => r == Err(e)
         case Ok(o) =>
           match OpenedObject(c, secret, o)
           case Ok(plain) => r == Ok(plain)
           case Err(e) => r == Err(Unreadable(e))
  {
    hide OpenedObject, Obtained;
  }

  /** One input concatenates to what is read of it; together with the splitting law that is the whole of concatenation. */
  lemma {:induction false} ConcatOfOne(c: Suite, secret: Key, files: Store, input: Input)
    ensures ConcatOf(c, secret, files, []) == (files, Ok([]))
    ensures var (after, r) := Read(c, secret, files, input.id, input.answer);
      ConcatOf(c, secret, files, [input])
      == (after, match r case Ok(o) => Ok(o.payload.data) case Err(e) => Err(e))
  {
    hide Read;
    assert [input][..0] == [];
    var (after, r) := Read(c, secret, files, input.id, input.answer);
    assert r.Ok? ==> [] + r.value.payload.data == r.value.payload.data;
  }

  // ---- sharing -----------------------------------------------------------------------------------

  /** What is encrypted of an object for others: what it opens to, or its own bytes. */
  lemma {:induction false} PlainMeans(k: Sharer, held: Item)
    ensures var bytes := match held.payload.data case Opaque(b) => b case Home(index) => k.encode(index);
      PlainOf(k, held) == if IsEnvelope(bytes) then Opened(k.c, k.secret, bytes) else Ok(bytes)
  {
    hide Opened, IsEnvelope;
  }

  /** The copy that is shared: none without recipients, and else a new sealed object of the same kind. */
  lemma {:induction false} CopyMeans(
    k: Sharer, me: Signer, held: Item, recipients: seq<Key>, draws: Draws, now: nat)
    requires |recipients| < |draws.slots|
    ensures var r := CopyFor(k, me, held, recipients, draws, now);
      && (recipients == [] ==> r == Ok(None))
      && (recipients != [] ==>
            match PlainOf(k, held)
            case Err(e) => r == Err(e)
            case Ok(plain) =>
              && r.Ok? && r.value.Some?
              && var o := r.value.value;
                 && o.payload.owner == me.identity && o.payload.createdAt == now && o.payload.size == |plain|
                 && o.payload.kind == held.payload.kind && o.publicKey == me.publicKey && Verifies(o)
                 && o.payload.data
                    == Opaque(Sealed(k.c, Recipients(k.c.publicKey(k.secret), recipients), draws, plain)))
  {
    hide Sealed, PlainOf;
  }

  /** Sharing an object not held, or one that does not open, changes nothing; else the copy is put in place. */
  lemma {:induction false} SharingForMeans(
    k: Sharer, n: Node, name: string, id: Id, app: Option<string>, recipients: seq<Key>, draws: Draws, now: nat)
    requires |recipients| < |draws.slots|
    ensures var (end, r) := SharedFor(k, n, name, id, app, recipients, draws, now);
      match GetVerified(n.files, id)
      case None => end == n && r == Err(NotShared(Missing))
      case Some(held) =>
        match CopyFor(k, n.me, held, recipients, draws, now)
        case Err(e) => end == n && r == Err(Unopened(e))
        case Ok(copy) =>
          var (end', r') := ObjectShared(n, name, id, app, copy, now);
          end == end' && match r' case Ok(index) => r == Ok(index) case Err(e) => r == Err(NotShared(e))
  {
    hide ObjectShared, CopyFor, GetVerified;
  }
}
