/**
 The runtime's sealing paths: storing encrypted by default, reading back,
 sharing a copy with more recipients, concatenating, and the public exception.
 Object data is octets here; other fields of the runtime are in `Serving`.
 */
module Sealing {
  import opened Prelude
  import opened Bytes
  import opened Crypto
  import opened Envelope
  import opened Objects

  type DataObject = Object<Octets>

  datatype ReadError =
    | NoInputs
    | NoProvider
    | AlreadyExists
    | InvalidObject
    | Unreadable(error: EnvelopeError)

  /** `object` with its payload decrypted for `secret`; cleartext passes through. */
  function OpenedObject(c: Suite, secret: Key, o: DataObject): Result<DataObject, EnvelopeError> {
    if !IsEnvelope(o.payload.data) then Ok(o)
    else
      match Opened(c, secret, o.payload.data)
      case Ok(plaintext) => Ok(o.(payload := o.payload.(data := plaintext)))
      case Err(e) => Err(e)
  }

  /** The object stored for `data`: metadata from the plaintext, id and signature over the envelope. */
  function SealedObject(
    c: Suite, me: Signer, secret: Key, data: Octets, kind: Kind, recipients: seq<Key>, draws: Draws, now: nat)
    : DataObject
    requires |recipients| < |draws.slots|
  {
    var envelope := Sealed(c, Recipients(c.publicKey(secret), recipients), draws, data);
    Resealed(me.publicKey, Payload(me.identity, now, |data|, kind, envelope))
  }

  type Store = Files<Octets>

  /**
   An object held, or the first one a peer answers with; that one is imported, which
   verifies it but does not compare its id with the one asked for.
   */
  function Obtained(files: Store, id: ObjectId<Octets>, answer: Option<DataObject>)
    : (Store, Result<DataObject, ReadError>)
  {
    var held := GetVerified(files, id);
    if held.Some? then (files, Ok(held.value))
    else if answer.None? then (files, Err(NoProvider))
    else if answer.value.id in files then (files, Err(AlreadyExists))
    else if !Verifies(answer.value) then (files, Err(InvalidObject))
    else (files[answer.value.id := Holds(answer.value)], Ok(answer.value))
  }

  /** What this identity reads for an id. */
  function Read(c: Suite, secret: Key, files: Store, id: ObjectId<Octets>, answer: Option<DataObject>)
    : (Store, Result<DataObject, ReadError>)
  {
    var (files', found) := Obtained(files, id, answer);
    match found
    case Err(e) => (files', Err(e))
    case Ok(o) =>
      match OpenedObject(c, secret, o)
      case Ok(plain) => (files', Ok(plain))
      case Err(e) => (files', Err(Unreadable(e)))
  }

  /** One input of a concatenation: what the network answers matters only for an object not held. */
  datatype Input = Input(id: ObjectId<Octets>, answer: Option<DataObject>)

  /** The plaintexts of the inputs end to end, or the first failure; what was fetched on the way stays. */
  function ConcatOf(c: Suite, secret: Key, files: Store, inputs: seq<Input>): (Store, Result<Octets, ReadError>) {
    if inputs == [] then (files, Ok([]))
    else
      var (before, data) := ConcatOf(c, secret, files, inputs[..|inputs| - 1]);
      match data
      case Err(e) => (before, Err(e))
      case Ok(octets) =>
        var last := inputs[|inputs| - 1];
        var (after, plain) := Read(c, secret, before, last.id, last.answer);
        match plain
        case Err(e) => (after, Err(e))
        case Ok(o) => (after, Ok(octets + o.payload.data))
  }

  class Runtime {
    const c: Suite
    const me: Signer
    const secret: Key
    const storage: Storage<Octets>
    var announced: set<ObjectId<Octets>>

    constructor (c: Suite, me: Signer, secret: Key, storage: Storage<Octets>)
      ensures this.c == c && this.me == me && this.secret == secret && this.storage == storage
      ensures announced == {}
    {
      this.c, this.me, this.secret, this.storage := c, me, secret, storage;
      announced := {};
    }

    method OpenObject(o: DataObject) returns (r: Result<DataObject, EnvelopeError>)
      ensures r == OpenedObject(c, secret, o)
    {
      if !IsEnvelope(o.payload.data) {
        return Ok(o);
      }
      var plaintext := DecryptEnvelope(c, secret, o.payload.data);
      if plaintext.Err? {
        return Err(plaintext.error);
      }
      return Ok(o.(payload := o.payload.(data := plaintext.value)));
    }

    /** Recomputes id and signature over the mutated payload, then stores. */
    method Reseal(o: DataObject) returns (sealed: DataObject)
      modifies storage
      ensures sealed == Object(Digest(o.payload), o.payload, o.publicKey, Signed(me.publicKey, o.payload))
      ensures storage.files == if Verifies(sealed) then old(storage.files)[sealed.id := Holds(sealed)]
                               else old(storage.files)
    {
      sealed := o.(id := Digest(o.payload));
      sealed := sealed.(signature := Signed(me.publicKey, o.payload));
      var _ := storage.PutVerified(sealed);
    }

    method PutObjectFor(data: Octets, kind: Kind, recipients: seq<Key>, draws: Draws, now: nat)
      returns (o: DataObject)
      requires |recipients| < |draws.slots|
      modifies storage
      ensures o == SealedObject(c, me, secret, data, kind, recipients, draws, now)
      ensures storage.files == old(storage.files)[o.id := Holds(o)]
    {
      o := NewObject(me, data, |data|, kind, now);
      var envelope := EncryptForRecipients(c, secret, o.payload.data, recipients, draws);
      o := o.(payload := o.payload.(data := envelope));
      o := Reseal(o);
    }

    method PutObjectPublic(data: Octets, kind: Kind, now: nat) returns (o: DataObject)
      modifies storage
      ensures o == NewObject(me, data, |data|, kind, now)
      ensures storage.files == old(storage.files)[o.id := Holds(o)]
    {
      o := NewObject(me, data, |data|, kind, now);
      var _ := storage.PutVerified(o);
    }

    method Obtain(id: ObjectId<Octets>, answer: Option<DataObject>) returns (r: Result<DataObject, ReadError>)
      modifies storage
      ensures (storage.files, r) == Obtained(old(storage.files), id, answer)
    {
      var held := GetVerified(storage.files, id);
      if held.Some? {
        return Ok(held.value);
      }
      if answer.None? {
        return Err(NoProvider);
      }
      if answer.value.id in storage.files {
        return Err(AlreadyExists);
      }
      var stored := storage.PutVerified(answer.value);
      if !stored {
        return Err(InvalidObject);
      }
      return Ok(answer.value);
    }

    method Get(id: ObjectId<Octets>, answer: Option<DataObject>) returns (r: Result<DataObject, ReadError>)
      modifies storage
      ensures (storage.files, r) == Read(c, secret, old(storage.files), id, answer)
    {
      var found := Obtain(id, answer);
      if found.Err? {
        return found;
      }
      var plain := OpenObject(found.value);
      match plain {
        case Ok(o) => return Ok(o);
        case Err(e) => return Err(Unreadable(e));
      }
    }

    /**
     The copy that sharing publishes. Without recipients it is the object
     itself; otherwise it is plains and sealed again for the wider circle.
     */
    method ShareCopy(id: ObjectId<Octets>, recipients: seq<Key>, draws: Draws, now: nat)
      returns (r: Result<ObjectId<Octets>, ReadError>)
      requires |recipients| < |draws.slots|
      modifies storage
      ensures var held := GetVerified(old(storage.files), id);
        if held.None? then r == Err(NoProvider) && storage.files == old(storage.files)
        else if recipients == [] then r == Ok(id) && storage.files == old(storage.files)
        else match OpenedObject(c, secret, held.value)
             case Err(e) => r == Err(Unreadable(e)) && storage.files == old(storage.files)
             case Ok(o) =>
               var copy := SealedObject(c, me, secret, o.payload.data, o.payload.kind, recipients, draws, now);
               r == Ok(copy.id) && storage.files == old(storage.files)[copy.id := Holds(copy)]
    {
      var held := GetVerified(storage.files, id);
      if held.None? {
        return Err(NoProvider);
      }
      if recipients == [] {
        return Ok(id);
      }
      var plain := OpenObject(held.value);
      if plain.Err? {
        return Err(Unreadable(plain.error));
      }
      var copy := PutObjectFor(plain.value.payload.data, held.value.payload.kind, recipients, draws, now);
      return Ok(copy.id);
    }

    /** Opens each object in turn, fetched if need be, and stores their concatenation in the clear. */
    method ConcatObjects(inputs: seq<Input>, now: nat) returns (r: Result<ObjectId<Octets>, ReadError>)
      modifies this, storage
      ensures inputs == [] ==> r == Err(NoInputs) && storage.files == old(storage.files) && announced == old(announced)
      ensures inputs != [] ==>
        var (files, data) := ConcatOf(c, secret, old(storage.files), inputs);
        match data
        case Err(e) => r == Err(e) && storage.files == files && announced == old(announced)
        case Ok(octets) =>
          var o := NewObject(me, octets, |octets|, Blob, now);
          r == Ok(o.id) && storage.files == files[o.id := Holds(o)] && announced == old(announced) + {o.id}
    {
      if inputs == [] {
        return Err(NoInputs);
      }
      hide Read;
      var data: Octets := [];
      for i := 0 to |inputs|
        invariant announced == old(announced)
        invariant ConcatOf(c, secret, old(storage.files), inputs[..i]) == (storage.files, Ok(data))
      {
        assert inputs[..i + 1][..i] == inputs[..i];
        var plain := Get(inputs[i].id, inputs[i].answer);
        if plain.Err? {
          FailurePersists(c, secret, old(storage.files), inputs, i + 1);
          return Err(plain.error);
        }
        data := data + plain.value.payload.data;
      }
      assert inputs[..|inputs|] == inputs;
      var o := NewObject(me, data, |data|, Blob, now);
      var _ := storage.PutVerified(o);
      announced := announced + {o.id};
      return Ok(o.id);
    }
  }

  lemma {:induction false} FailurePersists(c: Suite, secret: Key, files: Store, inputs: seq<Input>, i: nat)
    requires i <= |inputs| && ConcatOf(c, secret, files, inputs[..i]).1.Err?
    ensures ConcatOf(c, secret, files, inputs) == ConcatOf(c, secret, files, inputs[..i])
  {
    hide Read;
    if i == |inputs| {
      assert inputs[..i] == inputs;
    } else {
      assert inputs[..|inputs| - 1][..i] == inputs[..i];
      FailurePersists(c, secret, files, inputs[..|inputs| - 1], i);
    }
  }

  // ---- what the reading paths return -------------------------------------------------

  /**
   What `PutObjectFor` stores, any reader named (and the owner) opens to the
   original bytes, up to 65535 distinct readers; the object verifies and keeps
   the plaintext's size. Nothing is asked of the bytes: they may themselves look
   like an envelope.
   */
  lemma {:induction false} SealedObjectOpens(
    c: Suite, me: Signer, secret: Key, reader: Key, data: Octets, kind: Kind,
    recipients: seq<Key>, draws: Draws, now: nat)
    requires Ideal(c) && Fresh(c, draws, data)
    requires |recipients| < |draws.slots|
    requires |Recipients(c.publicKey(secret), recipients)| <= 65535
    requires c.world(c.publicKey(secret)) && c.world(c.publicKey(reader))
    requires forall k :: k in recipients ==> c.world(k)
    ensures var o := SealedObject(c, me, secret, data, kind, recipients, draws, now);
      && Verifies(o) && o.payload.size == |data| && IsEnvelope(o.payload.data)
      && (c.publicKey(reader) == c.publicKey(secret) || c.publicKey(reader) in recipients ==>
            OpenedObject(c, reader, o) == Ok(o.(payload := o.payload.(data := data))))
      && (c.publicKey(reader) != c.publicKey(secret) && c.publicKey(reader) !in recipients ==>
            OpenedObject(c, reader, o) == Err(NoMatchingRecipient))
  {
    RoundTrip(c, secret, reader, data, recipients, draws);
    var all := Recipients(c.publicKey(secret), recipients);
    SealedIsEnvelope(c, reader, all, draws, data);
  }

  lemma {:induction false} SealedIsEnvelope(c: Suite, reader: Key, recipients: seq<Key>, draws: Draws, data: Octets)
    requires Ideal(c) && Fresh(c, draws, data) && 0 < |recipients| <= |draws.slots|
    requires c.world(c.publicKey(reader)) && forall k :: k in recipients ==> c.world(k)
    ensures IsEnvelope(Sealed(c, recipients, draws, data))
  {
  }

  /** Storing then reading by id gives back the original bytes. */
  method PutThenGet(r: Runtime, data: Octets, kind: Kind, recipients: seq<Key>, draws: Draws, now: nat)
    returns (got: Result<DataObject, ReadError>)
    requires Ideal(r.c) && Fresh(r.c, draws, data)
    requires |recipients| < |draws.slots|
    requires |Recipients(r.c.publicKey(r.secret), recipients)| <= 65535
    requires r.c.world(r.c.publicKey(r.secret)) && forall k :: k in recipients ==> r.c.world(k)
    modifies r.storage
    ensures got.Ok? && got.value.payload.data == data && got.value.payload.size == |data|
  {
    var o := r.PutObjectFor(data, kind, recipients, draws, now);
    SealedObjectOpens(r.c, r.me, r.secret, r.secret, data, kind, recipients, draws, now);
    assert GetVerified(r.storage.files, o.id) == Some(o);
    got := r.Get(o.id, None);
  }

  /** A shared copy opens, for every recipient, to what the sharer itself reads. */
  lemma {:induction false} SharedCopyOpens(
    c: Suite, me: Signer, secret: Key, reader: Key, held: DataObject,
    recipients: seq<Key>, draws: Draws, now: nat)
    requires Ideal(c) && OpenedObject(c, secret, held).Ok?
    requires Fresh(c, draws, OpenedObject(c, secret, held).value.payload.data)
    requires |recipients| < |draws.slots|
    requires |Recipients(c.publicKey(secret), recipients)| <= 65535
    requires c.world(c.publicKey(secret)) && c.world(c.publicKey(reader))
    requires forall k :: k in recipients ==> c.world(k)
    ensures var plain := OpenedObject(c, secret, held).value.payload.data;
      var copy := SealedObject(c, me, secret, plain, held.payload.kind, recipients, draws, now);
      && Verifies(copy)
      && (c.publicKey(reader) in recipients || c.publicKey(reader) == c.publicKey(secret) ==>
            OpenedObject(c, reader, copy).Ok? && OpenedObject(c, reader, copy).value.payload.data == plain)
  {
    var plain := OpenedObject(c, secret, held).value.payload.data;
    SealedObjectOpens(c, me, secret, reader, plain, held.payload.kind, recipients, draws, now);
  }

  /** Cleartext, public or concatenated, reads back unchanged exactly when it is not envelope-shaped. */
  lemma {:induction false} PublicObjectReadsBackIff(c: Suite, me: Signer, secret: Key, data: Octets, kind: Kind, now: nat)
    requires Ideal(c)
    ensures var o := NewObject(me, data, |data|, kind, now);
      OpenedObject(c, secret, o) == Ok(o) <==> !IsEnvelope(data)
  {
  }

  /** What an envelope opens to is strictly shorter than the envelope. */
  lemma {:induction false} OpeningShrinks(c: Suite, secret: Key, bytes: Octets)
    requires Ideal(c) && Opened(c, secret, bytes).Ok?
    ensures |Opened(c, secret, bytes).value| < |bytes|
  {
  }

  /** Concatenation is what it says: a failure-free split concatenates its halves, the second read after the first. */
  lemma {:induction false} ConcatSplits(c: Suite, secret: Key, files: Store, a: seq<Input>, b: seq<Input>)
    requires ConcatOf(c, secret, files, a).1.Ok?
    ensures var (between, first) := ConcatOf(c, secret, files, a);
      var (end, second) := ConcatOf(c, secret, between, b);
      ConcatOf(c, secret, files, a + b)
      == (end, match second case Ok(data) => Ok(first.value + data) case Err(e) => Err(e))
  {
    hide Read;
    var (between, first) := ConcatOf(c, secret, files, a);
    if b == [] {
      assert a + b == a;
      assert first.value + [] == first.value;
    } else {
      var n := |b| - 1;
      assert (a + b)[..|a + b| - 1] == a + b[..n];
      ConcatSplits(c, secret, files, a, b[..n]);
      var (end, second) := ConcatOf(c, secret, between, b);
      if second.Ok? {
        var (before, init) := ConcatOf(c, secret, between, b[..n]);
        Assoc(first.value, init.value, Read(c, secret, before, b[n].id, b[n].answer).1.value.payload.data);
      }
    }
  }

  /** Objects that are all held concatenate to what each reads as, whatever the network would answer. */
  lemma {:induction false} HeldInputsNeedNoNetwork(c: Suite, secret: Key, files: Store, inputs: seq<Input>)
    requires forall i :: 0 <= i < |inputs| ==> GetVerified(files, inputs[i].id).Some?
    ensures ConcatOf(c, secret, files, inputs).0 == files
  {
    hide OpenedObject;
    if inputs != [] {
      HeldInputsNeedNoNetwork(c, secret, files, inputs[..|inputs| - 1]);
    }
  }

  /**
   Reading yields the object asked for if and only if it is held or the peer that
   answered sent the right one: any other verifying object is imported and returned.
   */
  lemma {:induction false} ReadIsOfIdIff(
    c: Suite, secret: Key, files: Store, id: ObjectId<Octets>, answer: Option<DataObject>)
    requires Read(c, secret, files, id, answer).1.Ok?
    ensures var (after, r) := Read(c, secret, files, id, answer);
      && (r.value.id == id <==> GetVerified(files, id).Some? || answer.value.id == id)
      && GetVerified(after, r.value.id).Some? && OpenedObject(c, secret, GetVerified(after, r.value.id).value) == Ok(r.value)
  {
    hide Opened, IsEnvelope;
    if GetVerified(files, id).None? {
      assert GetVerified(files[answer.value.id := Holds(answer.value)], answer.value.id) == answer;
    }
  }
}
