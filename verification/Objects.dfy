/**
 Content-addressed objects and the store that holds them. Hashing a payload is
 an injective constructor (`Digest`) and a signature is the value only its
 signer could have made, so verification is equality. `D` is what an object
 carries: raw octets, or a structured record standing for its encoding.
 */
module Objects {
  import opened Prelude

  type Identity = string
  type PublicKey = string

  datatype Kind =
    | Blob | AppManifest | AppPointer | Profile | ContactList | HomeIndex | Capability | CapabilityIndex

  datatype Payload<+D> = Payload(owner: Identity, createdAt: nat, size: nat, kind: Kind, data: D)

  /** An id is the digest of a payload, or some other string a caller may present. */
  datatype ObjectId<+D> = Digest(payload: Payload<D>) | Text(text: string)

  datatype Signature<+D> = Signed(signer: PublicKey, payload: Payload<D>) | Forged(noise: nat)

  datatype Object<+D> = Object(
    id: ObjectId<D>, payload: Payload<D>, publicKey: PublicKey, signature: Signature<D>)

  /** The id is the payload's digest and the carried key signed the payload. */
  predicate Verifies<D(==)>(o: Object<D>) {
    o.id == Digest(o.payload) && o.signature == Signed(o.publicKey, o.payload)
  }

  datatype Signer = Signer(identity: Identity, publicKey: PublicKey)

  function NewObject<D>(me: Signer, data: D, size: nat, kind: Kind, now: nat): Object<D> {
    Resealed(me.publicKey, Payload(me.identity, now, size, kind, data))
  }

  function Resealed<D>(key: PublicKey, payload: Payload<D>): Object<D> {
    Object(Digest(payload), payload, key, Signed(key, payload))
  }

  /** A stored file either decodes to an object or does not. */
  datatype File<+D> = Corrupt | Holds(content: Object<D>)

  type Files<D(==)> = map<ObjectId<D>, File<D>>

  /** The object a file holds, if it decodes, is filed under its own id, and verifies. */
  function GetVerified<D(==)>(files: Files<D>, id: ObjectId<D>): (r: Option<Object<D>>)
    ensures r.Some? ==> r.value.id == id && Verifies(r.value) && id == Digest(r.value.payload)
  {
    if id in files && files[id].Holds? && files[id].content.id == id && Verifies(files[id].content)
    then Some(files[id].content)
    else None
  }

  /** How the file system treats one deletion. */
  datatype DeleteOutcome = Deleted | Refused | SidecarRefused

  class Storage<D(==)> {
    var files: Files<D>

    constructor ()
      ensures files == map[]
    {
      files := map[];
    }

    /** Stores `o` under its id, unless it does not verify. */
    method PutVerified(o: Object<D>) returns (ok: bool)
      modifies this
      ensures ok == Verifies(o)
      ensures files == if ok then old(files)[o.id := Holds(o)] else old(files)
    {
      if !Verifies(o) {
        return false;
      }
      files := files[o.id := Holds(o)];
      return true;
    }

    /** Deletes if present; a refusal can leave the object or come after it is gone. */
    method Delete(id: ObjectId<D>, outcome: DeleteOutcome) returns (ok: bool)
      modifies this
      ensures ok == outcome.Deleted?
      ensures files == if outcome.Refused? then old(files) else old(files) - {id}
    {
      if outcome.Refused? {
        return false;
      }
      files := files - {id};
      return outcome.Deleted?;
    }
  }
}
