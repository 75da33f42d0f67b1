/**
 LAN device pairing. The new device mints a code and a one-time session; the
 source device delivers the identity key and signed records under a key derived
 from both. Derivation and encryption are parameters (`Suite`); the laws about who
 can be accepted say what they need of them.
 */
module Pairing {
  import opened Prelude
  import opened Bytes
  import opened Objects
  import opened CacheIndex
  import opened Records

  const PEER_LEN: nat := 38

  /** A peer id in its binary form, the multihash of an Ed25519 key. */
  type Peer = p: Octets | |p| == PEER_LEN witness Zeros(PEER_LEN)

  /** The ASCII octets of "canopee/pairing/v1". */
  const LABEL: Octets := [
    0x63, 0x61, 0x6e, 0x6f, 0x70, 0x65, 0x65, 0x2f, 0x70, 0x61, 0x69, 0x72, 0x69, 0x6e, 0x67, 0x2f, 0x76, 0x31]

  type Id = ObjectId<string>
  type Item = Object<string>

  function Salt(session: Octets, from: Peer, target: Peer): Octets {
    LABEL + session + from + target
  }

  /** Raw identity key bytes: importable as some identity, or not. */
  datatype KeyBytes = Usable(identity: Identity) | Unusable

  datatype Record = Record(name: string, item: Item, pointer: PointerTo<Id>)

  datatype Data = Data(version: nat, identityKey: KeyBytes, records: seq<Record>)

  /** What a payload decrypts to: pairing data, or bytes that do not decode. */
  datatype Clear = Decoded(data: Data) | Undecodable

  /**
   Key derivation from code and salt, and sealing under a random nonce; `K` are keys and
   `P` sealed payloads. `made` records what was really sealed under a key, by its holders.
   */
  datatype Suite<!K, !P> = Suite(
    derive: (string, Octets) -> K,
    seal: (K, nat, Clear) -> P,
    open: (K, P) -> Option<Clear>,
    made: (K, P) -> bool)

  /** Different codes or salts give different keys. */
  ghost predicate DerivationLaw<K(!new), P>(c: Suite<K, P>) {
    forall code, salt, code', salt' :: c.derive(code, salt) == c.derive(code', salt') ==> code == code' && salt == salt'
  }

  /** What was made opens again, under its own key alone, and nothing else opens. */
  ghost predicate SealingLaw<K(!new), P(!new)>(c: Suite<K, P>) {
    && (forall k, n, m :: c.made(k, c.seal(k, n, m)) ==> c.open(k, c.seal(k, n, m)) == Some(m))
    && (forall k, k', n, m :: k != k' ==> c.open(k', c.seal(k, n, m)).None?)
    && (forall k, p :: c.open(k, p).Some? ==> c.made(k, p))
  }

  ghost predicate Ideal<K(!new), P(!new)>(c: Suite<K, P>) {
    DerivationLaw(c) && SealingLaw(c)
  }

  datatype Qr = Qr(version: nat, device: Option<Peer>, code: string, session: Octets)

  /** `from` and `device` arrive as text; `None` is text that is no peer id. */
  datatype Request<+P> = Request(from: Option<Peer>, device: Option<Peer>, session: Octets, payload: P)

  datatype Session = Session(id: Octets, code: string)

  datatype Refusal =
    | NoSession | SenderMismatch | WrongDestination | WrongCode | MalformedPayload | BadIdentity
    | InvalidRecords | KeyNotWritten | NotStored
    | UnsupportedVersion | CodeMismatch | BadDevice | SelfPairing

  type Response = Result<Identity, Refusal>

  /**
   What the file system does while accepting: refuse the key file, the n-th object, or
   some of the pointer files; the last is only warned about.
   */
  datatype Faults = Faults(keyWrite: bool, store: Option<nat>, pointers: set<nat>)

  const NO_FAULTS := Faults(false, None, {})

  // ---- the new device ----------------------------------------------------------------------

  datatype DeviceState = DeviceState(
    session: Option<Session>, identityKey: Option<KeyBytes>,
    files: Files<string>, cache: Entries<string>, records: map<(Identity, string), PointerTo<Id>>)

  predicate Transferable(r: Record, owner: Identity) {
    && IsFor(r.pointer, owner, r.name)
    && r.pointer.manifest == r.item.id
    && Verifies(r.item)
    && r.item.payload.owner == owner
  }

  predicate AllTransferable(records: seq<Record>, owner: Identity) {
    forall i :: 0 <= i < |records| ==> Transferable(records[i], owner)
  }

  /** The device after storing, caching and pointing at the first `n` records, some pointers failing. */
  function Installed(d: DeviceState, owner: Identity, records: seq<Record>, n: nat, failed: set<nat>, now: nat): DeviceState
    requires n <= |records|
  {
    if n == 0 then d
    else
      var r, before := records[n - 1], Installed(d, owner, records, n - 1, failed, now);
      before.(files := before.files[r.item.id := Holds(r.item)],
              cache := before.cache[r.item.id := now],
              records := if n - 1 in failed then before.records else before.records[(owner, r.name) := r.pointer])
  }

  function KeyFor<K, P>(c: Suite<K, P>, code: string, session: Octets, from: Peer, target: Peer): K {
    c.derive(code, Salt(session, from, target))
  }

  /** Everything decided before any file is touched. */
  function Judged<K, P>(c: Suite<K, P>, self: Peer, session: Option<Session>, peer: Peer, request: Request<P>)
    : Result<Data, Refusal>
  {
    if session.None? || session.value.id != request.session then Err(NoSession)
    else if request.from != Some(peer) then Err(SenderMismatch)
    else if request.device != Some(self) then Err(WrongDestination)
    else
      match c.open(KeyFor(c, session.value.code, request.session, peer, self), request.payload)
      case None => Err(WrongCode)
      case Some(Undecodable) => Err(MalformedPayload)
      case Some(Decoded(data)) =>
        if data.version != 1 then Err(MalformedPayload)
        else if data.identityKey.Unusable? then Err(BadIdentity)
        else if !AllTransferable(data.records, data.identityKey.identity) then Err(InvalidRecords)
        else Ok(data)
  }

  function Accepting<K, P>(
    c: Suite<K, P>, self: Peer, d: DeviceState, peer: Peer, request: Request<P>, faults: Faults, now: nat)
    : (DeviceState, Response)
  {
    var taken := d.(session := None);
    match Judged(c, self, d.session, peer, request)
    case Err(e) => (taken, Err(e))
    case Ok(data) =>
      if data.identityKey.Unusable? then (taken, Err(BadIdentity))
      else if faults.keyWrite then (taken, Err(KeyNotWritten))
      else
        var owner := data.identityKey.identity;
        var keyed := taken.(identityKey := Some(data.identityKey));
        if faults.store.Some? && faults.store.value < |data.records|
        then (Installed(keyed, owner, data.records, faults.store.value, faults.pointers, now), Err(NotStored))
        else (Installed(keyed, owner, data.records, |data.records|, faults.pointers, now), Ok(owner))
  }

  class NewDevice<!K, !P> {
    const c: Suite<K, P>
    const self: Peer
    const storage: Storage<string>
    const cache: Cache<string>
    var session: Option<Session>
    var identityKey: Option<KeyBytes>
    var records: map<(Identity, string), PointerTo<Id>>

    ghost function View(): DeviceState
      reads this, storage, cache
    {
      DeviceState(session, identityKey, storage.files, cache.entries, records)
    }

    constructor (c: Suite<K, P>, self: Peer, storage: Storage<string>, cache: Cache<string>)
      ensures this.c == c && this.self == self && this.storage == storage && this.cache == cache
      ensures View() == DeviceState(None, None, storage.files, cache.entries, map[])
    {
      this.c, this.self, this.storage, this.cache := c, self, storage, cache;
      session, identityKey, records := None, None, map[];
    }

    /** Mints a session from fresh randomness; an earlier one is forgotten. */
    method InitiatePairing(code: string, id: Octets) returns (qr: Qr)
      modifies this
      ensures View() == old(View()).(session := Some(Session(id, code)))
      ensures qr == Qr(1, Some(self), code, id)
    {
      session := Some(Session(id, code));
      qr := Qr(1, Some(self), code, id);
    }

    method AcceptPairing(peer: Peer, request: Request<P>, faults: Faults, now: nat) returns (r: Response)
      modifies this, storage, cache
      ensures (View(), r) == Accepting(c, self, old(View()), peer, request, faults, now)
    {
      var taken := session;
      session := None;
      if taken.None? || taken.value.id != request.session {
        return Err(NoSession);
      }
      if request.from != Some(peer) {
        return Err(SenderMismatch);
      }
      if request.device != Some(self) {
        return Err(WrongDestination);
      }
      var key := c.derive(taken.value.code, Salt(request.session, peer, self));
      var clear := c.open(key, request.payload);
      if clear.None? {
        return Err(WrongCode);
      }
      if clear.value.Undecodable? || clear.value.data.version != 1 {
        return Err(MalformedPayload);
      }
      var data := clear.value.data;
      if data.identityKey.Unusable? {
        return Err(BadIdentity);
      }
      var owner := data.identityKey.identity;
      for i := 0 to |data.records|
        invariant View() == old(View()).(session := None)
        invariant forall j :: 0 <= j < i ==> Transferable(data.records[j], owner)
      {
        if !Transferable(data.records[i], owner) {
          return Err(InvalidRecords);
        }
      }
      if faults.keyWrite {
        return Err(KeyNotWritten);
      }
      identityKey := Some(data.identityKey);
      ghost var keyed := View();
      for i := 0 to |data.records|
        invariant View() == Installed(keyed, owner, data.records, i, faults.pointers, now)
        invariant faults.store.Some? ==> i <= faults.store.value
      {
        if faults.store == Some(i) {
          return Err(NotStored);
        }
        var record := data.records[i];
        var _ := storage.PutVerified(record.item);
        cache.MarkCached(record.item.id, now);
        if i !in faults.pointers {
          records := records[(owner, record.name) := record.pointer];
        }
      }
      return Ok(owner);
    }
  }

  // ---- the source device -------------------------------------------------------------------

  /** The device that already carries the identity. */
  datatype Source = Source(
    self: Peer, identity: Identity, files: Files<string>, records: map<(Identity, string), PointerTo<Id>>)

  const TRANSFERRED: seq<string> := ["devices", "profile", "contacts"]

  /** The record a slot contributes: a genuine own pointer to an own stored object. */
  function SlotRecord(s: Source, name: string): Option<Record> {
    if (s.identity, name) !in s.records then None
    else
      var pointer := s.records[(s.identity, name)];
      if pointer.owner != s.identity || !Genuine(pointer) then None
      else
        match GetVerified(s.files, pointer.manifest)
        case None => None
        case Some(o) => if o.payload.owner == s.identity then Some(Record(name, o, pointer)) else None
  }

  function OfSlot(s: Source, name: string): seq<Record> {
    match SlotRecord(s, name)
    case Some(r) => [r]
    case None => []
  }

  function Gathered(s: Source, names: seq<string>): seq<Record> {
    if names == [] then [] else Gathered(s, names[..|names| - 1]) + OfSlot(s, names[|names| - 1])
  }

  method GatherRecords(s: Source) returns (records: seq<Record>)
    ensures records == Gathered(s, TRANSFERRED)
  {
    records := [];
    for i := 0 to |TRANSFERRED|
      invariant records == Gathered(s, TRANSFERRED[..i])
    {
      assert TRANSFERRED[..i + 1][..i] == TRANSFERRED[..i];
      var name := TRANSFERRED[i];
      if (s.identity, name) !in s.records {
        continue;
      }
      var pointer := s.records[(s.identity, name)];
      if pointer.owner != s.identity || !Genuine(pointer) {
        continue;
      }
      var o := GetVerified(s.files, pointer.manifest);
      if o.None? || o.value.payload.owner != s.identity {
        continue;
      }
      records := records + [Record(name, o.value, pointer)];
    }
    assert TRANSFERRED[..|TRANSFERRED|] == TRANSFERRED;
  }

  function Completed<K, P>(c: Suite<K, P>, s: Source, qr: Qr, typed: string, nonce: nat): Result<Request<P>, Refusal> {
    if qr.version != 1 then Err(UnsupportedVersion)
    else if qr.code != typed then Err(CodeMismatch)
    else if qr.device.None? then Err(BadDevice)
    else if qr.device.value == s.self then Err(SelfPairing)
    else
      var key := KeyFor(c, typed, qr.session, s.self, qr.device.value);
      var data := Data(1, Usable(s.identity), Gathered(s, TRANSFERRED));
      Ok(Request(Some(s.self), qr.device, qr.session, c.seal(key, nonce, Decoded(data))))
  }

  method CompletePairing<K, P>(c: Suite<K, P>, s: Source, qr: Qr, typed: string, nonce: nat)
    returns (r: Result<Request<P>, Refusal>)
    ensures r == Completed(c, s, qr, typed, nonce)
  {
    if qr.version != 1 {
      return Err(UnsupportedVersion);
    }
    if qr.code != typed {
      return Err(CodeMismatch);
    }
    if qr.device.None? {
      return Err(BadDevice);
    }
    if qr.device.value == s.self {
      return Err(SelfPairing);
    }
    var key := c.derive(typed, Salt(qr.session, s.self, qr.device.value));
    var records := GatherRecords(s);
    var data := Data(1, Usable(s.identity), records);
    return Ok(Request(Some(s.self), qr.device, qr.session, c.seal(key, nonce, Decoded(data))));
  }

  // ---- who can be accepted ---------------------------------------------------------------

  /** The salt pins session, sender and target, although nothing in it marks their boundaries. */
  lemma {:induction false} SaltIsInjective(a: Octets, f: Peer, t: Peer, b: Octets, g: Peer, u: Peer)
    requires Salt(a, f, t) == Salt(b, g, u)
    ensures a == b && f == g && t == u
  {
    var x, y := Salt(a, f, t), Salt(b, g, u);
    assert |x| == |LABEL| + |a| + 2 * PEER_LEN && |y| == |LABEL| + |b| + 2 * PEER_LEN;
    assert x[|LABEL|..|LABEL| + |a|] == a && y[|LABEL|..|LABEL| + |b|] == b;
    assert x[|LABEL| + |a|..|LABEL| + |a| + PEER_LEN] == f && y[|LABEL| + |b|..|LABEL| + |b| + PEER_LEN] == g;
    assert x[|LABEL| + |a| + PEER_LEN..] == t && y[|LABEL| + |b| + PEER_LEN..] == u;
  }

  /** An accepted payload was sealed by a holder of the key of this very code, session, sender and target. */
  lemma {:induction false} AcceptedWasMade<K(!new), P(!new)>(
    c: Suite<K, P>, self: Peer, d: DeviceState, peer: Peer, request: Request<P>, faults: Faults, now: nat)
    requires SealingLaw(c) && Accepting(c, self, d, peer, request, faults, now).1.Ok?
    ensures d.session.Some? && d.session.value.id == request.session
    ensures c.made(KeyFor(c, d.session.value.code, request.session, peer, self), request.payload)
  {
    assert c.open(KeyFor(c, d.session.value.code, request.session, peer, self), request.payload).Some?;
  }

  /** Source `s` made payload `p` for the code `typed` and what `qr` says. */
  ghost predicate BuiltBy<K, P>(c: Suite<K, P>, s: Source, qr: Qr, typed: string, nonce: nat, p: P) {
    Completed(c, s, qr, typed, nonce).Ok? && p == Completed(c, s, qr, typed, nonce).value.payload
  }

  /**
   A payload made by some source device for some code, session and target,
   replayed or redirected in any request from any peer, is accepted only by the
   device, in the session, under the code and from the sender it was made for.
   */
  lemma {:induction false} AcceptedOnlyAsBuilt<K(!new), P(!new)>(
    c: Suite<K, P>, self: Peer, d: DeviceState, peer: Peer, request: Request<P>, faults: Faults, now: nat,
    s: Source, qr: Qr, typed: string, nonce: nat)
    requires Ideal(c) && Accepting(c, self, d, peer, request, faults, now).1.Ok?
    requires BuiltBy(c, s, qr, typed, nonce, request.payload)
    ensures d.session == Some(Session(qr.session, typed))
    ensures qr.device == Some(self) && s.self == peer
    ensures Accepting(c, self, d, peer, request, faults, now).1 == Ok(s.identity)
  {
    hide Gathered, Installed, Salt;
    var mine := KeyFor(c, d.session.value.code, request.session, peer, self);
    var theirs := KeyFor(c, typed, qr.session, s.self, qr.device.value);
    assert c.open(mine, request.payload).Some? && c.made(mine, request.payload);
    assert mine == theirs;
    SaltIsInjective(request.session, peer, self, qr.session, s.self, qr.device.value);
  }

  /** Whoever holds a session's key is a source device: nobody else was told the code. */
  ghost predicate OnlySourcesSeal<K(!new), P(!new)>(c: Suite<K, P>) {
    forall code, salt, p :: c.made(c.derive(code, salt), p) ==>
      exists s, qr, typed, nonce :: BuiltBy(c, s, qr, typed, nonce, p)
  }

  /** Then whatever is accepted, from whomever, was built by the sender itself for this code, session and device. */
  lemma {:induction false} AcceptanceMeansSource<K(!new), P(!new)>(
    c: Suite<K, P>, self: Peer, d: DeviceState, peer: Peer, request: Request<P>, faults: Faults, now: nat)
    returns (s: Source, qr: Qr, nonce: nat)
    requires Ideal(c) && OnlySourcesSeal(c) && Accepting(c, self, d, peer, request, faults, now).1.Ok?
    ensures d.session == Some(Session(qr.session, qr.code)) && qr.device == Some(self) && s.self == peer
    ensures BuiltBy(c, s, qr, qr.code, nonce, request.payload)
    ensures Accepting(c, self, d, peer, request, faults, now).1 == Ok(s.identity)
  {
    hide Accepting, Salt;
    AcceptedWasMade(c, self, d, peer, request, faults, now);
    assert c.made(c.derive(d.session.value.code, Salt(request.session, peer, self)), request.payload);
    var typed: string;
    s, qr, typed, nonce :| BuiltBy(c, s, qr, typed, nonce, request.payload);
    AcceptedOnlyAsBuilt(c, self, d, peer, request, faults, now, s, qr, typed, nonce);
  }

  /** A concrete suite: a key is what it was derived from, a payload what was sealed under which key. */
  datatype ToyPayload = Box(key: (string, Octets), nonce: nat, clear: Clear)

  type ToyKey = (string, Octets)

  function ToyWith(made: (ToyKey, ToyPayload) -> bool): Suite<ToyKey, ToyPayload> {
    Suite((code: string, salt: Octets) => (code, salt),
          (k: ToyKey, n: nat, m: Clear) => Box(k, n, m),
          (k: ToyKey, p: ToyPayload) => if p.key == k && made(k, p) then Some(p.clear) else None,
          made)
  }

  /** The same suite before anything was made. */
  function Blank(): Suite<ToyKey, ToyPayload> {
    ToyWith((_, _) => false)
  }

  ghost predicate ToyBuilt(k: ToyKey, p: ToyPayload) {
    p.key == k && exists s, qr, typed, nonce :: BuiltBy(Blank(), s, qr, typed, nonce, p)
  }

  ghost function Toy(): Suite<ToyKey, ToyPayload> {
    ToyWith((k, p) => ToyBuilt(k, p))
  }

  /** The hypotheses above hold together of a concrete suite, in which whatever a source completes was made. */
  lemma {:induction false} HypothesesAreConsistent(s: Source, qr: Qr, typed: string, nonce: nat)
    ensures Ideal(Toy()) && OnlySourcesSeal(Toy())
    ensures Completed(Toy(), s, qr, typed, nonce).Ok? ==>
      Toy().made(KeyFor(Toy(), typed, qr.session, s.self, qr.device.value),
                 Completed(Toy(), s, qr, typed, nonce).value.payload)
  {
    forall code, salt, p | Toy().made(Toy().derive(code, salt), p)
      ensures exists s, qr, typed, nonce :: BuiltBy(Toy(), s, qr, typed, nonce, p)
    {
      var s, qr, typed, nonce :| BuiltBy(Blank(), s, qr, typed, nonce, p);
      assert BuiltBy(Toy(), s, qr, typed, nonce, p);
    }
    if Completed(Toy(), s, qr, typed, nonce).Ok? {
      assert BuiltBy(Blank(), s, qr, typed, nonce, Completed(Toy(), s, qr, typed, nonce).value.payload);
    }
  }

  /** Any refusal before the key write leaves everything but the consumed session as it was. */
  lemma {:induction false} EarlyRefusalChangesNothing<K, P>(
    c: Suite<K, P>, self: Peer, d: DeviceState, peer: Peer, request: Request<P>, faults: Faults, now: nat)
    ensures var (after, r) := Accepting(c, self, d, peer, request, faults, now);
      r.Err? && !r.error.NotStored? ==> after == d.(session := None)
  {
  }

  // ---- what acceptance installs ------------------------------------------------------------

  /** One of the first `n` records put `pointer` into `slot`. */
  predicate PutBy(owner: Identity, records: seq<Record>, n: nat, slot: (Identity, string), pointer: PointerTo<Id>)
    requires n <= |records|
  {
    exists i :: 0 <= i < n && slot == (owner, records[i].name) && pointer == records[i].pointer
  }

  lemma {:induction false} InstalledFrame(
    d: DeviceState, owner: Identity, records: seq<Record>, n: nat, failed: set<nat>, now: nat)
    requires n <= |records|
    ensures var after := Installed(d, owner, records, n, failed, now);
      && after.identityKey == d.identityKey && after.session == d.session
      && forall i :: 0 <= i < n && i !in failed ==> (owner, records[i].name) in after.records
  {
    if n > 0 {
      InstalledFrame(d, owner, records, n - 1, failed, now);
    }
  }

  lemma {:induction false} InstalledPointer(
    d: DeviceState, owner: Identity, records: seq<Record>, n: nat, failed: set<nat>, now: nat, slot: (Identity, string))
    requires n <= |records| && slot in Installed(d, owner, records, n, failed, now).records
    ensures var pointer := Installed(d, owner, records, n, failed, now).records[slot];
      (slot in d.records && pointer == d.records[slot]) || PutBy(owner, records, n, slot, pointer)
  {
    if n > 0 {
      var r := records[n - 1];
      if slot == (owner, r.name) && n - 1 !in failed {
        assert PutBy(owner, records, n, slot, r.pointer);
      } else {
        InstalledPointer(d, owner, records, n - 1, failed, now, slot);
      }
    }
  }

  lemma {:induction false} InstalledObjects(
    d: DeviceState, owner: Identity, records: seq<Record>, n: nat, failed: set<nat>, now: nat)
    requires n <= |records| && AllTransferable(records, owner)
    ensures var after := Installed(d, owner, records, n, failed, now);
      forall i :: 0 <= i < n ==>
        && GetVerified(after.files, records[i].item.id).Some?
        && GetVerified(after.files, records[i].item.id).value.payload.owner == owner
  {
    if n > 0 {
      var before := Installed(d, owner, records, n - 1, failed, now);
      InstalledObjects(d, owner, records, n - 1, failed, now);
      assert Transferable(records[n - 1], owner);
      forall i | 0 <= i < n
        ensures var o := GetVerified(Installed(d, owner, records, n, failed, now).files, records[i].item.id);
          o.Some? && o.value.payload.owner == owner
      {
        StoringKeepsReadable(before.files, records[n - 1].item, records[i].item.id);
      }
    }
  }

  /** Storing a verified object leaves every readable id readable, with the same payload. */
  lemma {:induction false} StoringKeepsReadable(files: Files<string>, o: Item, id: Id)
    requires Verifies(o)
    ensures var after := files[o.id := Holds(o)];
      && GetVerified(after, o.id) == Some(o)
      && (GetVerified(files, id).Some? ==>
            GetVerified(after, id).Some? && GetVerified(after, id).value.payload == GetVerified(files, id).value.payload)
  {
  }

  /**
   After an acceptance the identity key is the sender's, and every pointer that
   was installed verifies, belongs to the imported identity, sits in its own
   slot and names an object that is stored, verifies and has that owner.
   */
  lemma {:induction false} AcceptanceInstallsOnlyValidPointers<K, P>(
    c: Suite<K, P>, self: Peer, d: DeviceState, peer: Peer, request: Request<P>, faults: Faults, now: nat,
    slot: (Identity, string))
    requires Accepting(c, self, d, peer, request, faults, now).1.Ok?
    ensures var (after, r) := Accepting(c, self, d, peer, request, faults, now);
      && after.identityKey == Some(Usable(r.value)) && after.session == None
      && (slot in after.records && !(slot in d.records && after.records[slot] == d.records[slot]) ==>
            var pointer := after.records[slot];
            && slot == (r.value, pointer.name) && IsFor(pointer, r.value, pointer.name)
            && GetVerified(after.files, pointer.manifest).Some?
            && GetVerified(after.files, pointer.manifest).value.payload.owner == r.value)
  {
    var data := Judged(c, self, d.session, peer, request).value;
    var owner := data.identityKey.identity;
    var keyed := d.(session := None, identityKey := Some(data.identityKey));
    InstalledFrame(keyed, owner, data.records, |data.records|, faults.pointers, now);
    if slot in Installed(keyed, owner, data.records, |data.records|, faults.pointers, now).records {
      InstalledPointer(keyed, owner, data.records, |data.records|, faults.pointers, now, slot);
    }
    InstalledObjects(keyed, owner, data.records, |data.records|, faults.pointers, now);
    hide Installed, GetVerified;
  }

  // ---- the honest run ------------------------------------------------------------------------

  lemma {:induction false} GatheredMembers(s: Source, names: seq<string>, r: Record)
    ensures r in Gathered(s, names) <==> exists j :: 0 <= j < |names| && SlotRecord(s, names[j]) == Some(r)
  {
    hide SlotRecord;
    if names != [] {
      var n := |names| - 1;
      GatheredMembers(s, names[..n], r);
      assert forall j :: 0 <= j < n ==> names[..n][j] == names[j];
      assert r in OfSlot(s, names[n]) <==> SlotRecord(s, names[n]) == Some(r);
    }
  }

  /** Every cached pointer the source would transfer carries the name of the slot it sits in. */
  predicate NamesMatchSlots(s: Source) {
    forall j :: 0 <= j < |TRANSFERRED| && SlotRecord(s, TRANSFERRED[j]).Some? ==>
      SlotRecord(s, TRANSFERRED[j]).value.pointer.name == TRANSFERRED[j]
  }

  /**
   The intended exchange: code shown, typed and delivered by the source itself,
   no file-system fault. It is accepted, as the source's identity, and installs
   every slot, if and only if the pointers the source sends carry the names of their
   slots; the sender does not check that, the receiver does.
   */
  lemma {:induction false} HonestPairingAcceptedIff<K(!new), P(!new)>(
    c: Suite<K, P>, self: Peer, d: DeviceState, s: Source, code: string, id: Octets, nonce: nat, now: nat)
    requires Ideal(c) && s.self != self && d.session == Some(Session(id, code))
    requires var sent := Completed(c, s, Qr(1, Some(self), code, id), code, nonce);
      sent.Ok? ==> c.made(KeyFor(c, code, id, s.self, self), sent.value.payload)
    ensures var sent := Completed(c, s, Qr(1, Some(self), code, id), code, nonce);
      && sent.Ok?
      && var (after, r) := Accepting(c, self, d, s.self, sent.value, NO_FAULTS, now);
         && (r == Ok(s.identity) <==> NamesMatchSlots(s))
         && (r.Ok? <==> NamesMatchSlots(s))
         && (r.Ok? ==> forall j :: 0 <= j < |TRANSFERRED| && SlotRecord(s, TRANSFERRED[j]).Some? ==>
               (s.identity, TRANSFERRED[j]) in after.records)
  {
    hide Installed, Gathered, SlotRecord, NamesMatchSlots, AllTransferable, Salt;
    GatheredTransferableIff(s);
    InstallsEverySlot(d.(session := None, identityKey := Some(Usable(s.identity))), s, now);
  }

  lemma {:induction false} InstallsEverySlot(d: DeviceState, s: Source, now: nat)
    ensures var records := Gathered(s, TRANSFERRED);
      forall j :: 0 <= j < |TRANSFERRED| && SlotRecord(s, TRANSFERRED[j]).Some? ==>
        (s.identity, TRANSFERRED[j]) in Installed(d, s.identity, records, |records|, {}, now).records
  {
    hide Installed, Gathered;
    var records := Gathered(s, TRANSFERRED);
    InstalledFrame(d, s.identity, records, |records|, {}, now);
    forall j | 0 <= j < |TRANSFERRED| && SlotRecord(s, TRANSFERRED[j]).Some?
      ensures (s.identity, TRANSFERRED[j]) in Installed(d, s.identity, records, |records|, {}, now).records
    {
      GatheredMembers(s, TRANSFERRED, SlotRecord(s, TRANSFERRED[j]).value);
      var i :| 0 <= i < |records| && records[i] == SlotRecord(s, TRANSFERRED[j]).value;
      assert records[i].name == TRANSFERRED[j];
    }
  }

  lemma {:induction false} GatheredTransferableIff(s: Source)
    ensures AllTransferable(Gathered(s, TRANSFERRED), s.identity) <==> NamesMatchSlots(s)
  {
    var records := Gathered(s, TRANSFERRED);
    if NamesMatchSlots(s) {
      forall i | 0 <= i < |records| ensures Transferable(records[i], s.identity) {
        GatheredMembers(s, TRANSFERRED, records[i]);
        var j :| 0 <= j < |TRANSFERRED| && SlotRecord(s, TRANSFERRED[j]) == Some(records[i]);
      }
    } else {
      var j :| 0 <= j < |TRANSFERRED| && SlotRecord(s, TRANSFERRED[j]).Some?
        && SlotRecord(s, TRANSFERRED[j]).value.pointer.name != TRANSFERRED[j];
      GatheredMembers(s, TRANSFERRED, SlotRecord(s, TRANSFERRED[j]).value);
      var i :| 0 <= i < |records| && records[i] == SlotRecord(s, TRANSFERRED[j]).value;
      assert !Transferable(records[i], s.identity);
    }
  }

  // ---- pointers stay in their slots ----------------------------------------------------------

  /** Everything that writes a pointer file; `store` is what a store scan sees, and what it finds arrives as `pushed`. */
  datatype Step<+P> =
    | Initiates(code: string, id: Octets)
    | Receives(peer: Peer, request: Request<P>, faults: Faults, now: nat)
    | Publishes(owner: Identity, name: string, manifest: Id, now: nat)
    | Resolves(owner: Identity, name: string, store: PointerFiles, pushed: Option<PointerTo<Id>>, dht: Option<PointerTo<Id>>)
    | Syncs(owner: Identity, name: string, store: PointerFiles, world: World<Id>)

  type PointerFiles = Files<Option<PointerTo<Id>>>

  function FileOf(d: DeviceState, slot: (Identity, string)): Option<PointerTo<Id>> {
    if slot in d.records then Some(d.records[slot]) else None
  }

  function WithFile(d: DeviceState, slot: (Identity, string), file: Option<PointerTo<Id>>): DeviceState {
    if file.Some? then d.(records := d.records[slot := file.value]) else d
  }

  function Next<K, P>(c: Suite<K, P>, self: Peer, d: DeviceState, step: Step<P>): DeviceState {
    match step
    case Initiates(code, id) => d.(session := Some(Session(id, code)))
    case Receives(peer, request, faults, now) => Accepting(c, self, d, peer, request, faults, now).0
    case Publishes(owner, name, manifest, now) =>
      WithFile(d, (owner, name), Some(PointerTo.Pointer(owner, name, manifest, now, owner)))
    case Resolves(owner, name, _, pushed, dht) =>
      WithFile(d, (owner, name), Resolved(owner, name, FileOf(d, (owner, name)), pushed, dht).0)
    case Syncs(owner, name, _, world) =>
      WithFile(d, (owner, name), Synced(owner, name, world, FileOf(d, (owner, name))).0)
  }

  function Run<K, P>(c: Suite<K, P>, self: Peer, d: DeviceState, steps: seq<Step<P>>): DeviceState
    decreases |steps|
  {
    if steps == [] then d else Run(c, self, Next(c, self, d, steps[0]), steps[1..])
  }

  /** What a step was pushed is what a scan of its store finds. */
  ghost predicate Scanned<P>(step: Step<P>) {
    match step
    case Resolves(owner, name, store, pushed, _) => ScanFinds(store, owner, name, pushed)
    case Syncs(owner, name, store, world) => ScanFinds(store, owner, name, world.pushed)
    case _ => true
  }

  /** A scan for a name finds only pointers of that name. */
  lemma {:induction false} ScanIsByName(files: PointerFiles, owner: Identity, name: string, newest: Option<PointerTo<Id>>)
    requires ScanFinds(files, owner, name, newest) && newest.Some?
    ensures newest.value.name == name && Genuine(newest.value)
  {
  }

  lemma {:induction false} NextKeepsSlotsNamed<K, P>(c: Suite<K, P>, self: Peer, d: DeviceState, step: Step<P>)
    requires SlotsNamed(d.records) && Scanned(step)
    ensures SlotsNamed(Next(c, self, d, step).records)
  {
    hide Accepting, ScanFinds;
    match step
    case Receives(peer, request, faults, now) => AcceptingKeepsSlotsNamed(c, self, d, peer, request, faults, now);
    case Resolves(owner, name, store, pushed, _) =>
      if pushed.Some? { ScanIsByName(store, owner, name, pushed); }
    case Syncs(owner, name, store, world) =>
      if world.pushed.Some? { ScanIsByName(store, owner, name, world.pushed); }
    case _ =>
  }

  predicate SlotsNamed(records: map<(Identity, string), PointerTo<Id>>) {
    forall slot :: slot in records ==> records[slot].name == slot.1
  }

  lemma {:induction false} AcceptingKeepsSlotsNamed<K, P>(
    c: Suite<K, P>, self: Peer, d: DeviceState, peer: Peer, request: Request<P>, faults: Faults, now: nat)
    requires SlotsNamed(d.records)
    ensures SlotsNamed(Accepting(c, self, d, peer, request, faults, now).0.records)
  {
    hide GetVerified, Installed, Salt;
    var judged := Judged(c, self, d.session, peer, request);
    if judged.Ok? && !faults.keyWrite {
      var data := judged.value;
      var owner := data.identityKey.identity;
      var keyed := d.(session := None, identityKey := Some(data.identityKey));
      var n := if faults.store.Some? && faults.store.value < |data.records| then faults.store.value else |data.records|;
      forall slot | slot in Installed(keyed, owner, data.records, n, faults.pointers, now).records
        ensures Installed(keyed, owner, data.records, n, faults.pointers, now).records[slot].name == slot.1
      {
        InstalledPointer(keyed, owner, data.records, n, faults.pointers, now, slot);
      }
    }
  }

  /** Over every run of publishing, resolving, syncing and pairing, every pointer file carries its slot's name. */
  lemma {:induction false} RunKeepsSlotsNamed<K, P>(c: Suite<K, P>, self: Peer, d: DeviceState, steps: seq<Step<P>>)
    requires SlotsNamed(d.records) && forall i :: 0 <= i < |steps| ==> Scanned(steps[i])
    ensures SlotsNamed(Run(c, self, d, steps).records)
    decreases |steps|
  {
    hide Next, Scanned;
    if steps != [] {
      NextKeepsSlotsNamed(c, self, d, steps[0]);
      RunKeepsSlotsNamed(c, self, Next(c, self, d, steps[0]), steps[1..]);
    }
  }

  /**
   So the intended exchange is always accepted: whatever the source published, resolved,
   synced or paired before, from no pointer files at all. Only files written by something
   else can make the receiver refuse.
   */
  lemma {:induction false} HonestPairingIsAccepted<K(!new), P(!new)>(
    c: Suite<K, P>, self: Peer, d: DeviceState, start: DeviceState, steps: seq<Step<P>>, s: Source,
    code: string, id: Octets, nonce: nat, now: nat)
    requires Ideal(c) && s.self != self && d.session == Some(Session(id, code))
    requires start.records == map[] && forall i :: 0 <= i < |steps| ==> Scanned(steps[i])
    requires s.records == Run(c, s.self, start, steps).records
    requires var sent := Completed(c, s, Qr(1, Some(self), code, id), code, nonce);
      sent.Ok? ==> c.made(KeyFor(c, code, id, s.self, self), sent.value.payload)
    ensures var sent := Completed(c, s, Qr(1, Some(self), code, id), code, nonce);
      && sent.Ok?
      && var (after, r) := Accepting(c, self, d, s.self, sent.value, NO_FAULTS, now);
         && r == Ok(s.identity)
         && forall j :: 0 <= j < |TRANSFERRED| && SlotRecord(s, TRANSFERRED[j]).Some? ==>
              (s.identity, TRANSFERRED[j]) in after.records
  {
    RunKeepsSlotsNamed(c, s.self, start, steps);
    assert NamesMatchSlots(s);
    hide Run, SlotRecord, Accepting, Completed, NamesMatchSlots;
    HonestPairingAcceptedIff(c, self, d, s, code, id, nonce, now);
  }

  // ---- one session, one acceptance -----------------------------------------------------------

  predicate Accepts<K, P>(c: Suite<K, P>, self: Peer, d: DeviceState, step: Step<P>) {
    step.Receives? && Accepting(c, self, d, step.peer, step.request, step.faults, step.now).1.Ok?
  }

  function Acceptances<K, P>(c: Suite<K, P>, self: Peer, d: DeviceState, steps: seq<Step<P>>): nat
    decreases |steps|
  {
    if steps == [] then 0
    else (if Accepts(c, self, d, steps[0]) then 1 else 0) + Acceptances(c, self, Next(c, self, d, steps[0]), steps[1..])
  }

  function Initiations<P>(steps: seq<Step<P>>): nat {
    if steps == [] then 0 else (if steps[0].Initiates? then 1 else 0) + Initiations(steps[1..])
  }

  lemma {:induction false} SessionAfterReceiving<K, P>(c: Suite<K, P>, self: Peer, d: DeviceState, step: Step<P>)
    requires step.Receives?
    ensures Next(c, self, d, step).session == None
    ensures Accepts(c, self, d, step) ==> d.session.Some?
  {
    hide GetVerified;
    var (after, r) := Accepting(c, self, d, step.peer, step.request, step.faults, step.now);
    var judged := Judged(c, self, d.session, step.peer, step.request);
    if judged.Ok? {
      var data, faults := judged.value, step.faults;
      var keyed := d.(session := None, identityKey := Some(data.identityKey));
      InstalledFrame(keyed, data.identityKey.identity, data.records, |data.records|, faults.pointers, step.now);
      if faults.store.Some? && faults.store.value < |data.records| {
        InstalledFrame(keyed, data.identityKey.identity, data.records, faults.store.value, faults.pointers, step.now);
      }
    }
  }

  /** In every run, whatever arrives from whom, acceptances never outnumber initiated sessions. */
  lemma {:induction false} OneAcceptancePerSession<K, P>(c: Suite<K, P>, self: Peer, d: DeviceState, steps: seq<Step<P>>)
    ensures Acceptances(c, self, d, steps) <= Initiations(steps) + (if d.session.Some? then 1 else 0)
    decreases |steps|
  {
    if steps != [] {
      if steps[0].Receives? {
        SessionAfterReceiving(c, self, d, steps[0]);
      }
      hide Accepting, Accepts;
      OneAcceptancePerSession(c, self, Next(c, self, d, steps[0]), steps[1..]);
    }
  }
}
