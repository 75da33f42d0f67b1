/** What a pairing request contains and what accepting one does, refusal by refusal and field by field. */
module PairingAnswers {
  import opened Prelude
  import opened Bytes
  import opened Objects
  import opened Records
  import opened Pairing

  const TEXT := "canopee/pairing/v1"

  /** The salt: the label in ASCII, the session, the sender and the target. */
  function SaltOf(session: Octets, from: Peer, target: Peer): Octets {
    seq(18, i requires 0 <= i < 18 => TEXT[i] as int) + session + from + target
  }

  lemma {:induction false} SaltSpellsOut(session: Octets, from: Peer, target: Peer)
    ensures Salt(session, from, target) == SaltOf(session, from, target)
  {
    assert LABEL == seq(18, i requires 0 <= i < 18 => TEXT[i] as int);
  }

  // ---- accepting -----------------------------------------------------------------------------------

  /** A transferred record as it must be: a genuine pointer of the identity for its slot, naming an own object that verifies. */
  predicate Sound(r: Record, owner: Identity) {
    && r.pointer.owner == owner && r.pointer.name == r.name && r.pointer.signer == r.pointer.owner
    && r.pointer.manifest == r.item.id && r.item.payload.owner == owner
    && r.item == Object(Digest(r.item.payload), r.item.payload, r.item.publicKey, Signed(r.item.publicKey, r.item.payload))
  }

  /** The session is open and the request comes from the peer and is for this device. */
  predicate Addressed<P>(self: Peer, d: DeviceState, peer: Peer, request: Request<P>) {
    && d.session.Some? && d.session.value.id == request.session
    && request.from == Some(peer) && request.device == Some(self)
  }

  function Opens<K, P>(c: Suite<K, P>, self: Peer, d: DeviceState, peer: Peer, request: Request<P>): Option<Clear>
    requires d.session.Some?
  {
    c.open(c.derive(d.session.value.code, SaltOf(request.session, peer, self)), request.payload)
  }

  /** Each answer with its exact cause, in the order they are checked; whatever the answer, the session is spent. */
  lemma {:induction false} AnswersMean<K, P>(
    c: Suite<K, P>, self: Peer, d: DeviceState, peer: Peer, request: Request<P>, faults: Faults, now: nat)
    ensures var (after, r) := Accepting(c, self, d, peer, request, faults, now);
      && after.session == None
      && (r == Err(NoSession) <==> d.session.None? || d.session.value.id != request.session)
      && (r == Err(SenderMismatch) <==> d.session.Some? && d.session.value.id == request.session && request.from != Some(peer))
      && (r == Err(WrongDestination)
          <==> && d.session.Some? && d.session.value.id == request.session
               && request.from == Some(peer) && request.device != Some(self))
      && (Addressed(self, d, peer, request) ==>
            var clear := Opens(c, self, d, peer, request);
            && (r == Err(WrongCode) <==> clear == None)
            && (r == Err(MalformedPayload)
                <==> clear == Some(Undecodable) || (clear.Some? && clear.value.Decoded? && clear.value.data.version != 1))
            && (clear.Some? && clear.value.Decoded? && clear.value.data.version == 1 ==>
                  var data := clear.value.data;
                  && (r == Err(BadIdentity) <==> data.identityKey == Unusable)
                  && (data.identityKey.Usable? ==>
                        var owner := data.identityKey.identity;
                        var sound := forall i :: 0 <= i < |data.records| ==> Sound(data.records[i], owner);
                        var stuck := faults.store.Some? && faults.store.value < |data.records|;
                        && (r == Err(InvalidRecords) <==> !sound)
                        && (r == Err(KeyNotWritten) <==> sound && faults.keyWrite)
                        && (r == Err(NotStored) <==> sound && !faults.keyWrite && stuck)
                        && (r.Ok? <==> sound && !faults.keyWrite && !stuck)
                        && (r.Ok? ==> r == Ok(owner))
                        && (r.Ok? || r == Err(NotStored) ==> after.identityKey == Some(Usable(owner))))))
  {
    if d.session.Some? {
      SaltSpellsOut(request.session, peer, self);
    }
    hide Salt, SaltOf, Installed;
    if Addressed(self, d, peer, request) {
      var clear := Opens(c, self, d, peer, request);
      if clear.Some? && clear.value.Decoded? && clear.value.data.identityKey.Usable? {
        var data := clear.value.data;
        var owner := data.identityKey.identity;
        assert forall i :: 0 <= i < |data.records| ==> (Sound(data.records[i], owner) <==> Transferable(data.records[i], owner));
        var n := if faults.store.Some? && faults.store.value < |data.records| then faults.store.value else |data.records|;
        InstalledFrame(d.(session := None, identityKey := Some(data.identityKey)), owner, data.records, n, faults.pointers, now);
      }
    }
  }

  /** What accepting installs is exactly this, record by record, up to the first that cannot be stored. */
  lemma {:induction false} AcceptedInstalls<K, P>(
    c: Suite<K, P>, self: Peer, d: DeviceState, peer: Peer, request: Request<P>, faults: Faults, now: nat)
    requires var r := Accepting(c, self, d, peer, request, faults, now).1; r.Ok? || r == Err(NotStored)
    ensures Addressed(self, d, peer, request)
    ensures var clear := Opens(c, self, d, peer, request);
      && clear.Some? && clear.value.Decoded? && clear.value.data.identityKey.Usable?
      && var data, r := clear.value.data, Accepting(c, self, d, peer, request, faults, now).1;
         && (r == Err(NotStored) ==> faults.store.Some? && faults.store.value < |data.records|)
         && Accepting(c, self, d, peer, request, faults, now).0
            == Installed(d.(session := None, identityKey := Some(data.identityKey)), data.identityKey.identity, data.records,
                         if r.Ok? then |data.records| else faults.store.value, faults.pointers, now)
  {
    AnswersMean(c, self, d, peer, request, faults, now);
    if d.session.Some? {
      SaltSpellsOut(request.session, peer, self);
    }
    hide Salt, SaltOf, Installed, AllTransferable;
  }

  /** The last of the first `n` records that is for `name` and whose pointer file could be written. */
  predicate LastWritten(records: seq<Record>, n: nat, failed: set<nat>, name: string, i: int)
    requires n <= |records|
  {
    && 0 <= i < n && i !in failed && records[i].name == name
    && forall j :: i < j < n && j !in failed ==> records[j].name != name
  }

  /** One of the first `n` records brings the object. */
  predicate BringsObject(records: seq<Record>, n: nat, id: Id)
    requires n <= |records|
  {
    exists i :: 0 <= i < n && records[i].item.id == id
  }

  /** After installing `n` records just their objects are stored, and marked cached at that time. */
  lemma {:induction false} InstalledObjectsMean(
    d: DeviceState, owner: Identity, records: seq<Record>, n: nat, failed: set<nat>, now: nat, id: Id)
    requires n <= |records|
    ensures var after := Installed(d, owner, records, n, failed, now);
      if BringsObject(records, n, id) then
        && id in after.files && (exists i :: 0 <= i < n && records[i].item.id == id && after.files[id] == Holds(records[i].item))
        && id in after.cache && after.cache[id] == now
      else
        && (id in after.files <==> id in d.files) && (id in d.files ==> after.files[id] == d.files[id])
        && (id in after.cache <==> id in d.cache) && (id in d.cache ==> after.cache[id] == d.cache[id])
    decreases n
  {
    if n > 0 {
      InstalledObjectsMean(d, owner, records, n - 1, failed, now, id);
      var before, after := Installed(d, owner, records, n - 1, failed, now), Installed(d, owner, records, n, failed, now);
      var item := records[n - 1].item;
      assert after.files == before.files[item.id := Holds(item)] && after.cache == before.cache[item.id := now];
      hide Installed;
      assert BringsObject(records, n, id) <==> BringsObject(records, n - 1, id) || item.id == id;
      if item.id == id {
        assert records[n - 1].item.id == id && after.files[id] == Holds(records[n - 1].item);
      }
    }
  }

  /** Each slot of the identity then holds the pointer of the last record written for it, and no other slot moved. */
  lemma {:induction false} InstalledSlotsMean(
    d: DeviceState, owner: Identity, records: seq<Record>, n: nat, failed: set<nat>, now: nat, slot: (Identity, string), i: int)
    requires n <= |records|
    ensures var after := Installed(d, owner, records, n, failed, now);
      && (LastWritten(records, n, failed, slot.1, i) && slot.0 == owner ==>
            slot in after.records && after.records[slot] == records[i].pointer)
      && ((slot.0 != owner || forall j :: 0 <= j < n && j !in failed ==> records[j].name != slot.1) ==>
            (slot in after.records <==> slot in d.records) && (slot in d.records ==> after.records[slot] == d.records[slot]))
    decreases n
  {
    if n > 0 {
      InstalledSlotsMean(d, owner, records, n - 1, failed, now, slot, i);
      var before, after := Installed(d, owner, records, n - 1, failed, now), Installed(d, owner, records, n, failed, now);
      var r := records[n - 1];
      assert after.records == if n - 1 in failed then before.records else before.records[(owner, r.name) := r.pointer];
      hide Installed;
      if i < n - 1 && LastWritten(records, n, failed, slot.1, i) {
        assert LastWritten(records, n - 1, failed, slot.1, i);
      }
    }
  }

  // ---- sending -------------------------------------------------------------------------------------

  /** A slot contributes a genuine own pointer and the own object stored under what it names, and nothing else. */
  lemma {:induction false} SlotContributesIff(s: Source, name: string, r: Record)
    ensures SlotRecord(s, name) == Some(r)
       <==> && (s.identity, name) in s.records && s.records[(s.identity, name)] == r.pointer && r.name == name
            && r.pointer.owner == s.identity && r.pointer.signer == r.pointer.owner
            && r.pointer.manifest in s.files && s.files[r.pointer.manifest] == Holds(r.item)
            && r.item.id == r.pointer.manifest && r.item.payload.owner == s.identity
            && r.item == Object(Digest(r.item.payload), r.item.payload, r.item.publicKey, Signed(r.item.publicKey, r.item.payload))
  {
  }

  /**
   What is sent: nothing for a shown code of another version, another code, no device or this
   one; and else, under the key of the typed code and the salt, the identity with what the
   devices, profile and contacts slots contribute, in that order.
   */
  lemma {:induction false} SendingMeans<K, P>(c: Suite<K, P>, s: Source, qr: Qr, typed: string, nonce: nat)
    ensures var r := Completed(c, s, qr, typed, nonce);
      && (r == Err(UnsupportedVersion) <==> qr.version != 1)
      && (r == Err(CodeMismatch) <==> qr.version == 1 && qr.code != typed)
      && (r == Err(BadDevice) <==> qr.version == 1 && qr.code == typed && qr.device == None)
      && (r == Err(SelfPairing) <==> qr.version == 1 && qr.code == typed && qr.device == Some(s.self))
      && (r.Ok? <==> qr.version == 1 && qr.code == typed && qr.device.Some? && qr.device.value != s.self)
      && (r.Ok? ==>
            var records := OfSlot(s, "devices") + OfSlot(s, "profile") + OfSlot(s, "contacts");
            r == Ok(Request(Some(s.self), qr.device, qr.session,
                            c.seal(c.derive(typed, SaltOf(qr.session, s.self, qr.device.value)), nonce,
                                   Decoded(Data(1, Usable(s.identity), records))))))
  {
    if qr.device.Some? {
      SaltSpellsOut(qr.session, s.self, qr.device.value);
    }
    GatheredInOrder(s);
    hide Salt, SaltOf, Gathered, OfSlot;
  }

  lemma {:induction false} GatheredInOrder(s: Source)
    ensures Gathered(s, TRANSFERRED) == OfSlot(s, "devices") + OfSlot(s, "profile") + OfSlot(s, "contacts")
  {
    hide OfSlot;
    assert TRANSFERRED[..2] == ["devices", "profile"] && ["devices", "profile"][..1] == ["devices"] && ["devices"][..0] == [];
    assert Gathered(s, []) == [];
    assert Gathered(s, ["devices"]) == [] + OfSlot(s, "devices") == OfSlot(s, "devices");
    assert Gathered(s, ["devices", "profile"]) == OfSlot(s, "devices") + OfSlot(s, "profile");
  }

  lemma {:induction false} OfSlotMeans(s: Source, name: string)
    ensures OfSlot(s, name) == if SlotRecord(s, name) == None then [] else [SlotRecord(s, name).value]
  {
  }
}
