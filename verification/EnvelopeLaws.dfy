/**
 The envelope octet by octet: what is written where, under which key each slot is wrapped,
 and what reading any bytes at all gives, with every offset and constant spelled out.
 */
module EnvelopeLaws {
  import opened Prelude
  import opened Bytes
  import opened Crypto
  import opened Envelope

  /** The recipients in the order of their slots: the owner, and each key named further at its end, once. */
  lemma {:induction false} RecipientsMean(owner: Key, alsoFor: seq<Key>, k: Key)
    ensures Recipients(owner, []) == [owner]
    ensures Recipients(owner, alsoFor + [k])
         == Recipients(owner, alsoFor) + if k == owner || k in alsoFor then [] else [k]
  {
    assert (alsoFor + [k])[..|alsoFor|] == alsoFor;
    var r := Recipients(owner, alsoFor);
    assert r + [] == r;
  }

  // ---- what is written -------------------------------------------------------------------------

  /** Where everything lies in an envelope for `n` recipients, the i-th slot included. */
  lemma {:induction false} SealedOctets(c: Suite, recipients: seq<Key>, draws: Draws, plaintext: Octets, i: nat)
    requires Ideal(c) && Fresh(c, draws, plaintext)
    requires i < |recipients| <= |draws.slots| && forall k :: k in recipients ==> c.world(k)
    ensures var b, n, at := Sealed(c, recipients, draws, plaintext), |recipients|, 40 + 104 * i;
      && |b| == 40 + 104 * n + |plaintext| + 16
      && b[..4] == [0x43, 0x4e, 0x50, 0x31] && b[4] == 1 && b[5] == 0
      && b[6] == n % 256 && b[7] == (n / 256) % 256 && b[8..16] == draws.salt && b[16..40] == draws.contentNonce
      && b[at..at + 32] == c.publicKey(draws.slots[i].secret) && b[at + 32..at + 56] == draws.slots[i].nonce
      && b[at + 56..at + 104] == c.encrypt(
           c.hkdf(c.agree(draws.slots[i].secret, recipients[i]), draws.salt,
                  WRAP_INFO + c.publicKey(draws.slots[i].secret) + recipients[i]),
           draws.slots[i].nonce, draws.contentKey)
      && b[40 + 104 * n..] == c.encrypt(draws.contentKey, draws.contentNonce, plaintext)
  {
    var secret, tail := draws.slots[0].secret, c.encrypt(draws.contentKey, draws.contentNonce, plaintext);
    LawsSuffice(c, secret, recipients, draws, plaintext);
    assert |tail| == |plaintext| + 16;
    SlotOctets(c, recipients[i], draws.slots[i], draws);
    hide Ideal, Fresh, Spent, Slots, Slot, Header, WithTail, Scannable;
    assert Sealed(c, recipients, draws, plaintext) == WithTail(c, recipients, draws, tail) by { SealedHasTail(c, recipients, draws, plaintext); }
    hide Sealed;
    SlotsLength(c, secret, recipients, draws);
    HeaderReadsBack(c, recipients, draws, tail);
    HeaderOctets(c, recipients, draws, tail);
    TailReadsBack(c, recipients, draws, tail, |recipients|);
    SlotReadsBack(c, secret, recipients, draws, tail, i);
    SlotParts(WithTail(c, recipients, draws, tail), i);
  }

  lemma {:induction false} SealedHasTail(c: Suite, recipients: seq<Key>, draws: Draws, plaintext: Octets)
    requires |recipients| <= |draws.slots|
    ensures Sealed(c, recipients, draws, plaintext)
         == WithTail(c, recipients, draws, c.encrypt(draws.contentKey, draws.contentNonce, plaintext))
  {
  }

  lemma {:induction false} HeaderOctets(c: Suite, recipients: seq<Key>, draws: Draws, tail: Octets)
    requires |recipients| <= |draws.slots|
    ensures var b, n := WithTail(c, recipients, draws, tail), |recipients|;
      |b| >= 40 && b[5] == 0 && b[6] == n % 256 && b[7] == (n / 256) % 256
  {
    hide Slots;
    var h := Header(|recipients|, draws);
    assert WithTail(c, recipients, draws, tail)[..40] == h;
  }

  lemma {:induction false} SlotOctets(c: Suite, recipient: Key, draw: SlotDraw, draws: Draws)
    requires Ideal(c)
    ensures var slot, epk := Slot(c, recipient, draw, draws), c.publicKey(draw.secret);
      && |slot| == 104 && slot[..32] == epk && slot[32..56] == draw.nonce
      && slot[56..] == c.encrypt(
           c.hkdf(c.agree(draw.secret, recipient), draws.salt, WRAP_INFO + epk + recipient), draw.nonce, draws.contentKey)
  {
    SlotLength(c, recipient, draw, draws);
  }

  /**
   Under which key the i-th slot is wrapped: of all secrets, salts and infos in use, the 48
   wrapped octets open for the agreed secret with the salt written in the header and the info
   made of the label, the ephemeral key written in the slot and the recipient, and for no other.
   */
  lemma {:induction false} WrapOpensUnderIff(
    c: Suite, recipients: seq<Key>, draws: Draws, plaintext: Octets, i: nat, s: Key, salt: Octets, info: Octets)
    requires Ideal(c) && Fresh(c, draws, plaintext)
    requires i < |recipients| <= |draws.slots| && forall k :: k in recipients ==> c.world(k)
    requires c.secrets(s) && c.salts(salt) && c.infos(info)
    ensures var b, at := Sealed(c, recipients, draws, plaintext), 40 + 104 * i;
      && |b| >= at + 104
      && var text := "canopee/object-wrap/v1";
         c.decrypt(c.hkdf(s, salt, info), b[at + 32..at + 56], b[at + 56..at + 104])
         == if && s == c.agree(draws.slots[i].secret, recipients[i]) && salt == b[8..16]
               && info == seq(22, j requires 0 <= j < 22 => text[j] as int) + b[at..at + 32] + recipients[i]
            then Some(draws.contentKey) else None
  {
    hide Sealed;
    SealedOctets(c, recipients, draws, plaintext, i);
    LabelSpellsOut();
    var text := "canopee/object-wrap/v1";
    assert WRAP_INFO == seq(22, j requires 0 <= j < 22 => text[j] as int);
    var epk := c.publicKey(draws.slots[i].secret);
    var agreed, context := c.agree(draws.slots[i].secret, recipients[i]), WRAP_INFO + epk + recipients[i];
    assert c.world(epk) && c.secrets(agreed) && c.infos(context);
    var made, tried := c.hkdf(agreed, draws.salt, context), c.hkdf(s, salt, info);
    assert c.derived(made) && c.derived(tried);
    if made == tried {
      assert c.decrypt(made, draws.slots[i].nonce, c.encrypt(made, draws.slots[i].nonce, draws.contentKey))
        == Some(draws.contentKey);
    } else {
      assert c.decrypt(tried, draws.slots[i].nonce, c.encrypt(made, draws.slots[i].nonce, draws.contentKey)).None?;
    }
  }

  // ---- what reading gives ------------------------------------------------------------------------

  /** What the i-th slot of any bytes yields to `secret`, if anything. */
  function Yields(c: Suite, secret: Key, b: Octets, i: nat): Option<Key>
    requires 40 + 104 * (i + 1) <= |b|
  {
    var at := 40 + 104 * i;
    var epk: Key := b[at..at + 32];
    if forall j :: 0 <= j < 32 ==> epk[j] == 0 then None
    else
      var key := c.hkdf(c.agree(secret, epk), b[8..16], WRAP_INFO + epk + c.publicKey(secret));
      var found := c.decrypt(key, b[at + 32..at + 56], b[at + 56..at + 104]);
      if found.Some? && |found.value| == 32 then Some(found.value) else None
  }

  lemma {:induction false} YieldsIsSlotKey(c: Suite, secret: Key, b: Octets, i: nat)
    requires 40 + 104 * (i + 1) <= |b|
    ensures SlotKey(c, secret, b[8..8 + SALT_LEN], SlotAt(b, i)) == Yields(c, secret, b, i)
  {
    SlotParts(b, i);
    var epk := b[40 + 104 * i..40 + 104 * i + 32];
    assert (forall j :: 0 <= j < 32 ==> epk[j] == 0) <==> epk == Zeros(32);
    hide SlotAt;
  }

  /** The i-th slot is the first that yields a key. */
  predicate FirstYield(c: Suite, secret: Key, b: Octets, count: nat, i: nat)
    requires 40 + 104 * count <= |b|
  {
    i < count && Yields(c, secret, b, i).Some? && forall j :: 0 <= j < i ==> Yields(c, secret, b, j).None?
  }

  lemma {:induction false} ScanYields(c: Suite, secret: Key, b: Octets, from: nat, count: nat)
    requires from <= count && 40 + 104 * count <= |b|
    requires forall j :: 0 <= j < from ==> Yields(c, secret, b, j).None?
    ensures FirstKey(c, secret, b, from, count).None? <==> forall j :: 0 <= j < count ==> Yields(c, secret, b, j).None?
    ensures forall i :: 0 <= i < count && FirstYield(c, secret, b, count, i) ==>
      FirstKey(c, secret, b, from, count) == Yields(c, secret, b, i)
    ensures FirstKey(c, secret, b, from, count).Some? ==> exists i :: 0 <= i < count && FirstYield(c, secret, b, count, i)
    decreases count - from
  {
    hide Yields, SlotKey, SlotAt;
    if from < count {
      YieldsIsSlotKey(c, secret, b, from);
      if Yields(c, secret, b, from).Some? {
        assert FirstYield(c, secret, b, count, from);
      } else {
        ScanYields(c, secret, b, from + 1, count);
      }
    }
  }

  /** The bytes carry the four magic octets and more than a header. */
  predicate Marked(b: Octets) {
    |b| > 40 && b[0] == 0x43 && b[1] == 0x4e && b[2] == 0x50 && b[3] == 0x31
  }

  /** The number of recipients the header announces. */
  function Announced(b: Octets): nat
    requires |b| >= 8
  {
    var low: nat, high: nat := b[6], b[7];
    low + 256 * high
  }

  /** They are of version 1, name some recipients and hold a slot for each. */
  predicate Scanned(b: Octets) {
    Marked(b) && b[4] == 1 && Announced(b) > 0 && |b| >= 40 + 104 * Announced(b)
  }

  /**
   Reading any bytes at all. Each refusal has its exact cause, in order; otherwise the first
   slot that yields a key decides, and the plaintext is what that key opens of all that
   follows the slots, under the nonce of the header.
   */
  lemma {:induction false} OpenedMeans(c: Suite, secret: Key, b: Octets)
    ensures var r := Opened(c, secret, b);
      && (r == Err(NotEncrypted) <==> !Marked(b))
      && (forall v :: r == Err(UnsupportedVersion(v)) <==> Marked(b) && b[4] == v && v != 1)
      && (r == Err(Malformed(NoRecipients)) <==> Marked(b) && b[4] == 1 && b[6] == 0 && b[7] == 0)
      && (r == Err(Malformed(Truncated))
          <==> Marked(b) && b[4] == 1 && Announced(b) > 0 && |b| < 40 + 104 * (Announced(b)))
    ensures Scanned(b) ==>
      var count := Announced(b);
      var r := Opened(c, secret, b);
      && (r == Err(NoMatchingRecipient) <==> forall j :: 0 <= j < count ==> Yields(c, secret, b, j).None?)
      && forall i :: 0 <= i < count && FirstYield(c, secret, b, count, i) ==>
           match c.decrypt(Yields(c, secret, b, i).value, b[16..40], b[40 + 104 * count..])
           case Some(plaintext) => r == Ok(plaintext)
           case None => r == Err(DecryptFailed)
  {
    hide Yields, FirstKey;
    assert |b| > 40 ==> (b[..4] == MAGIC <==> b[0] == 0x43 && b[1] == 0x4e && b[2] == 0x50 && b[3] == 0x31) by {
      assert |b| > 40 && b[0] == 0x43 && b[1] == 0x4e && b[2] == 0x50 && b[3] == 0x31 ==> b[..4] == MAGIC;
    }
    if Scanned(b) {
      ScanYields(c, secret, b, 0, Announced(b));
      hide FirstYield;
    }
  }
}
