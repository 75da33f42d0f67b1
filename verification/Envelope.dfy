/**
 The multi-recipient object envelope. A fixed header of 40 octets (`Header`) says how
 many slots follow; each slot (`Slot`) wraps the one content key for one recipient;
 what remains is the payload under that key. `EncryptForRecipients` prints it,
 `DecryptEnvelope` parses it and scans the slots. Random bytes are a parameter (`Draws`).
 */
module Envelope {
  import opened Prelude
  import opened Bytes
  import opened Crypto

  const MAGIC: Octets := [0x43, 0x4e, 0x50, 0x31]
  const VERSION: Byte := 1
  const SALT_LEN: nat := 8
  const WRAPPED_KEY_LEN: nat := KEY_LEN + TAG_LEN
  const PER_RECIPIENT_LEN: nat := KEY_LEN + NONCE_LEN + WRAPPED_KEY_LEN
  const HEADER_LEN: nat := 4 + 1 + 1 + 2 + SALT_LEN + NONCE_LEN

  datatype Defect = NoRecipients | Truncated

  datatype EnvelopeError =
    | NotEncrypted
    | UnsupportedVersion(version: Byte)
    | Malformed(defect: Defect)
    | NoMatchingRecipient
    | DecryptFailed

  type Opening = Result<Octets, EnvelopeError>

  datatype SlotDraw = SlotDraw(secret: Key, nonce: Nonce)

  type Salt = s: Octets | |s| == SALT_LEN witness Zeros(SALT_LEN)

  /** The randomness one call consumes; `slots` holds at least one draw per recipient. */
  datatype Draws = Draws(contentKey: Key, salt: Salt, contentNonce: Nonce, slots: seq<SlotDraw>)

  /** The draws are fresh: salt and ephemeral keys are real, the content key is spent on `plaintext` alone. */
  ghost predicate Fresh(c: Suite, draws: Draws, plaintext: Octets) {
    && c.salts(draws.salt)
    && c.sealed(draws.contentKey, draws.contentNonce) == Some(plaintext)
    && forall i :: 0 <= i < |draws.slots| ==> c.world(c.publicKey(draws.slots[i].secret))
  }

  // ---- what is written -----------------------------------------------------

  /** The owner, then each further key the first time it is named. */
  function Recipients(owner: Key, alsoFor: seq<Key>): (r: seq<Key>)
    ensures 0 < |r| <= |alsoFor| + 1 && r[0] == owner
    ensures forall k :: k in r <==> k == owner || k in alsoFor
    ensures forall i, j :: 0 <= i < j < |r| ==> r[i] != r[j]
  {
    if alsoFor == [] then [owner]
    else
      var init, last := alsoFor[..|alsoFor| - 1], alsoFor[|alsoFor| - 1];
      assert alsoFor == init + [last];
      var r := Recipients(owner, init);
      if last in r then r else r + [last]
  }

  function Header(count: nat, draws: Draws): (h: Octets)
    ensures |h| == HEADER_LEN
  {
    MAGIC + [VERSION, 0] + U16Le(count) + draws.salt + draws.contentNonce
  }

  function Slot(c: Suite, recipient: Key, draw: SlotDraw, draws: Draws): Octets {
    var epk := c.publicKey(draw.secret);
    var key := DeriveWrapKey(c, c.agree(draw.secret, recipient), draws.salt, epk, recipient);
    epk + draw.nonce + c.encrypt(key, draw.nonce, draws.contentKey)
  }

  function Slots(c: Suite, recipients: seq<Key>, draws: Draws): Octets
    requires |recipients| <= |draws.slots|
  {
    if recipients == [] then []
    else
      var n := |recipients| - 1;
      Slots(c, recipients[..n], draws) + Slot(c, recipients[n], draws.slots[n], draws)
  }

  /** The whole envelope. */
  function Sealed(c: Suite, recipients: seq<Key>, draws: Draws, plaintext: Octets): Octets
    requires |recipients| <= |draws.slots|
  {
    Header(|recipients|, draws) + Slots(c, recipients, draws)
    + c.encrypt(draws.contentKey, draws.contentNonce, plaintext)
  }

  method DedupRecipients(owner: Key, alsoFor: seq<Key>) returns (recipients: seq<Key>)
    ensures recipients == Recipients(owner, alsoFor)
  {
    recipients := [owner];
    for i := 0 to |alsoFor|
      invariant recipients == Recipients(owner, alsoFor[..i])
    {
      assert alsoFor[..i + 1][..i] == alsoFor[..i];
      if alsoFor[i] != recipients[0] && alsoFor[i] !in recipients {
        recipients := recipients + [alsoFor[i]];
      }
    }
    assert alsoFor[..|alsoFor|] == alsoFor;
  }

  method AppendSlot(c: Suite, head: Octets, recipient: Key, draw: SlotDraw, draws: Draws)
    returns (out: Octets)
    ensures out == head + Slot(c, recipient, draw, draws)
  {
    var epk := c.publicKey(draw.secret);
    var shared := c.agree(draw.secret, recipient);
    var key := DeriveWrapKey(c, shared, draws.salt, epk, recipient);
    var wrapped := c.encrypt(key, draw.nonce, draws.contentKey);
    out := head + epk;
    out := out + draw.nonce;
    out := out + wrapped;
    assert head + epk + draw.nonce + wrapped == head + (epk + draw.nonce + wrapped);
  }

  method EncryptForRecipients(c: Suite, secret: Key, plaintext: Octets, alsoFor: seq<Key>, draws: Draws)
    returns (out: Octets)
    requires |alsoFor| < |draws.slots|
    ensures out == Sealed(c, Recipients(c.publicKey(secret), alsoFor), draws, plaintext)
  {
    hide Slot;
    var recipients := DedupRecipients(c.publicKey(secret), alsoFor);
    var ciphertext := c.encrypt(draws.contentKey, draws.contentNonce, plaintext);
    out := MAGIC + [VERSION, 0] + U16Le(|recipients|);
    out := out + draws.salt + draws.contentNonce;
    ghost var header := out;
    for i := 0 to |recipients|
      invariant out == header + Slots(c, recipients[..i], draws)
    {
      ghost var before := Slots(c, recipients[..i], draws);
      var slot := Slot(c, recipients[i], draws.slots[i], draws);
      out := AppendSlot(c, out, recipients[i], draws.slots[i], draws);
      assert recipients[..i + 1][..i] == recipients[..i];
      Assoc(header, before, slot);
    }
    assert recipients[..|recipients|] == recipients;
    out := out + ciphertext;
  }

  // ---- what is read --------------------------------------------------------

  predicate IsEnvelope(bytes: Octets) {
    |bytes| > HEADER_LEN && bytes[..4] == MAGIC
  }

  function Count(bytes: Octets): (n: nat)
    requires |bytes| >= HEADER_LEN
    ensures n < U16_LIMIT
  {
    FromU16Le(bytes[6], bytes[7])
  }

  function SlotAt(bytes: Octets, i: nat): (slot: Octets)
    requires HEADER_LEN + PER_RECIPIENT_LEN * (i + 1) <= |bytes|
    ensures |slot| == PER_RECIPIENT_LEN
  {
    var base := HEADER_LEN + PER_RECIPIENT_LEN * i;
    bytes[base..base + PER_RECIPIENT_LEN]
  }

  /** The content key `secret` finds in one slot, if the slot opens for it. */
  function SlotKey(c: Suite, secret: Key, salt: Octets, slot: Octets): Option<Key>
    requires |slot| == PER_RECIPIENT_LEN
  {
    var epk: Key := slot[..KEY_LEN];
    if epk == Zeros(KEY_LEN) then None
    else
      var key := DeriveWrapKey(c, c.agree(secret, epk), salt, epk, c.publicKey(secret));
      match c.decrypt(key, slot[KEY_LEN..KEY_LEN + NONCE_LEN], slot[KEY_LEN + NONCE_LEN..])
      case Some(k) => if |k| == KEY_LEN then Some(k) else None
      case None => None
  }

  /** The content key in the first slot from `i` on that opens. */
  function FirstKey(c: Suite, secret: Key, bytes: Octets, i: nat, count: nat): Option<Key>
    requires i <= count && HEADER_LEN + PER_RECIPIENT_LEN * count <= |bytes|
    decreases count - i
  {
    if i == count then None
    else
      var found := SlotKey(c, secret, bytes[8..8 + SALT_LEN], SlotAt(bytes, i));
      if found.Some? then found else FirstKey(c, secret, bytes, i + 1, count)
  }

  lemma {:induction false} SlotParts(bytes: Octets, i: nat)
    requires HEADER_LEN + PER_RECIPIENT_LEN * (i + 1) <= |bytes|
    ensures var slot, base := SlotAt(bytes, i), HEADER_LEN + PER_RECIPIENT_LEN * i;
      && slot[..KEY_LEN] == bytes[base..base + KEY_LEN]
      && slot[KEY_LEN..KEY_LEN + NONCE_LEN] == bytes[base + KEY_LEN..base + KEY_LEN + NONCE_LEN]
      && slot[KEY_LEN + NONCE_LEN..] == bytes[base + KEY_LEN + NONCE_LEN..base + PER_RECIPIENT_LEN]
  {
    var base := HEADER_LEN + PER_RECIPIENT_LEN * i;
    SliceOfSlice(bytes, base, base + PER_RECIPIENT_LEN, 0, KEY_LEN);
    SliceOfSlice(bytes, base, base + PER_RECIPIENT_LEN, KEY_LEN, KEY_LEN + NONCE_LEN);
    SliceOfSlice(bytes, base, base + PER_RECIPIENT_LEN, KEY_LEN + NONCE_LEN, PER_RECIPIENT_LEN);
  }

  function Opened(c: Suite, secret: Key, bytes: Octets): Opening {
    if !IsEnvelope(bytes) then Err(NotEncrypted)
    else if bytes[4] != VERSION then Err(UnsupportedVersion(bytes[4]))
    else if Count(bytes) == 0 then Err(Malformed(NoRecipients))
    else
      var end := HEADER_LEN + PER_RECIPIENT_LEN * Count(bytes);
      if |bytes| < end then Err(Malformed(Truncated))
      else
        match FirstKey(c, secret, bytes, 0, Count(bytes))
        case None => Err(NoMatchingRecipient)
        case Some(key) =>
          match c.decrypt(key, bytes[8 + SALT_LEN..HEADER_LEN], bytes[end..])
          case Some(plaintext) => Ok(plaintext)
          case None => Err(DecryptFailed)
  }

  /** One slot, read where it lies. */
  method TrySlot(c: Suite, secret: Key, salt: Octets, bytes: Octets, i: nat) returns (found: Option<Key>)
    requires HEADER_LEN + PER_RECIPIENT_LEN * (i + 1) <= |bytes|
    ensures found == SlotKey(c, secret, salt, SlotAt(bytes, i))
  {
    hide WrapContext;
    var base := HEADER_LEN + PER_RECIPIENT_LEN * i;
    var epk := bytes[base..base + KEY_LEN];
    var wrapNonce := bytes[base + KEY_LEN..base + KEY_LEN + NONCE_LEN];
    var wrapped := bytes[base + KEY_LEN + NONCE_LEN..base + PER_RECIPIENT_LEN];
    SlotParts(bytes, i);
    hide SlotAt;
    if epk == Zeros(KEY_LEN) {
      return None;
    }
    var shared := c.agree(secret, epk);
    var key := DeriveWrapKey(c, shared, salt, epk, c.publicKey(secret));
    var unwrapped := c.decrypt(key, wrapNonce, wrapped);
    if unwrapped.Some? && |unwrapped.value| == KEY_LEN {
      return unwrapped;
    }
    return None;
  }

  /** The slot scan, stopping at the first slot that opens. */
  method FindContentKey(c: Suite, secret: Key, bytes: Octets, count: nat) returns (contentKey: Option<Key>)
    requires HEADER_LEN + PER_RECIPIENT_LEN * count <= |bytes|
    ensures contentKey == FirstKey(c, secret, bytes, 0, count)
  {
    hide SlotKey, SlotAt;
    var salt := bytes[8..8 + SALT_LEN];
    contentKey := None;
    var i := 0;
    while i < count && contentKey.None?
      invariant 0 <= i <= count
      invariant FirstKey(c, secret, bytes, 0, count)
             == if contentKey.Some? then contentKey else FirstKey(c, secret, bytes, i, count)
      decreases count - i
    {
      contentKey := TrySlot(c, secret, salt, bytes, i);
      i := i + 1;
    }
  }

  /** Reads any bytes at all: every slice is in bounds. */
  method DecryptEnvelope(c: Suite, secret: Key, bytes: Octets) returns (r: Opening)
    ensures r == Opened(c, secret, bytes)
  {
    if !IsEnvelope(bytes) {
      return Err(NotEncrypted);
    }
    var version := bytes[4];
    if version != VERSION {
      return Err(UnsupportedVersion(version));
    }
    var count := FromU16Le(bytes[6], bytes[7]);
    if count == 0 {
      return Err(Malformed(NoRecipients));
    }
    var recipientsEnd := HEADER_LEN + count * PER_RECIPIENT_LEN;
    if |bytes| < recipientsEnd {
      return Err(Malformed(Truncated));
    }
    var ciphertext := bytes[recipientsEnd..];
    var contentKey := FindContentKey(c, secret, bytes, count);
    if contentKey.None? {
      return Err(NoMatchingRecipient);
    }
    var contentNonce := bytes[8 + SALT_LEN..HEADER_LEN];
    var plain := c.decrypt(contentKey.value, contentNonce, ciphertext);
    if plain.None? {
      return Err(DecryptFailed);
    }
    return Ok(plain.value);
  }

  /** The read path: cleartext objects pass through untouched. */
  method DecryptIfEncrypted(c: Suite, secret: Key, bytes: Octets) returns (r: Opening)
    ensures !IsEnvelope(bytes) ==> r == Ok(bytes)
    ensures IsEnvelope(bytes) ==> r == Opened(c, secret, bytes)
  {
    if !IsEnvelope(bytes) {
      return Ok(bytes);
    }
    r := DecryptEnvelope(c, secret, bytes);
  }

  // ---- reading back what was written -----------------------------------------

  lemma {:induction false} SlotLength(c: Suite, recipient: Key, draw: SlotDraw, draws: Draws)
    requires Ideal(c)
    ensures |Slot(c, recipient, draw, draws)| == PER_RECIPIENT_LEN
  {
  }

  /** An identity finds the content key in exactly the slots made for its own public key. */
  lemma {:induction false} SlotOpensOnlyForItsRecipient(
    c: Suite, secret: Key, recipient: Key, draw: SlotDraw, draws: Draws)
    requires Ideal(c)
    requires c.salts(draws.salt) && c.world(recipient) && c.world(c.publicKey(secret)) && c.world(c.publicKey(draw.secret))
    ensures |Slot(c, recipient, draw, draws)| == PER_RECIPIENT_LEN
    ensures SlotKey(c, secret, draws.salt, Slot(c, recipient, draw, draws))
         == if recipient == c.publicKey(secret) then Some(draws.contentKey) else None
  {
    var slot := Slot(c, recipient, draw, draws);
    var epk := c.publicKey(draw.secret);
    var mine := c.publicKey(secret);
    var made := DeriveWrapKey(c, c.agree(draw.secret, recipient), draws.salt, epk, recipient);
    var tried := DeriveWrapKey(c, c.agree(secret, epk), draws.salt, epk, mine);
    var wrapped := c.encrypt(made, draw.nonce, draws.contentKey);
    SlotLength(c, recipient, draw, draws);
    assert slot[..KEY_LEN] == epk;
    assert slot[KEY_LEN..KEY_LEN + NONCE_LEN] == draw.nonce;
    assert slot[KEY_LEN + NONCE_LEN..] == wrapped;
    assert c.infos(WRAP_INFO + epk + recipient) && c.infos(WRAP_INFO + epk + mine);
    assert c.secrets(c.agree(draw.secret, recipient)) && c.secrets(c.agree(secret, epk));
    assert c.derived(made) && c.derived(tried);
    if recipient == mine {
      assert c.agree(secret, epk) == c.agree(draw.secret, mine);
      assert c.decrypt(tried, draw.nonce, wrapped) == Some(draws.contentKey);
    } else {
      var n := |WRAP_INFO| + KEY_LEN;
      assert (WRAP_INFO + epk + recipient)[n..] == recipient && (WRAP_INFO + epk + mine)[n..] == mine;
      assert made != tried;
      assert c.decrypt(tried, draw.nonce, wrapped).None?;
    }
  }

  /** What the laws give for one reader: its own slots open, all others do not. */
  ghost predicate Scannable(c: Suite, secret: Key, recipients: seq<Key>, draws: Draws)
    requires |recipients| <= |draws.slots|
  {
    forall i :: 0 <= i < |recipients| ==>
      var slot := Slot(c, recipients[i], draws.slots[i], draws);
      && |slot| == PER_RECIPIENT_LEN
      && SlotKey(c, secret, draws.salt, slot)
         == if recipients[i] == c.publicKey(secret) then Some(draws.contentKey) else None
  }

  /** What the laws give for the payload: under the single-use key only the ciphertext made opens. */
  ghost predicate Spent(c: Suite, draws: Draws, plaintext: Octets) {
    var ciphertext := c.encrypt(draws.contentKey, draws.contentNonce, plaintext);
    && |ciphertext| == |plaintext| + TAG_LEN
    && forall x :: c.decrypt(draws.contentKey, draws.contentNonce, x)
                == if x == ciphertext then Some(plaintext) else None
  }

  lemma {:induction false} LawsSuffice(c: Suite, secret: Key, recipients: seq<Key>, draws: Draws, plaintext: Octets)
    requires Ideal(c) && Fresh(c, draws, plaintext) && |recipients| <= |draws.slots|
    requires c.world(c.publicKey(secret)) && forall k :: k in recipients ==> c.world(k)
    ensures Scannable(c, secret, recipients, draws) && Spent(c, draws, plaintext)
  {
    forall i | 0 <= i < |recipients|
      ensures var slot := Slot(c, recipients[i], draws.slots[i], draws);
        && |slot| == PER_RECIPIENT_LEN
        && SlotKey(c, secret, draws.salt, slot)
           == if recipients[i] == c.publicKey(secret) then Some(draws.contentKey) else None
    {
      SlotOpensOnlyForItsRecipient(c, secret, recipients[i], draws.slots[i], draws);
    }
  }

  lemma {:induction false} SlotsLength(c: Suite, secret: Key, recipients: seq<Key>, draws: Draws)
    requires |recipients| <= |draws.slots| && Scannable(c, secret, recipients, draws)
    ensures |Slots(c, recipients, draws)| == PER_RECIPIENT_LEN * |recipients|
  {
    hide Slot, SlotKey;
    if recipients != [] {
      SlotsLength(c, secret, recipients[..|recipients| - 1], draws);
    }
  }

  lemma {:induction false} SlotWithin(c: Suite, secret: Key, recipients: seq<Key>, draws: Draws, i: nat)
    requires i < |recipients| <= |draws.slots| && Scannable(c, secret, recipients, draws)
    ensures |Slots(c, recipients, draws)| == PER_RECIPIENT_LEN * |recipients|
    ensures Slots(c, recipients, draws)[PER_RECIPIENT_LEN * i..PER_RECIPIENT_LEN * (i + 1)]
         == Slot(c, recipients[i], draws.slots[i], draws)
  {
    hide Slot, SlotKey;
    SlotsLength(c, secret, recipients, draws);
    var n := |recipients| - 1;
    var init := Slots(c, recipients[..n], draws);
    var last := Slot(c, recipients[n], draws.slots[n], draws);
    SlotsLength(c, secret, recipients[..n], draws);
    Joined(init, last);
    if i < n {
      SlotWithin(c, secret, recipients[..n], draws, i);
      SliceOfSlice(init + last, 0, |init|, PER_RECIPIENT_LEN * i, PER_RECIPIENT_LEN * (i + 1));
    }
  }

  /** An envelope whose tail was replaced by arbitrary bytes. */
  function WithTail(c: Suite, recipients: seq<Key>, draws: Draws, tail: Octets): Octets
    requires |recipients| <= |draws.slots|
  {
    Header(|recipients|, draws) + Slots(c, recipients, draws) + tail
  }

  lemma {:induction false} HeaderReadsBack(c: Suite, recipients: seq<Key>, draws: Draws, tail: Octets)
    requires |recipients| <= |draws.slots|
    ensures var b := WithTail(c, recipients, draws, tail);
      && |b| >= HEADER_LEN && b[..4] == MAGIC && b[4] == VERSION
      && Count(b) == |recipients| % U16_LIMIT
      && b[8..8 + SALT_LEN] == draws.salt
      && b[8 + SALT_LEN..HEADER_LEN] == draws.contentNonce
  {
    hide Slots, Slot;
    var b := WithTail(c, recipients, draws, tail);
    var h := Header(|recipients|, draws);
    var fixed := MAGIC + [VERSION, 0] + U16Le(|recipients|);
    U16LeTruncates(|recipients|);
    assert b == h + (Slots(c, recipients, draws) + tail);
    Joined(h, Slots(c, recipients, draws) + tail);
    assert h == fixed + (draws.salt + draws.contentNonce);
    Joined(fixed, draws.salt + draws.contentNonce);
    Joined(draws.salt, draws.contentNonce);
    SliceOfSlice(b, 0, HEADER_LEN, 0, 4);
    SliceOfSlice(b, 0, HEADER_LEN, 8, HEADER_LEN);
    SliceOfSlice(b, 8, HEADER_LEN, 0, SALT_LEN);
    SliceOfSlice(b, 8, HEADER_LEN, SALT_LEN, SALT_LEN + NONCE_LEN);
    assert fixed[..4] == MAGIC;
    SliceOfSlice(h, 0, 8, 0, 4);
    assert b[4] == h[4] && b[6] == h[6] && b[7] == h[7];
  }

  lemma {:induction false} SlotReadsBack(c: Suite, secret: Key, recipients: seq<Key>, draws: Draws, tail: Octets, i: nat)
    requires i < |recipients| <= |draws.slots| && Scannable(c, secret, recipients, draws)
    ensures |WithTail(c, recipients, draws, tail)| == HEADER_LEN + PER_RECIPIENT_LEN * |recipients| + |tail|
    ensures SlotAt(WithTail(c, recipients, draws, tail), i)
         == Slot(c, recipients[i], draws.slots[i], draws)
  {
    hide Slot, SlotKey, Slots;
    SlotWithin(c, secret, recipients, draws, i);
    var h, slots := Header(|recipients|, draws), Slots(c, recipients, draws);
    var b := WithTail(c, recipients, draws, tail);
    Joined(h + slots, tail);
    Joined(h, slots);
    SliceOfSlice(b, 0, |h + slots|, HEADER_LEN, |h + slots|);
    SliceOfSlice(b, HEADER_LEN, |h + slots|, PER_RECIPIENT_LEN * i, PER_RECIPIENT_LEN * (i + 1));
  }

  /**
   The scan: of the first `count` slots, a reader's own yields the content key
   and every slot before it fails to unwrap.
   */
  lemma {:induction false} ScanFindsOwnSlot(
    c: Suite, secret: Key, recipients: seq<Key>, draws: Draws, tail: Octets, i: nat, count: nat)
    requires i <= count <= |recipients| <= |draws.slots|
    requires Scannable(c, secret, recipients, draws)
    ensures |WithTail(c, recipients, draws, tail)| >= HEADER_LEN + PER_RECIPIENT_LEN * count
    ensures FirstKey(c, secret, WithTail(c, recipients, draws, tail), i, count)
         == if c.publicKey(secret) in recipients[i..count] then Some(draws.contentKey) else None
    decreases count - i
  {
    hide Slot, SlotKey, Slots, SlotAt;
    SlotsLength(c, secret, recipients, draws);
    if i < count {
      HeaderReadsBack(c, recipients, draws, tail);
      SlotReadsBack(c, secret, recipients, draws, tail, i);
      ScanFindsOwnSlot(c, secret, recipients, draws, tail, i + 1, count);
      assert recipients[i..count] == [recipients[i]] + recipients[i + 1..count];
    }
  }

  /** The slots after the first `count`. */
  function Unread(c: Suite, recipients: seq<Key>, draws: Draws, count: nat): Octets
    requires |recipients| <= |draws.slots| && PER_RECIPIENT_LEN * count <= |Slots(c, recipients, draws)|
  {
    Slots(c, recipients, draws)[PER_RECIPIENT_LEN * count..]
  }

  /** What follows the scanned slots: the tail, preceded by whatever slots went unread. */
  lemma {:induction false} TailReadsBack(c: Suite, recipients: seq<Key>, draws: Draws, tail: Octets, count: nat)
    requires |recipients| <= |draws.slots| && count <= |recipients|
    requires |Slots(c, recipients, draws)| == PER_RECIPIENT_LEN * |recipients|
    ensures var b, end := WithTail(c, recipients, draws, tail), HEADER_LEN + PER_RECIPIENT_LEN * count;
      && end <= |b| && b[end..] == Unread(c, recipients, draws, count) + tail
      && (count == |recipients| ==> b[end..] == tail)
  {
    hide Slots, Slot, Header;
    var h, slots := Header(|recipients|, draws), Slots(c, recipients, draws);
    var b, at := WithTail(c, recipients, draws, tail), PER_RECIPIENT_LEN * count;
    assert at <= |slots|;
    Assoc(h, slots, tail);
    DropWithin(h, slots + tail, at);
    assert (slots + tail)[at..] == slots[at..] + tail;
  }

  lemma {:induction false} DropWithin(h: Octets, rest: Octets, at: nat)
    requires at <= |rest|
    ensures (h + rest)[|h| + at..] == rest[at..]
  {
  }

  function Delivered(plain: Option<Octets>): Opening {
    match plain
    case Some(plaintext) => Ok(plaintext)
    case None => Err(DecryptFailed)
  }

  /** `Opened` of well-shaped bytes, given what the scan finds and what follows the slots. */
  lemma {:induction false} OpenedByParts(
    c: Suite, secret: Key, b: Octets, found: Option<Key>, nonce: Nonce, rest: Octets)
    requires IsEnvelope(b) && b[4] == VERSION && Count(b) > 0
    requires HEADER_LEN + PER_RECIPIENT_LEN * Count(b) <= |b|
    requires FirstKey(c, secret, b, 0, Count(b)) == found
    requires b[8 + SALT_LEN..HEADER_LEN] == nonce
    requires b[HEADER_LEN + PER_RECIPIENT_LEN * Count(b)..] == rest
    ensures found.None? ==> Opened(c, secret, b) == Err(NoMatchingRecipient)
    ensures found.Some? ==> Opened(c, secret, b) == Delivered(c.decrypt(found.value, nonce, rest))
  {
  }

  /** Reading a produced head: the scan decides, then the content key meets what follows the slots. */
  lemma {:induction false} OpeningHead(c: Suite, secret: Key, recipients: seq<Key>, draws: Draws, tail: Octets, count: nat)
    returns (rest: Octets)
    requires |recipients| <= |draws.slots| && Scannable(c, secret, recipients, draws)
    requires 0 < count <= |recipients| && count == |recipients| % U16_LIMIT
    ensures |Slots(c, recipients, draws)| == PER_RECIPIENT_LEN * |recipients|
    ensures rest == Unread(c, recipients, draws, count) + tail
    ensures count == |recipients| ==> rest == tail
    ensures Opened(c, secret, WithTail(c, recipients, draws, tail))
         == if c.publicKey(secret) in recipients[..count]
            then Delivered(c.decrypt(draws.contentKey, draws.contentNonce, rest))
            else Err(NoMatchingRecipient)
  {
    hide Opened, WithTail, Slots, FirstKey;
    var b := WithTail(c, recipients, draws, tail);
    HeaderReadsBack(c, recipients, draws, tail);
    SlotsLength(c, secret, recipients, draws);
    TailReadsBack(c, recipients, draws, tail, count);
    ScanFindsOwnSlot(c, secret, recipients, draws, tail, 0, count);
    rest := b[HEADER_LEN + PER_RECIPIENT_LEN * count..];
    OpenedByParts(c, secret, b, FirstKey(c, secret, b, 0, count), draws.contentNonce, rest);
    assert recipients[0..count] == recipients[..count];
  }

  lemma {:induction false} WrappedCountReads(c: Suite, secret: Key, recipients: seq<Key>, draws: Draws, tail: Octets)
    requires 0 < |recipients| <= |draws.slots| && Scannable(c, secret, recipients, draws)
    requires |recipients| % U16_LIMIT == 0
    ensures Opened(c, secret, WithTail(c, recipients, draws, tail)) == Err(Malformed(NoRecipients))
  {
    HeaderReadsBack(c, recipients, draws, tail);
    SlotsLength(c, secret, recipients, draws);
  }

  /**
   The complete account of reading a produced head, whatever tail follows and however
   many recipients there are: the count wraps at 65536, that many slots are scanned, and
   whatever comes after them is the payload only if it is the ciphertext that was written.
   */
  lemma {:induction false} OpeningAnyTail(
    c: Suite, secret: Key, recipients: seq<Key>, draws: Draws, plaintext: Octets, tail: Octets)
    requires 0 < |recipients| <= |draws.slots|
    requires Scannable(c, secret, recipients, draws) && Spent(c, draws, plaintext)
    ensures |Slots(c, recipients, draws)| == PER_RECIPIENT_LEN * |recipients|
    ensures var count := |recipients| % U16_LIMIT;
      Opened(c, secret, WithTail(c, recipients, draws, tail)) ==
        if count == 0 then Err(Malformed(NoRecipients))
        else if c.publicKey(secret) !in recipients[..count] then Err(NoMatchingRecipient)
        else if Unread(c, recipients, draws, count) + tail
                == c.encrypt(draws.contentKey, draws.contentNonce, plaintext) then Ok(plaintext)
        else Err(DecryptFailed)
  {
    hide Opened, Slot, SlotKey, Slots, WithTail, Scannable, Unread;
    var count := |recipients| % U16_LIMIT;
    if count == 0 {
      SlotsLength(c, secret, recipients, draws);
      WrappedCountReads(c, secret, recipients, draws, tail);
    } else {
      var rest := OpeningHead(c, secret, recipients, draws, tail, count);
    }
  }

  lemma {:induction false} OpeningSealed(c: Suite, reader: Key, recipients: seq<Key>, draws: Draws, plaintext: Octets)
    requires 0 < |recipients| <= |draws.slots|
    requires Scannable(c, reader, recipients, draws) && Spent(c, draws, plaintext)
    ensures var r := Opened(c, reader, Sealed(c, recipients, draws, plaintext));
      && (r == Ok(plaintext) <==> c.publicKey(reader) in recipients && |recipients| <= 65535)
      && (|recipients| <= 65535 && c.publicKey(reader) !in recipients ==> r == Err(NoMatchingRecipient))
      && (|recipients| == 65536 ==> r == Err(Malformed(NoRecipients)))
      && (r.Ok? ==> r == Ok(plaintext))
  {
    hide Opened, Slot, SlotKey, Slots, Scannable;
    var ciphertext := c.encrypt(draws.contentKey, draws.contentNonce, plaintext);
    OpeningAnyTail(c, reader, recipients, draws, plaintext, ciphertext);
    assert recipients[..|recipients|] == recipients;
    UnreadLength(c, recipients, draws, |recipients| % U16_LIMIT, ciphertext);
  }

  /** Slots left unread push the ciphertext away from where it is looked for. */
  lemma {:induction false} UnreadLength(c: Suite, recipients: seq<Key>, draws: Draws, count: nat, tail: Octets)
    requires count <= |recipients| <= |draws.slots|
    requires |Slots(c, recipients, draws)| == PER_RECIPIENT_LEN * |recipients|
    ensures Unread(c, recipients, draws, count) + tail == tail <==> count == |recipients|
  {
    hide Slots;
    assert |Unread(c, recipients, draws, count)| == PER_RECIPIENT_LEN * (|recipients| - count);
    if count == |recipients| {
      assert Unread(c, recipients, draws, count) + tail == tail;
    } else {
      assert |Unread(c, recipients, draws, count) + tail| > |tail|;
    }
  }

  /**
   Round trip, with its exact bound: what is written reads back as the
   plaintext for precisely the readers named, if and only if at most 65535
   distinct recipients are named; any reader not named is told so.
   */
  lemma {:induction false} RoundTrip(
    c: Suite, owner: Key, reader: Key, plaintext: Octets, alsoFor: seq<Key>, draws: Draws)
    requires Ideal(c) && Fresh(c, draws, plaintext)
    requires |alsoFor| < |draws.slots|
    requires c.world(c.publicKey(owner)) && c.world(c.publicKey(reader))
    requires forall k :: k in alsoFor ==> c.world(k)
    ensures var recipients := Recipients(c.publicKey(owner), alsoFor);
      var named := c.publicKey(reader) == c.publicKey(owner) || c.publicKey(reader) in alsoFor;
      var r := Opened(c, reader, Sealed(c, recipients, draws, plaintext));
      && (r == Ok(plaintext) <==> named && |recipients| <= 65535)
      && (|recipients| <= 65535 && !named ==> r == Err(NoMatchingRecipient))
      && (|recipients| == 65536 ==> r == Err(Malformed(NoRecipients)))
      && (r.Ok? ==> r == Ok(plaintext))
  {
    hide Opened, Slot, SlotKey, Slots, Scannable, Sealed, Ideal;
    var recipients := Recipients(c.publicKey(owner), alsoFor);
    LawsSuffice(c, reader, recipients, draws, plaintext);
    OpeningSealed(c, reader, recipients, draws, plaintext);
  }

  /** A prefix that still holds all scanned slots differs only in what follows them. */
  lemma {:induction false} OpenedPrefix(c: Suite, secret: Key, b: Octets, cut: nat)
    requires IsEnvelope(b) && b[4] == VERSION && Count(b) > 0
    requires HEADER_LEN + PER_RECIPIENT_LEN * Count(b) <= cut <= |b|
    ensures var found, end := FirstKey(c, secret, b, 0, Count(b)), HEADER_LEN + PER_RECIPIENT_LEN * Count(b);
      Opened(c, secret, b[..cut])
      == if found.None? then Err(NoMatchingRecipient)
         else Delivered(c.decrypt(found.value, b[8 + SALT_LEN..HEADER_LEN], b[end..cut]))
  {
    hide FirstKey;
    var p, end := b[..cut], HEADER_LEN + PER_RECIPIENT_LEN * Count(b);
    PrefixScan(c, secret, b, cut, 0, Count(b));
    SliceOfSlice(b, 0, cut, 0, 4);
    SliceOfSlice(b, 0, cut, 8 + SALT_LEN, HEADER_LEN);
    assert p == b[0..cut] && p[..4] == b[..4] && p[end..] == b[end..cut];
    assert IsEnvelope(p) && Count(p) == Count(b);
    OpenedByParts(c, secret, p, FirstKey(c, secret, p, 0, Count(p)), p[8 + SALT_LEN..HEADER_LEN], p[end..]);
  }

  lemma {:induction false} PrefixScan(c: Suite, secret: Key, b: Octets, cut: nat, i: nat, count: nat)
    requires i <= count && HEADER_LEN + PER_RECIPIENT_LEN * count <= cut <= |b|
    ensures FirstKey(c, secret, b[..cut], i, count) == FirstKey(c, secret, b, i, count)
    decreases count - i
  {
    hide SlotKey;
    if i < count {
      PrefixScan(c, secret, b, cut, i + 1, count);
      assert b[..cut][8..8 + SALT_LEN] == b[8..8 + SALT_LEN];
      assert SlotAt(b[..cut], i) == SlotAt(b, i);
    }
  }

  /**
   A proper prefix of an envelope decrypts, for a reader whose slot is scanned, if and
   only if what it has after the scanned slots is the ciphertext: with up to 65535
   recipients never, beyond that only if the first unread slots happen to spell it.
   */
  lemma {:induction false} PrefixOpensIff(
    c: Suite, reader: Key, recipients: seq<Key>, draws: Draws, plaintext: Octets, cut: nat)
    requires Ideal(c) && Fresh(c, draws, plaintext)
    requires 0 < |recipients| <= |draws.slots|
    requires c.world(c.publicKey(reader)) && forall k :: k in recipients ==> c.world(k)
    requires cut < |Sealed(c, recipients, draws, plaintext)|
    ensures |Slots(c, recipients, draws)| == PER_RECIPIENT_LEN * |recipients|
    ensures var count := |recipients| % U16_LIMIT;
      var end, ciphertext := HEADER_LEN + PER_RECIPIENT_LEN * count, c.encrypt(draws.contentKey, draws.contentNonce, plaintext);
      Opened(c, reader, Sealed(c, recipients, draws, plaintext)[..cut]).Ok?
      <==> c.publicKey(reader) in recipients[..count] && end <= cut
           && ciphertext <= Unread(c, recipients, draws, count) + ciphertext
           && cut == end + |ciphertext|
  {
    LawsSuffice(c, reader, recipients, draws, plaintext);
    hide Ideal, Fresh;
    PrefixOpens(c, reader, recipients, draws, plaintext, cut);
  }

  lemma {:induction false} PrefixOpens(
    c: Suite, reader: Key, recipients: seq<Key>, draws: Draws, plaintext: Octets, cut: nat)
    requires 0 < |recipients| <= |draws.slots|
    requires Scannable(c, reader, recipients, draws) && Spent(c, draws, plaintext)
    requires cut < |Sealed(c, recipients, draws, plaintext)|
    ensures |Slots(c, recipients, draws)| == PER_RECIPIENT_LEN * |recipients|
    ensures var count := |recipients| % U16_LIMIT;
      var end, ciphertext := HEADER_LEN + PER_RECIPIENT_LEN * count, c.encrypt(draws.contentKey, draws.contentNonce, plaintext);
      Opened(c, reader, Sealed(c, recipients, draws, plaintext)[..cut]).Ok?
      <==> c.publicKey(reader) in recipients[..count] && end <= cut
           && ciphertext <= Unread(c, recipients, draws, count) + ciphertext
           && cut == end + |ciphertext|
  {
    hide Slot, SlotKey, Slots, FirstKey, Scannable, Unread;
    var count := |recipients| % U16_LIMIT;
    var end, ciphertext := HEADER_LEN + PER_RECIPIENT_LEN * count, c.encrypt(draws.contentKey, draws.contentNonce, plaintext);
    var whole := WithTail(c, recipients, draws, ciphertext);
    SlotsLength(c, reader, recipients, draws);
    HeaderReadsBack(c, recipients, draws, ciphertext);
    TailReadsBack(c, recipients, draws, ciphertext, count);
    if end <= cut && count > 0 {
      ScanFindsOwnSlot(c, reader, recipients, draws, ciphertext, 0, count);
      assert recipients[0..count] == recipients[..count];
      hide Opened, WithTail;
      OpenedPrefix(c, reader, whole, cut);
      PrefixIs(whole[end..], ciphertext, cut - end);
      SliceOfSlice(whole, end, |whole|, 0, cut - end);
      assert whole[end..cut] == whole[end..][..cut - end];
    } else {
      assert cut > HEADER_LEN ==> Count(whole[..cut]) == Count(whole);
    }
  }

  lemma {:induction false} PrefixIs(all: Octets, x: Octets, n: nat)
    requires n <= |all|
    ensures all[..n] == x <==> n == |x| && x <= all
  {
  }

  /** No proper prefix of an envelope for up to 65535 recipients decrypts for anyone. */
  lemma {:induction false} NoPrefixOpens(
    c: Suite, reader: Key, recipients: seq<Key>, draws: Draws, plaintext: Octets, cut: nat)
    requires Ideal(c) && Fresh(c, draws, plaintext)
    requires 0 < |recipients| <= |draws.slots| && |recipients| < U16_LIMIT
    requires c.world(c.publicKey(reader)) && forall k :: k in recipients ==> c.world(k)
    requires cut < |Sealed(c, recipients, draws, plaintext)|
    ensures Opened(c, reader, Sealed(c, recipients, draws, plaintext)[..cut]).Err?
  {
    hide Opened, Ideal, Fresh, Slots;
    PrefixOpensIff(c, reader, recipients, draws, plaintext, cut);
  }

  /** Replacing the ciphertext by any other bytes is detected by every named reader. */
  lemma {:induction false} TamperedTailFails(
    c: Suite, reader: Key, recipients: seq<Key>, draws: Draws, plaintext: Octets, tail: Octets)
    requires Ideal(c) && Fresh(c, draws, plaintext)
    requires 0 < |recipients| <= |draws.slots| && |recipients| < U16_LIMIT
    requires c.publicKey(reader) in recipients && forall k :: k in recipients ==> c.world(k)
    requires tail != c.encrypt(draws.contentKey, draws.contentNonce, plaintext)
    ensures Opened(c, reader, WithTail(c, recipients, draws, tail)) == Err(DecryptFailed)
  {
    hide Opened, Slot, SlotKey, Slots, Scannable, WithTail;
    LawsSuffice(c, reader, recipients, draws, plaintext);
    OpeningAnyTail(c, reader, recipients, draws, plaintext, tail);
    assert recipients[..|recipients|] == recipients;
    UnreadLength(c, recipients, draws, |recipients|, tail);
  }

  // ---- the hypotheses can be met ---------------------------------------------

  function NumberedKey(i: nat): Key {
    BigEndian(i + 1, 3) + Zeros(29)
  }

  lemma {:induction false} NumberedKeysDiffer(i: nat, j: nat)
    requires i + 1 < Pow256(3) && j + 1 < Pow256(3) && i != j
    ensures NumberedKey(i) != NumberedKey(j)
  {
    hide Pow256;
    BigEndianRoundTrip(i + 1, 3);
    BigEndianRoundTrip(j + 1, 3);
    assert NumberedKey(i)[..3] == BigEndian(i + 1, 3) && NumberedKey(j)[..3] == BigEndian(j + 1, 3);
  }

  lemma {:induction false} NumberedKeyIsToy(i: nat)
    requires i + 1 < Pow256(3)
    ensures ToyWorld(NumberedKey(i))
  {
    BigEndianRoundTrip(i + 1, 3);
    hide Pow256, BigEndian;
    assert NumberedKey(i)[..3] == BigEndian(i + 1, 3) && NumberedKey(i)[3..] == Zeros(29);
    assert [0, 0, 0][..2] == [0, 0] && [0, 0][..1] == [0] && [0][..0] == [];
    assert FromBigEndian([0]) == 0 && FromBigEndian([0, 0]) == 0 && FromBigEndian([0, 0, 0]) == 0;
  }

  /**
   A deployment in which every hypothesis above holds for any plaintext, with as many distinct
   identities and fresh slot draws as wanted below 2^24, so in particular past 65536.
   */
  lemma {:induction false} HypothesesAreConsistent(plaintext: Octets, n: nat)
    returns (c: Suite, draws: Draws, identities: seq<Key>)
    requires n < Pow256(3)
    ensures U16_LIMIT < Pow256(3) - 1
    ensures Ideal(c) && Fresh(c, draws, plaintext) && |draws.slots| == |identities| == n
    ensures forall i :: 0 <= i < n ==> c.world(c.publicKey(identities[i]))
    ensures forall i, j :: 0 <= i < j < n ==> c.publicKey(identities[i]) != c.publicKey(identities[j])
  {
    WidthLimits();
    assert Pow256(3) == 256 * Pow256(2);
    hide Ideal, NumberedKey, Pow256, ToyWorld;
    var k0: Key := Zeros(31) + [1];
    var n0: Nonce := Zeros(NONCE_LEN);
    assert k0[16..][15] == 1;
    ToySuiteIsIdeal(k0, n0, plaintext);
    c := ToySuite(k0, n0, plaintext);
    identities := seq(n, i requires 0 <= i < n => NumberedKey(i));
    draws := Draws(k0, Zeros(SALT_LEN), n0, seq(n, i requires 0 <= i < n => SlotDraw(NumberedKey(i), n0)));
    forall i | 0 <= i < n ensures ToyWorld(NumberedKey(i)) {
      NumberedKeyIsToy(i);
    }
    forall i, j | 0 <= i < j < n ensures NumberedKey(i) != NumberedKey(j) {
      NumberedKeysDiffer(i, j);
    }
  }
}
