/**
 WebSocket frames octet by octet and bit by bit: what any stream of octets reads as, and
 what the octets written are, with the numbers of RFC 6455 spelled out.
 */
module WebSocketLaws {
  import opened Prelude
  import opened Bytes
  import opened WebSocket

  // ---- masking, bit by bit -----------------------------------------------------------------------

  /** Bit `k` of an octet, the lowest being bit 0. */
  predicate Bit(b: Byte, k: nat)
    requires k < 8
  {
    (b / [1, 2, 4, 8, 16, 32, 64, 128][k]) % 2 == 1
  }

  function Halved(a: nat, k: nat): nat {
    if k == 0 then a else Halved(a / 2, k - 1)
  }

  lemma {:induction false} BitIsHalved(b: Byte, k: nat)
    requires k < 8
    ensures Bit(b, k) <==> Halved(b, k) % 2 == 1
  {
    HalvedIs(b, k);
  }

  lemma {:induction false} HalvedIs(a: nat, k: nat)
    requires k < 8
    ensures Halved(a, k) == a / [1, 2, 4, 8, 16, 32, 64, 128][k]
    decreases k
  {
    if k > 0 {
      HalvedIs(a / 2, k - 1);
      HalvesDivide(a, k);
    }
  }

  lemma {:induction false} HalvesDivide(a: nat, k: nat)
    requires 0 < k < 8
    ensures a / 2 / [1, 2, 4, 8, 16, 32, 64, 128][k - 1] == a / [1, 2, 4, 8, 16, 32, 64, 128][k]
  {
    assert a / 2 / 1 == a / 2 && a / 2 / 2 == a / 4 && a / 2 / 4 == a / 8 && a / 2 / 8 == a / 16;
    assert a / 2 / 16 == a / 32 && a / 2 / 32 == a / 64 && a / 2 / 64 == a / 128;
  }

  lemma {:induction false} XorBitAt(a: nat, b: nat, bits: nat, k: nat)
    requires k < bits
    ensures Halved(XorBits(a, b, bits), k) % 2 == 1 <==> Halved(a, k) % 2 != Halved(b, k) % 2
  {
    if k > 0 {
      assert XorBits(a, b, bits) / 2 == XorBits(a / 2, b / 2, bits - 1);
      XorBitAt(a / 2, b / 2, bits - 1, k - 1);
    }
  }

  /** A bit of the exclusive or is set if and only if the two bits differ. */
  lemma {:induction false} XorBitIff(a: Byte, b: Byte, k: nat)
    requires k < 8
    ensures Bit(Xor(a, b), k) <==> (Bit(a, k) <==> !Bit(b, k))
  {
    hide Bit, Halved, XorBits;
    XorBitAt(a, b, 8, k);
    BitIsHalved(a, k);
    BitIsHalved(b, k);
    BitIsHalved(Xor(a, b), k);
  }

  // ---- what any octets read as ---------------------------------------------------------------------

  function CodeOf(s: Octets): nat
    requires |s| >= 2
  {
    s[1] % 128
  }

  /** Where the length ends: two octets, and two or eight more when the seven bits say 126 or 127. */
  function LengthEnd(s: Octets): nat
    requires |s| >= 2
  {
    if CodeOf(s) == 126 then 4 else if CodeOf(s) == 127 then 10 else 2
  }

  /** The payload length, big-endian. */
  function LengthOf(s: Octets): nat
    requires |s| >= 2 && |s| >= LengthEnd(s)
  {
    if CodeOf(s) == 126 then Number([s[2], s[3]])
    else if CodeOf(s) == 127 then Number([s[2], s[3], s[4], s[5], s[6], s[7], s[8], s[9]])
    else CodeOf(s)
  }

  /** Octets as a number, the most significant first. */
  function Number(b: Octets): nat
    decreases |b|
  {
    if b == [] then 0 else Number(b[..|b| - 1]) * 256 + b[|b| - 1]
  }

  lemma {:induction false} NumberIsBigEndian(b: Octets)
    ensures FromBigEndian(b) == Number(b)
    decreases |b|
  {
    if b != [] {
      NumberIsBigEndian(b[..|b| - 1]);
    }
  }

  predicate IsMasked(s: Octets)
    requires |s| >= 2
  {
    Bit(s[1], 7)
  }

  /** Where the payload begins. */
  function PayloadStart(s: Octets): nat
    requires |s| >= 2
  {
    LengthEnd(s) + if IsMasked(s) then 4 else 0
  }

  predicate Plain(s: Octets) {
    |s| >= 2 && !Bit(s[0], 6) && !Bit(s[0], 5) && !Bit(s[0], 4)
  }

  predicate Whole(s: Octets) {
    && Plain(s) && |s| >= LengthEnd(s) && LengthOf(s) <= 16777216
    && |s| >= PayloadStart(s) + LengthOf(s)
  }

  /** Bit `k` of octet `i` of the payload differs from the wire's if and only if that of key octet `i % 4` is set. */
  predicate Unmasks(s: Octets, start: nat, payload: Octets)
    requires start >= 4 && |s| >= start + |payload|
  {
    forall i, k :: 0 <= i < |payload| && 0 <= k < 8 ==>
      ((Bit(payload[i], k) <==> !Bit(s[start + i], k)) <==> Bit(s[start - 4 + i % 4], k))
  }

  lemma {:induction false} MaskedUnmasks(s: Octets, start: nat, length: nat)
    requires start >= 4 && |s| >= start + length
    ensures Unmasks(s, start, Masked(s[start - 4..start], s[start..start + length]))
  {
    var mask, raw := s[start - 4..start], s[start..start + length];
    forall i, k | 0 <= i < length && 0 <= k < 8
      ensures (Bit(Masked(mask, raw)[i], k) <==> !Bit(s[start + i], k)) <==> Bit(s[start - 4 + i % 4], k)
    {
      assert raw[i] == s[start + i] && mask[i % 4] == s[start - 4 + i % 4];
      XorBitIff(raw[i], mask[i % 4], k);
    }
  }

  lemma {:induction false} HighBits(b: Byte)
    ensures Bit(b, 7) <==> b / 128 == 1
    ensures (b / 16) % 8 != 0 <==> Bit(b, 6) || Bit(b, 5) || Bit(b, 4)
  {
    var h := b / 16;
    assert b / 32 == h / 2 && b / 64 == h / 4;
    assert Bit(b, 4) <==> h % 2 == 1;
    assert Bit(b, 5) <==> (h / 2) % 2 == 1;
    assert Bit(b, 6) <==> (h / 4) % 2 == 1;
  }

  /** What a payload with this opcode reads as: the rest of the stream stays unread. */
  function ReadAs(opcode: nat, fin: bool, payload: Octets, rest: Octets): Reading {
    if opcode == 1 || opcode == 2 then if fin then Got(Data(payload), rest) else Failed(Fragmented, rest)
    else if opcode == 0 then Failed(Fragmented, rest)
    else if opcode == 9 then Got(Ping(payload), rest)
    else if opcode == 10 then Got(Pong(payload), rest)
    else if opcode == 8 then
      if !fin then Failed(FragmentedClose, rest)
      else Got(Close(if |payload| < 2 then None else Some(256 * (payload[0] as nat) + payload[1])), rest)
    else Failed(UnknownOpcode(if opcode < 16 then opcode else 0), rest)
  }

  /**
   Reading one frame from any octets at all: each refusal with its exact cause and what it
   leaves unread, and otherwise the payload of the length the header says, unmasked bit by
   bit under the key that precedes it, as its opcode and FIN bit have it.
   */
  lemma {:induction false} ParsedMeans(s: Octets) returns (payload: Octets)
    ensures s == [] ==> Parsed(s) == End
    ensures |s| == 1 ==> Parsed(s) == Failed(TruncatedHeader, [])
    ensures |s| >= 2 && !Plain(s) ==> Parsed(s) == Failed(ReservedBits, s[2..])
    ensures Plain(s) && |s| < LengthEnd(s) ==> Parsed(s) == Failed(UnexpectedEnd, [])
    ensures Plain(s) && |s| >= LengthEnd(s) && LengthOf(s) > 16777216 ==>
      Parsed(s) == Failed(TooLong(LengthOf(s)), s[LengthEnd(s)..])
    ensures Plain(s) && |s| >= LengthEnd(s) && LengthOf(s) <= 16777216 && !Whole(s) ==>
      Parsed(s) == Failed(UnexpectedEnd, [])
    ensures Whole(s) ==>
      var start := PayloadStart(s);
      && |payload| == LengthOf(s)
      && (if IsMasked(s) then Unmasks(s, start, payload) else payload == s[start..start + |payload|])
      && Parsed(s) == ReadAs(s[0] % 16, Bit(s[0], 7), payload, s[start + |payload|..])
  {
    payload := [];
    if |s| >= 2 {
      HeaderReads(s);
      if |s| >= LengthEnd(s) {
        BodyRefuses(s);
        if Whole(s) {
          payload := BodyReads(s);
        }
      }
      hide Parsed, ReadBody, ReadAs, Unmasks, LengthOf, Bit;
    }
  }

  /** The two fixed octets and the length decide whether there is a body to read, and how. */
  lemma {:induction false} HeaderReads(s: Octets)
    requires |s| >= 2
    ensures Parsed(s)
         == if !Plain(s) then Failed(ReservedBits, s[2..])
            else if |s| < LengthEnd(s) then Failed(UnexpectedEnd, [])
            else ReadBody(Bit(s[0], 7), s[0] % 16, IsMasked(s), LengthOf(s), s[LengthEnd(s)..])
  {
    HighBits(s[0]);
    HighBits(s[1]);
    hide Bit, ReadBody, FromBigEndian;
    if |s| >= LengthEnd(s) {
      LengthReads(s);
      assert LengthEnd(s) == 2 + ExtendedOctets(CodeOf(s));
      assert s[2..][LengthEnd(s) - 2..] == s[LengthEnd(s)..];
      hide LengthOf;
    }
  }

  lemma {:induction false} BodyRefuses(s: Octets)
    requires |s| >= 2 && |s| >= LengthEnd(s)
    ensures var r := ReadBody(Bit(s[0], 7), s[0] % 16, IsMasked(s), LengthOf(s), s[LengthEnd(s)..]);
      && (LengthOf(s) > 16777216 ==> r == Failed(TooLong(LengthOf(s)), s[LengthEnd(s)..]))
      && (LengthOf(s) <= 16777216 && |s| < PayloadStart(s) + LengthOf(s) ==> r == Failed(UnexpectedEnd, []))
  {
    hide Bit, LengthOf, Meaning, Masked;
  }

  lemma {:induction false} BodyReads(s: Octets) returns (payload: Octets)
    requires Whole(s)
    ensures var start, end := PayloadStart(s), LengthEnd(s);
      && |payload| == LengthOf(s)
      && (if IsMasked(s) then Unmasks(s, start, payload) else payload == s[start..start + |payload|])
      && ReadBody(Bit(s[0], 7), s[0] % 16, IsMasked(s), LengthOf(s), s[end..])
         == ReadAs(s[0] % 16, Bit(s[0], 7), payload, s[start + |payload|..])
  {
    hide Bit, Unmasks, Masked, ReadAs, Meaning, LengthOf, ReadBody;
    var start, end, length := PayloadStart(s), LengthEnd(s), LengthOf(s);
    var raw, rest := s[start..start + length], s[start + length..];
    TailSplits(s, end, start, start + length);
    if IsMasked(s) {
      MaskedUnmasks(s, start, length);
      MaskedBody(Bit(s[0], 7), s[0] % 16, s[end..start], raw, rest);
      payload := Masked(s[start - 4..start], raw);
    } else {
      PlainBody(Bit(s[0], 7), s[0] % 16, raw, rest);
      assert s[end..start] + raw + rest == raw + rest;
      payload := raw;
    }
    MeaningReadsAs(Bit(s[0], 7), s[0] % 16, payload, rest);
  }

  lemma {:induction false} MaskedBody(fin: bool, opcode: Nibble, mask: MaskKey, raw: Octets, rest: Octets)
    requires |raw| <= 16777216
    ensures ReadBody(fin, opcode, true, |raw|, mask + raw + rest) == Outcome(Meaning(fin, opcode, Masked(mask, raw)), rest)
  {
    hide Meaning, Masked;
    var s := mask + raw + rest;
    assert s[..4] == mask && s[4..4 + |raw|] == raw && s[4 + |raw|..] == rest;
  }

  lemma {:induction false} PlainBody(fin: bool, opcode: Nibble, raw: Octets, rest: Octets)
    requires |raw| <= 16777216
    ensures ReadBody(fin, opcode, false, |raw|, raw + rest) == Outcome(Meaning(fin, opcode, raw), rest)
  {
    hide Meaning, Masked;
    var s := raw + rest;
    assert s[0..0 + |raw|] == raw && s[0 + |raw|..] == rest;
  }

  lemma {:induction false} TailSplits(s: Octets, a: nat, b: nat, c: nat)
    requires a <= b <= c <= |s|
    ensures s[a..] == s[a..b] + s[b..c] + s[c..]
  {
  }

  lemma {:induction false} LengthReads(s: Octets)
    requires |s| >= 2 && |s| >= LengthEnd(s)
    ensures var x := LengthEnd(s) - 2;
      (if x == 0 then CodeOf(s) else FromBigEndian(s[2..][..x])) == LengthOf(s)
  {
    if CodeOf(s) == 126 {
      assert s[2..][..2] == [s[2], s[3]];
      NumberIsBigEndian([s[2], s[3]]);
    } else if CodeOf(s) == 127 {
      var b := [s[2], s[3], s[4], s[5], s[6], s[7], s[8], s[9]];
      assert s[2..][..8] == b;
      NumberIsBigEndian(b);
    }
  }

  lemma {:induction false} MeaningReadsAs(fin: bool, opcode: Nibble, payload: Octets, rest: Octets)
    ensures Outcome(Meaning(fin, opcode, payload), rest) == ReadAs(opcode, fin, payload, rest)
  {
    if |payload| >= 2 {
      assert payload[..2][..1] == [payload[0]] && [payload[0]][..0] == [];
      assert FromBigEndian([payload[0]]) == payload[0];
      assert FromBigEndian(payload[..2]) == 256 * FromBigEndian(payload[..2][..1]) + payload[1];
    }
  }

  /** The masked "Hello" of section 5.7 of RFC 6455. */
  lemma {:induction false} MaskedHelloReads(rest: Octets)
    ensures Parsed([0x81, 0x85, 0x37, 0xfa, 0x21, 0x3d, 0x7f, 0x9f, 0x4d, 0x51, 0x58] + rest)
         == Got(Data([0x48, 0x65, 0x6c, 0x6c, 0x6f]), rest)
  {
    hide Parsed, Masked;
    HelloIsMasked();
    HelloSplits(rest);
    MaskedTextReads([0x37, 0xfa, 0x21, 0x3d], [0x7f, 0x9f, 0x4d, 0x51, 0x58], rest);
  }

  lemma {:induction false} MaskedTextReads(mask: MaskKey, raw: Octets, rest: Octets)
    requires |raw| == 5
    ensures Parsed([0x81, 0x85] + (mask + (raw + rest))) == Got(Data(Masked(mask, raw)), rest)
  {
    hide Masked, Parsed;
    FirstTwo(0x81, 0x85, mask + (raw + rest));
    hide ReadBody;
    HelloBody(mask, raw, rest);
  }

  lemma {:induction false} HelloSplits(rest: Octets)
    ensures [0x81, 0x85, 0x37, 0xfa, 0x21, 0x3d, 0x7f, 0x9f, 0x4d, 0x51, 0x58] + rest
         == [0x81, 0x85] + ([0x37, 0xfa, 0x21, 0x3d] + ([0x7f, 0x9f, 0x4d, 0x51, 0x58] + rest))
  {
  }

  lemma {:induction false} FirstTwo(b0: Byte, b1: Byte, body: Octets)
    requires (b0 / 16) % 8 == 0 && b1 % 128 < 126
    ensures Parsed([b0, b1] + body) == ReadBody(b0 / 128 == 1, b0 % 16, b1 / 128 == 1, b1 % 128, body)
  {
    hide ReadBody;
    assert ([b0, b1] + body)[2..] == body && body[0..] == body;
  }

  lemma {:induction false} HelloIsMasked()
    ensures Masked([0x37, 0xfa, 0x21, 0x3d], [0x7f, 0x9f, 0x4d, 0x51, 0x58]) == [0x48, 0x65, 0x6c, 0x6c, 0x6f]
  {
    hide Xor;
    HelloUnmasks();
  }

  lemma {:induction false} HelloBody(mask: MaskKey, raw: Octets, rest: Octets)
    requires |raw| == 5
    ensures ReadBody(true, OP_TEXT, true, 5, mask + (raw + rest)) == Got(Data(Masked(mask, raw)), rest)
  {
    var body := mask + (raw + rest);
    hide Masked;
    Joined(mask, raw + rest);
    Joined(raw, rest);
    assert body[4..9] == raw && body[9..] == rest;
  }

  /** At the place worth `d`, `r` has the exclusive or of `a` and `b`. */
  predicate DiffersAt(a: Byte, b: Byte, r: Byte, d: nat)
    requires d > 0
  {
    (r / d) % 2 == 1 <==> (a / d) % 2 != (b / d) % 2
  }

  lemma {:induction false} HalvedDetermine(a: nat, b: nat, n: nat)
    requires a < Pow2(n) && b < Pow2(n) && forall k :: 0 <= k < n ==> Halved(a, k) % 2 == Halved(b, k) % 2
    ensures a == b
  {
    if n > 0 {
      assert Halved(a, 0) % 2 == Halved(b, 0) % 2;
      forall k | 0 <= k < n - 1 ensures Halved(a / 2, k) % 2 == Halved(b / 2, k) % 2 {
        assert Halved(a, k + 1) % 2 == Halved(b, k + 1) % 2;
      }
      HalvedDetermine(a / 2, b / 2, n - 1);
    }
  }

  lemma {:induction false} XorIs(a: Byte, b: Byte, r: Byte)
    requires DiffersAt(a, b, r, 1) && DiffersAt(a, b, r, 2) && DiffersAt(a, b, r, 4) && DiffersAt(a, b, r, 8)
    requires DiffersAt(a, b, r, 16) && DiffersAt(a, b, r, 32) && DiffersAt(a, b, r, 64) && DiffersAt(a, b, r, 128)
    ensures Xor(a, b) == r
  {
    forall k | 0 <= k < 8 ensures Halved(Xor(a, b), k) % 2 == Halved(r, k) % 2 {
      assert Bit(r, k) <==> (Bit(a, k) <==> !Bit(b, k));
      hide Bit, Xor, Halved;
      XorBitIff(a, b, k);
      BitIsHalved(Xor(a, b), k);
      BitIsHalved(r, k);
    }
    hide Xor, Halved;
    assert Pow2(8) == 256 by {
      assert Pow2(4) == 16 && Pow2(8) == 16 * Pow2(4);
    }
    HalvedDetermine(Xor(a, b), r, 8);
  }

  lemma {:induction false} HelloUnmasks()
    ensures Xor(0x7f, 0x37) == 0x48 && Xor(0x9f, 0xfa) == 0x65 && Xor(0x4d, 0x21) == 0x6c
    ensures Xor(0x51, 0x3d) == 0x6c && Xor(0x58, 0x37) == 0x6f
  {
    hide Xor;
    XorIs(0x7f, 0x37, 0x48);
    XorIs(0x9f, 0xfa, 0x65);
    XorIs(0x4d, 0x21, 0x6c);
    XorIs(0x51, 0x3d, 0x6c);
    XorIs(0x58, 0x37, 0x6f);
  }

  // ---- what is written -------------------------------------------------------------------------------

  /** A frame written: FIN and the opcode, the length in its shortest form, unmasked, then the payload. */
  lemma {:induction false} WrittenOctets(opcode: Nibble, payload: Octets)
    requires |payload| < 0x1_0000_0000_0000_0000
    ensures var b, n := Lay(Outgoing(opcode, payload)), |payload|;
      && |b| >= 2 && b[0] == 128 + opcode && !Bit(b[1], 7)
      && |b| == LengthEnd(b) + n && b[LengthEnd(b)..] == payload && LengthOf(b) == n
      && LengthEnd(b) == (if n < 126 then 2 else if n < 65536 then 4 else 10)
  {
    var b, n := Lay(Outgoing(opcode, payload)), |payload|;
    var w := Outgoing(opcode, payload);
    var ext := ExtendedLength(w.form, n);
    assert b == [FirstByte(w), SecondByte(w)] + ext + payload;
    assert b[2..2 + |ext|] == ext && b[2 + |ext|..] == payload;
    HighBits(b[1]);
    if n >= 126 {
      WidthLimits();
      BigEndianRoundTrip(n, |ext|);
      assert LengthEnd(b) == 2 + |ext|;
      LengthReads(b);
      assert b[2..][..|ext|] == ext;
    }
  }

  // ---- serving one command ---------------------------------------------------------------------------

  /**
   One read of a command: data is handed to the parser, a ping is answered by a pong with the
   same payload and passed over, a pong is passed over, a close is echoed with its code and
   ends the connection, and an ended stream or a refused frame ends it without a word.
   */
  lemma {:induction false} ServedMeans<C>(parse: Octets -> Option<C>, s: Octets)
    ensures var r := ServedFrom(parse, s);
      match Parsed(s)
      case End => r == Serving(Closed, [], [])
      case Failed(e, rest) => r == Serving(Broken(e), [], rest)
      case Got(Data(payload), rest) =>
        && (parse(payload).Some? ==> r == Serving(Command(parse(payload).value), [], rest))
        && (parse(payload).None? ==> r == Serving(BadCommand, [], rest))
      case Got(Ping(payload), rest) =>
        var later := ServedFrom(parse, rest);
        && r.outcome == later.outcome && r.rest == later.rest
        && |payload| <= 16777216 && r.replies == Lay(Outgoing(10, payload)) + later.replies
      case Got(Pong(_), rest) => r == ServedFrom(parse, rest)
      case Got(Close(None), rest) => r == Serving(Closed, [0x88, 0], rest)
      case Got(Close(Some(code)), rest) =>
        && code < 65536 && r == Serving(Closed, [0x88, 2, code / 256, code % 256], rest)
  {
    match Parsed(s)
    case Got(Close(code), rest) =>
      if code.Some? {
        CodeIsSmall(s);
        var payload := ClosePayload(code);
        WrittenClose(code.value);
      } else {
        assert ClosePayload(code) == [];
        assert Lay(Outgoing(OP_CLOSE, [])) == [0x88, 0];
      }
    case _ =>
  }

  lemma {:induction false} CodeIsSmall(s: Octets)
    requires Parsed(s).Got? && Parsed(s).frame.Close? && Parsed(s).frame.code.Some?
    ensures Parsed(s).frame.code.value < 65536
  {
    var payload := ParsedMeans(s);
    hide Parsed;
  }

  lemma {:induction false} WrittenClose(code: nat)
    requires code < 65536
    ensures Lay(Outgoing(OP_CLOSE, ClosePayload(Some(code)))) == [0x88, 2, code / 256, code % 256]
  {
    var payload := ClosePayload(Some(code));
    assert BigEndian(code / 256 / 256, 0) == [] && BigEndian(code / 256, 1) == [code / 256];
    assert payload == [code / 256, code % 256];
    assert Outgoing(OP_CLOSE, payload).form == Short;
  }
}
