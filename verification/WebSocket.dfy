/**
 The gateway's WebSocket endpoint: frame reading and writing per sections 5.2
 and 5.3 of RFC 6455, and the command loop that answers pings on the way.
 */
module WebSocket {
  import opened Prelude
  import opened Bytes

  const MAX_MESSAGE_BYTES: nat := 16 * 1024 * 1024

  type Nibble = n: nat | n < 16

  const OP_CONTINUATION: Nibble := 0x0
  const OP_TEXT: Nibble := 0x1
  const OP_BINARY: Nibble := 0x2
  const OP_CLOSE: Nibble := 0x8
  const OP_PING: Nibble := 0x9
  const OP_PONG: Nibble := 0xA

  datatype Frame =
    | Data(payload: Octets)
    | Ping(payload: Octets)
    | Pong(payload: Octets)
    | Close(code: Option<nat>)

  datatype FrameError =
    | TruncatedHeader
    | UnexpectedEnd
    | ReservedBits
    | TooLong(length: nat)
    | Fragmented
    | FragmentedClose
    | UnknownOpcode(opcode: Nibble)

  // ---- the wire layout, as the standard draws it -----------------------------

  type MaskKey = m: Octets | |m| == 4 witness [0, 0, 0, 0]

  /** The three encodings of the payload length: 7 bits, 16 bits, 64 bits. */
  datatype LengthForm = Short | Medium | Long

  datatype WireFrame = WireFrame(
    fin: bool, opcode: Nibble, form: LengthForm, mask: Option<MaskKey>, payload: Octets)

  predicate Fits(form: LengthForm, length: nat) {
    match form
    case Short => length < 126
    case Medium => length < U16_LIMIT
    case Long => length < U64_LIMIT
  }

  predicate Layable(w: WireFrame) {
    Fits(w.form, |w.payload|)
  }

  function Masked(mask: MaskKey, payload: Octets): (m: Octets)
    ensures |m| == |payload|
  {
    seq(|payload|, i requires 0 <= i < |payload| => Xor(payload[i], mask[i % 4]))
  }

  function LengthCode(form: LengthForm, length: nat): (code: Byte)
    requires Fits(form, length)
    ensures code < 128
  {
    match form
    case Short => length
    case Medium => 126
    case Long => 127
  }

  function ExtendedLength(form: LengthForm, length: nat): Octets {
    match form
    case Short => []
    case Medium => BigEndian(length, 2)
    case Long => BigEndian(length, 8)
  }

  function FirstByte(w: WireFrame): Byte {
    (if w.fin then 128 else 0) + w.opcode
  }

  function SecondByte(w: WireFrame): Byte
    requires Layable(w)
  {
    (if w.mask.Some? then 128 else 0) + LengthCode(w.form, |w.payload|)
  }

  function MaskedPart(w: WireFrame): Octets {
    match w.mask
    case Some(mask) => mask + Masked(mask, w.payload)
    case None => w.payload
  }

  function Lay(w: WireFrame): Octets
    requires Layable(w)
  {
    [FirstByte(w), SecondByte(w)] + ExtendedLength(w.form, |w.payload|) + MaskedPart(w)
  }

  function CloseCode(payload: Octets): Option<nat> {
    if |payload| >= 2 then Some(FromBigEndian(payload[..2])) else None
  }

  function PayloadLength(f: Frame): nat {
    match f
    case Data(p) => |p|
    case Ping(p) => |p|
    case Pong(p) => |p|
    case Close(_) => 0
  }

  /** What a laid-out frame means to this endpoint. */
  function Meaning(fin: bool, opcode: Nibble, payload: Octets): (r: Result<Frame, FrameError>)
    ensures r.Ok? ==> PayloadLength(r.value) <= |payload|
  {
    if opcode == OP_TEXT || opcode == OP_BINARY then
      if fin then Ok(Data(payload)) else Err(Fragmented)
    else if opcode == OP_CONTINUATION then Err(Fragmented)
    else if opcode == OP_PING then Ok(Ping(payload))
    else if opcode == OP_PONG then Ok(Pong(payload))
    else if opcode == OP_CLOSE then
      if fin then Ok(Close(CloseCode(payload))) else Err(FragmentedClose)
    else Err(UnknownOpcode(opcode))
  }

  // ---- reading one frame -------------------------------------------------------

  /** One reading attempt: the stream had ended, a frame, or an error; then what is left unread. */
  datatype Reading =
    | End
    | Got(frame: Frame, rest: Octets)
    | Failed(error: FrameError, rest: Octets)

  function Outcome(meaning: Result<Frame, FrameError>, rest: Octets): Reading {
    match meaning
    case Ok(frame) => Got(frame, rest)
    case Err(e) => Failed(e, rest)
  }

  /** The payload part: mask key if any, then `length` octets. */
  function ReadBody(fin: bool, opcode: Nibble, masked: bool, length: nat, s: Octets): (r: Reading)
    ensures r.Got? ==> |r.rest| <= |s| && PayloadLength(r.frame) <= MAX_MESSAGE_BYTES
  {
    if length > MAX_MESSAGE_BYTES then Failed(TooLong(length), s)
    else
      var keyed := if masked then 4 else 0;
      if |s| < keyed + length then Failed(UnexpectedEnd, [])
      else
        var raw, rest := s[keyed..keyed + length], s[keyed + length..];
        Outcome(Meaning(fin, opcode, if masked then Masked(s[..4], raw) else raw), rest)
  }

  function ExtendedOctets(code: nat): nat {
    if code == 126 then 2 else if code == 127 then 8 else 0
  }

  /** What follows the two fixed octets: the extended length if any, then the body. */
  function ReadTail(fin: bool, opcode: Nibble, masked: bool, code: nat, t: Octets): (r: Reading)
    ensures r.Got? ==> |r.rest| <= |t| && PayloadLength(r.frame) <= MAX_MESSAGE_BYTES
  {
    var x := ExtendedOctets(code);
    if |t| < x then Failed(UnexpectedEnd, [])
    else ReadBody(fin, opcode, masked, if x == 0 then code else FromBigEndian(t[..x]), t[x..])
  }

  function Parsed(s: Octets): (r: Reading)
    ensures r.Got? ==> |r.rest| < |s| && PayloadLength(r.frame) <= MAX_MESSAGE_BYTES
  {
    if s == [] then End
    else if |s| == 1 then Failed(TruncatedHeader, [])
    else if (s[0] / 16) % 8 != 0 then Failed(ReservedBits, s[2..])
    else ReadTail(s[0] / 128 == 1, s[0] % 16, s[1] / 128 == 1, s[1] % 128, s[2..])
  }

  // ---- serving commands ----------------------------------------------------------

  function ShortestForm(length: nat): LengthForm {
    if length < 126 then Short else if length < U16_LIMIT then Medium else Long
  }

  /** The unmasked, unfragmented frame the gateway writes. */
  function Outgoing(opcode: Nibble, payload: Octets): (w: WireFrame)
    requires |payload| < U64_LIMIT
    ensures Layable(w)
  {
    WireFrame(true, opcode, ShortestForm(|payload|), None, payload)
  }

  function ClosePayload(code: Option<nat>): Octets {
    match code
    case Some(c) => BigEndian(c, 2)
    case None => []
  }

  datatype Served<C> =
    | Closed
    | Command(command: C)
    | BadCommand
    | Broken(error: FrameError)

  datatype Serving<C> = Serving(outcome: Served<C>, replies: Octets, rest: Octets)

  /** Everything one `read_command` call does to a given input. */
  function ServedFrom<C>(parse: Octets -> Option<C>, s: Octets): Serving<C>
    decreases |s|
  {
    match Parsed(s)
    case End => Serving(Closed, [], [])
    case Failed(e, rest) => Serving(Broken(e), [], rest)
    case Got(frame, rest) =>
      match frame
      case Data(payload) =>
        (match parse(payload)
         case Some(command) => Serving(Command(command), [], rest)
         case None => Serving(BadCommand, [], rest))
      case Ping(payload) =>
        var next := ServedFrom(parse, rest);
        next.(replies := Lay(Outgoing(OP_PONG, payload)) + next.replies)
      case Pong(_) => ServedFrom(parse, rest)
      case Close(code) => Serving(Closed, Lay(Outgoing(OP_CLOSE, ClosePayload(code))), rest)
  }

  // ---- the connection ------------------------------------------------------------

  /** One authenticated connection: what the peer sent and we have not read, what we wrote. */
  class Connection {
    var inbox: Octets
    var outbox: Octets

    constructor (received: Octets)
      ensures inbox == received && outbox == []
    {
      inbox, outbox := received, [];
    }

    method ReadByte() returns (b: Option<Byte>)
      modifies this`inbox
      ensures old(inbox) == [] ==> b == None && inbox == []
      ensures old(inbox) != [] ==> b == Some(old(inbox)[0]) && inbox == old(inbox)[1..]
    {
      if inbox == [] {
        return None;
      }
      b := Some(inbox[0]);
      inbox := inbox[1..];
    }

    /** Fills a buffer of `n` octets; at end of stream what was there is consumed. */
    method ReadExact(n: nat) returns (buf: Option<Octets>)
      modifies this`inbox
      ensures n <= |old(inbox)| ==> buf == Some(old(inbox)[..n]) && inbox == old(inbox)[n..]
      ensures n > |old(inbox)| ==> buf == None && inbox == []
    {
      if |inbox| < n {
        inbox := [];
        return None;
      }
      buf := Some(inbox[..n]);
      inbox := inbox[n..];
    }

    /** Unmasks in place, octet by octet. */
    static method Unmask(mask: MaskKey, raw: Octets) returns (payload: Octets)
      ensures payload == Masked(mask, raw)
    {
      payload := raw;
      for i := 0 to |raw|
        invariant |payload| == |raw|
        invariant forall j :: 0 <= j < i ==> payload[j] == Masked(mask, raw)[j]
        invariant forall j :: i <= j < |raw| ==> payload[j] == raw[j]
      {
        payload := payload[i := Xor(payload[i], mask[i % 4])];
      }
    }

    method ReadPayload(masked: bool, length: nat) returns (payload: Option<Octets>)
      modifies this`inbox
      ensures var keyed := if masked then 4 else 0;
        var s := old(inbox);
        if keyed + length <= |s| then
          var raw := s[keyed..keyed + length];
          payload == Some(if masked then Masked(s[..4], raw) else raw) && inbox == s[keyed + length..]
        else payload == None && inbox == []
    {
      var mask: MaskKey := [0, 0, 0, 0];
      if masked {
        var key := ReadExact(4);
        if key.None? {
          return None;
        }
        mask := key.value;
      }
      var raw := ReadExact(length);
      if raw.None? {
        return None;
      }
      if masked {
        assert raw.value == old(inbox)[4..4 + length];
        var plain := Unmask(mask, raw.value);
        return Some(plain);
      }
      return raw;
    }

    /** The payload length: the seven bits themselves, or two or eight octets more. */
    method ReadLength(code: nat) returns (length: Option<nat>)
      modifies this`inbox
      ensures var s, x := old(inbox), ExtendedOctets(code);
        if x <= |s| then
          length == Some(if x == 0 then code else FromBigEndian(s[..x])) && inbox == s[x..]
        else length == None && inbox == []
    {
      if code == 126 {
        var ext := ReadExact(2);
        return if ext.None? then None else Some(FromBigEndian(ext.value));
      } else if code == 127 {
        var ext := ReadExact(8);
        return if ext.None? then None else Some(FromBigEndian(ext.value));
      }
      return Some(code);
    }

    /** States what one reading attempt returned and what it left unread. */
    ghost predicate Reports(reading: Reading, r: Result<Option<Frame>, FrameError>)
      reads this
    {
      match reading
      case End => r == Ok(None) && inbox == []
      case Got(frame, rest) => r == Ok(Some(frame)) && inbox == rest
      case Failed(e, rest) => r == Err(e) && inbox == rest
    }

    method ReadFrame() returns (r: Result<Option<Frame>, FrameError>)
      modifies this`inbox
      ensures Reports(Parsed(old(inbox)), r)
    {
      hide ReadTail;
      var first := ReadByte();
      if first.None? {
        return Ok(None);
      }
      var second := ReadByte();
      if second.None? {
        return Err(TruncatedHeader);
      }
      var b0, b1 := first.value, second.value;
      var fin, rsv, opcode := b0 / 128 == 1, (b0 / 16) % 8, b0 % 16;
      if rsv != 0 {
        return Err(ReservedBits);
      }
      r := ReadRest(fin, opcode, b1 / 128 == 1, b1 % 128);
    }

    method ReadRest(fin: bool, opcode: Nibble, masked: bool, code: nat)
      returns (r: Result<Option<Frame>, FrameError>)
      modifies this`inbox
      ensures Reports(ReadTail(fin, opcode, masked, code, old(inbox)), r)
    {
      hide FromBigEndian, Masked, Meaning;
      var extended := ReadLength(code);
      if extended.None? {
        return Err(UnexpectedEnd);
      }
      var length := extended.value;
      if length > MAX_MESSAGE_BYTES {
        return Err(TooLong(length));
      }
      var payload := ReadPayload(masked, length);
      if payload.None? {
        return Err(UnexpectedEnd);
      }
      match Meaning(fin, opcode, payload.value) {
        case Ok(frame) => return Ok(Some(frame));
        case Err(e) => return Err(e);
      }
    }

    /** Appends one frame with the shortest header that fits. */
    method WriteFrame(opcode: Nibble, payload: Octets)
      requires |payload| < U64_LIMIT
      modifies this`outbox
      ensures outbox == old(outbox) + Lay(Outgoing(opcode, payload))
    {
      var header: Octets := [128 + opcode];
      var length := |payload|;
      if length < 126 {
        header := header + [length];
      } else if length <= U16_LIMIT - 1 {
        header := header + [126];
        header := header + BigEndian(length, 2);
      } else {
        header := header + [127];
        header := header + BigEndian(length, 8);
      }
      ghost var w := Outgoing(opcode, payload);
      assert header == [FirstByte(w), SecondByte(w)] + ExtendedLength(w.form, length);
      Assoc(outbox, header, payload);
      outbox := outbox + header;
      outbox := outbox + payload;
    }

    method WriteClose(code: Option<nat>)
      modifies this`outbox
      ensures outbox == old(outbox) + Lay(Outgoing(OP_CLOSE, ClosePayload(code)))
    {
      WriteFrame(OP_CLOSE, ClosePayload(code));
    }

    /** Reads up to the next command, answering pings as they come. */
    method ReadCommand<C>(parse: Octets -> Option<C>) returns (r: Served<C>)
      modifies this
      ensures var all := ServedFrom(parse, old(inbox));
        r == all.outcome && inbox == all.rest && outbox == old(outbox) + all.replies
    {
      hide Lay, Parsed, Outgoing, ClosePayload;
      ghost var all := ServedFrom(parse, inbox);
      ghost var answered: Octets := [];
      while true
        invariant outbox == old(outbox) + answered
        invariant all == ServedFrom(parse, inbox).(replies := answered + ServedFrom(parse, inbox).replies)
        decreases |inbox|
      {
        var frame := ReadFrame();
        match frame {
          case Err(e) =>
            return Broken(e);
          case Ok(None) =>
            return Closed;
          case Ok(Some(Data(payload))) =>
            match parse(payload) {
              case Some(command) => return Command(command);
              case None => return BadCommand;
            }
          case Ok(Some(Ping(payload))) =>
            WriteFrame(OP_PONG, payload);
            ghost var pong := Lay(Outgoing(OP_PONG, payload));
            ghost var later := ServedFrom(parse, inbox).replies;
            Assoc(answered, pong, later);
            Assoc(old(outbox), answered, pong);
            answered := answered + pong;
          case Ok(Some(Pong(_))) =>
          case Ok(Some(Close(code))) =>
            WriteClose(code);
            return Closed;
        }
      }
    }
  }

  // ---- the codec laws ------------------------------------------------------------

  lemma {:induction false} UnmaskMasked(mask: MaskKey, payload: Octets)
    ensures Masked(mask, Masked(mask, payload)) == payload
  {
    forall i | 0 <= i < |payload| ensures Masked(mask, Masked(mask, payload))[i] == payload[i] {
      XorInvolutive(payload[i], mask[i % 4]);
    }
  }

  lemma {:induction false} HeaderBits(w: WireFrame)
    requires Layable(w)
    ensures (FirstByte(w) / 128 == 1) == w.fin
    ensures (FirstByte(w) / 16) % 8 == 0 && FirstByte(w) % 16 == w.opcode
    ensures (SecondByte(w) / 128 == 1) == w.mask.Some?
    ensures SecondByte(w) % 128 == LengthCode(w.form, |w.payload|)
  {
  }

  lemma {:induction false} LengthReadsBack(form: LengthForm, length: nat)
    requires Fits(form, length)
    ensures ExtendedOctets(LengthCode(form, length)) == |ExtendedLength(form, length)|
    ensures form.Short? <==> ExtendedLength(form, length) == []
    ensures form.Short? ==> LengthCode(form, length) == length
    ensures !form.Short? ==> FromBigEndian(ExtendedLength(form, length)) == length
  {
    WidthLimits();
    match form
    case Short =>
    case Medium => BigEndianRoundTrip(length, 2);
    case Long => BigEndianRoundTrip(length, 8);
  }

  lemma {:induction false} BodyReadsBack(w: WireFrame, rest: Octets)
    requires |w.payload| <= MAX_MESSAGE_BYTES
    ensures ReadBody(w.fin, w.opcode, w.mask.Some?, |w.payload|, MaskedPart(w) + rest)
         == Outcome(Meaning(w.fin, w.opcode, w.payload), rest)
  {
    hide Meaning, Masked;
    var s, length := MaskedPart(w) + rest, |w.payload|;
    match w.mask {
      case None =>
        assert s[0..0 + length] == w.payload;
        assert s[0 + length..] == rest;
      case Some(mask) =>
        var sealed := Masked(mask, w.payload);
        assert s == mask + (sealed + rest);
        assert s[..4] == mask;
        assert s[4..4 + length] == sealed;
        assert s[4 + length..] == rest;
        UnmaskMasked(mask, w.payload);
        assert Masked(s[..4], s[4..4 + length]) == w.payload;
    }
    assert |s| >= (if w.mask.Some? then 4 else 0) + length;
  }

  /**
   Any frame of at most 16 MiB, fragmented or not, masked with any key or
   unmasked, in any length form, is read back as what it means, leaving exactly
   what followed it.
   */
  lemma {:induction false} ReadsWhatIsLaid(w: WireFrame, rest: Octets)
    requires Layable(w) && |w.payload| <= MAX_MESSAGE_BYTES
    ensures Parsed(Lay(w) + rest)
         == Outcome(Meaning(w.fin, w.opcode, w.payload), rest)
  {
    hide ReadBody, MaskedPart, Meaning, FromBigEndian, ExtendedLength, FirstByte, SecondByte, LengthCode;
    var s := Lay(w) + rest;
    var head, ext, body := [FirstByte(w), SecondByte(w)], ExtendedLength(w.form, |w.payload|), MaskedPart(w);
    assert s == head + (ext + (body + rest));
    assert s[0] == FirstByte(w) && s[1] == SecondByte(w);
    assert s[2..] == ext + (body + rest);
    Joined(ext, body + rest);
    HeaderBits(w);
    LengthReadsBack(w.form, |w.payload|);
    BodyReadsBack(w, rest);
  }

  lemma {:induction false} BodyWasLaid(fin: bool, opcode: Nibble, masked: bool, form: LengthForm, length: nat, body: Octets)
    returns (w: WireFrame)
    requires Fits(form, length)
    requires ReadBody(fin, opcode, masked, length, body).Got?
    ensures w.fin == fin && w.opcode == opcode && w.mask.Some? == masked
    ensures w.form == form && |w.payload| == length <= MAX_MESSAGE_BYTES
    ensures Meaning(fin, opcode, w.payload) == Ok(ReadBody(fin, opcode, masked, length, body).frame)
    ensures body == MaskedPart(w) + ReadBody(fin, opcode, masked, length, body).rest
  {
    hide Masked, Meaning;
    var keyed := if masked then 4 else 0;
    var raw := body[keyed..keyed + length];
    var payload := if masked then Masked(body[..4], raw) else raw;
    w := WireFrame(fin, opcode, form, if masked then Some(body[..4]) else None, payload);
    if masked {
      UnmaskMasked(body[..4], raw);
    }
    assert body == body[..keyed] + raw + body[keyed + length..];
  }

  lemma {:induction false} ByteSplits(b: Byte)
    ensures b == 128 * (b / 128) + b % 128 && 0 <= b / 128 <= 1
    ensures (b / 16) % 8 == 0 ==> b == 128 * (b / 128) + b % 16
  {
  }

  lemma {:induction false} HeaderWasLaid(w: WireFrame, b0: Byte, b1: Byte, ext: Octets)
    requires Layable(w) && w.fin == (b0 / 128 == 1) && w.opcode == b0 % 16 && (b0 / 16) % 8 == 0
    requires w.mask.Some? == (b1 / 128 == 1) && |ext| == ExtendedOctets(b1 % 128)
    requires w.form == if |ext| == 0 then Short else if |ext| == 2 then Medium else Long
    requires |w.payload| == if |ext| == 0 then b1 % 128 else FromBigEndian(ext)
    ensures FirstByte(w) == b0 && SecondByte(w) == b1 && ExtendedLength(w.form, |w.payload|) == ext
  {
    hide BigEndian, FromBigEndian;
    ByteSplits(b0);
    ByteSplits(b1);
    FromBigEndianRoundTrip(ext);
  }

  /** Conversely, whatever is accepted was some laid-out frame with that meaning. */
  lemma {:induction false} AcceptsOnlyLaidFrames(s: Octets) returns (w: WireFrame)
    requires Parsed(s).Got?
    ensures Layable(w) && |w.payload| <= MAX_MESSAGE_BYTES
    ensures Meaning(w.fin, w.opcode, w.payload) == Ok(Parsed(s).frame)
    ensures s == Lay(w) + Parsed(s).rest
  {
    hide ReadBody, MaskedPart, Meaning, FirstByte, SecondByte, ExtendedLength, FromBigEndian;
    var x := ExtendedOctets(s[1] % 128);
    var form := if x == 0 then Short else if x == 2 then Medium else Long;
    var ext, body := s[2..][..x], s[2..][x..];
    var length := if x == 0 then s[1] % 128 else FromBigEndian(ext);
    WidthLimits();
    FromBigEndianRoundTrip(ext);
    w := BodyWasLaid(s[0] / 128 == 1, s[0] % 16, s[1] / 128 == 1, form, length, body);
    HeaderWasLaid(w, s[0], s[1], ext);
    ghost var rest := Parsed(s).rest;
    assert body == MaskedPart(w) + rest;
    Rejoin(s, x);
    Assoc([s[0], s[1]] + ext, MaskedPart(w), rest);
  }

  lemma {:induction false} Rejoin(s: Octets, x: nat)
    requires 2 + x <= |s|
    ensures s == [s[0], s[1]] + s[2..][..x] + s[2..][x..]
  {
  }

  /** The header written is never longer than that of any other form that fits. */
  lemma {:induction false} ShortestHeader(w: WireFrame)
    requires Layable(w)
    ensures Fits(ShortestForm(|w.payload|), |w.payload|)
    ensures |Lay(w.(form := ShortestForm(|w.payload|)))| <= |Lay(w)|
    ensures w.form != ShortestForm(|w.payload|) ==> |Lay(w.(form := ShortestForm(|w.payload|)))| < |Lay(w)|
  {
  }

  // ---- streams -------------------------------------------------------------------

  /** Repeated reading until the stream ends or a frame is refused. */
  function ReadAll(s: Octets): (seq<Frame>, Reading)
    decreases |s|
  {
    match Parsed(s)
    case Got(frame, rest) => var (frames, last) := ReadAll(rest); ([frame] + frames, last)
    case stop => ([], stop)
  }

  function LayAll(ws: seq<WireFrame>): Octets
    requires forall i :: 0 <= i < |ws| ==> Layable(ws[i])
  {
    if ws == [] then [] else Lay(ws[0]) + LayAll(ws[1..])
  }

  function Meanings(ws: seq<WireFrame>): seq<Frame>
    requires forall i :: 0 <= i < |ws| ==> Meaning(ws[i].fin, ws[i].opcode, ws[i].payload).Ok?
  {
    if ws == [] then []
    else [Meaning(ws[0].fin, ws[0].opcode, ws[0].payload).value] + Meanings(ws[1..])
  }

  /** Frames laid end to end are read back as exactly that list, and every octet is consumed. */
  lemma {:induction false} StreamRoundTrip(ws: seq<WireFrame>)
    requires forall i :: 0 <= i < |ws| ==>
      && Layable(ws[i]) && |ws[i].payload| <= MAX_MESSAGE_BYTES
      && Meaning(ws[i].fin, ws[i].opcode, ws[i].payload).Ok?
    ensures ReadAll(LayAll(ws)) == (Meanings(ws), End)
  {
    if ws != [] {
      ReadsWhatIsLaid(ws[0], LayAll(ws[1..]));
      StreamRoundTrip(ws[1..]);
    }
  }

  /** A ping adds its pong to the replies; a pong adds nothing; both are passed over. */
  lemma {:induction false} ControlStep<C>(parse: Octets -> Option<C>, w: WireFrame, later: Octets)
    requires Layable(w) && IsControl(w)
    ensures var next := ServedFrom(parse, later);
      ServedFrom(parse, Lay(w) + later)
      == if w.opcode == OP_PING then next.(replies := Lay(Outgoing(OP_PONG, w.payload)) + next.replies)
         else next
  {
    hide Parsed, Lay;
    ReadsWhatIsLaid(w, later);
  }

  lemma {:induction false} DataStep<C>(parse: Octets -> Option<C>, data: WireFrame, rest: Octets)
    requires Layable(data) && |data.payload| <= MAX_MESSAGE_BYTES
    requires data.fin && (data.opcode == OP_TEXT || data.opcode == OP_BINARY)
    ensures ServedFrom(parse, Lay(data) + rest)
         == Serving(match parse(data.payload) case Some(c) => Command(c) case None => BadCommand, [], rest)
  {
    hide Parsed, Lay;
    ReadsWhatIsLaid(data, rest);
  }

  predicate IsControl(w: WireFrame) {
    (w.opcode == OP_PING || w.opcode == OP_PONG) && |w.payload| <= MAX_MESSAGE_BYTES
  }

  function PingPayloads(ws: seq<WireFrame>): seq<Octets> {
    if ws == [] then []
    else (if ws[0].opcode == OP_PING then [ws[0].payload] else []) + PingPayloads(ws[1..])
  }

  function PongsFor(payloads: seq<Octets>): (ws: seq<WireFrame>)
    requires forall p :: p in payloads ==> |p| <= MAX_MESSAGE_BYTES
    ensures |ws| == |payloads|
    ensures forall i :: 0 <= i < |ws| ==> ws[i] == Outgoing(OP_PONG, payloads[i])
  {
    seq(|payloads|, i requires 0 <= i < |payloads| => Outgoing(OP_PONG, payloads[i]))
  }

  lemma {:induction false} PingPayloadsBounded(ws: seq<WireFrame>)
    requires forall i :: 0 <= i < |ws| ==> IsControl(ws[i])
    ensures forall p :: p in PingPayloads(ws) ==> |p| <= MAX_MESSAGE_BYTES
  {
    if ws != [] {
      PingPayloadsBounded(ws[1..]);
    }
  }

  lemma {:induction false} PongsOfCons(p: Octets, ps: seq<Octets>)
    requires |p| <= MAX_MESSAGE_BYTES && forall q :: q in ps ==> |q| <= MAX_MESSAGE_BYTES
    ensures LayAll(PongsFor([p] + ps)) == Lay(Outgoing(OP_PONG, p)) + LayAll(PongsFor(ps))
  {
    assert PongsFor([p] + ps)[1..] == PongsFor(ps);
  }

  /**
   Pings and pongs ahead of a data frame: the command delivered is that data
   frame's, the rest stays unread, and the replies are one pong per ping, equal
   to it and in the order of the pings.
   */
  lemma {:induction false} PingsAreAnsweredInOrder<C>(
    parse: Octets -> Option<C>, controls: seq<WireFrame>, data: WireFrame, rest: Octets)
    requires forall i :: 0 <= i < |controls| ==> Layable(controls[i]) && IsControl(controls[i])
    requires Layable(data) && |data.payload| <= MAX_MESSAGE_BYTES
    requires data.fin && (data.opcode == OP_TEXT || data.opcode == OP_BINARY)
    ensures forall p :: p in PingPayloads(controls) ==> |p| <= MAX_MESSAGE_BYTES
    ensures ServedFrom(parse, LayAll(controls) + (Lay(data) + rest))
         == Serving(
              match parse(data.payload) case Some(c) => Command(c) case None => BadCommand,
              LayAll(PongsFor(PingPayloads(controls))), rest)
  {
    hide ServedFrom, Parsed, Lay;
    PingPayloadsBounded(controls);
    if controls == [] {
      DataStep(parse, data, rest);
      assert LayAll(controls) + (Lay(data) + rest) == Lay(data) + rest;
      assert LayAll(PongsFor(PingPayloads(controls))) == [];
    } else {
      var w, later := controls[0], LayAll(controls[1..]) + (Lay(data) + rest);
      Assoc(Lay(w), LayAll(controls[1..]), Lay(data) + rest);
      ControlStep(parse, w, later);
      PingsAreAnsweredInOrder(parse, controls[1..], data, rest);
      if w.opcode == OP_PING {
        assert PingPayloads(controls) == [w.payload] + PingPayloads(controls[1..]);
        PongsOfCons(w.payload, PingPayloads(controls[1..]));
      } else {
        assert PingPayloads(controls) == PingPayloads(controls[1..]);
      }
    }
  }

  /** The peer that reads those replies sees exactly its pings' payloads, as pongs, in order. */
  lemma {:induction false} PongsReadBack(payloads: seq<Octets>)
    requires forall p :: p in payloads ==> |p| <= MAX_MESSAGE_BYTES
    ensures ReadAll(LayAll(PongsFor(payloads)))
         == (seq(|payloads|, i requires 0 <= i < |payloads| => Pong(payloads[i])), End)
  {
    StreamRoundTrip(PongsFor(payloads));
    MeaningsOfPongs(payloads);
  }

  lemma {:induction false} MeaningsOfPongs(payloads: seq<Octets>)
    requires forall p :: p in payloads ==> |p| <= MAX_MESSAGE_BYTES
    ensures Meanings(PongsFor(payloads))
         == seq(|payloads|, i requires 0 <= i < |payloads| => Pong(payloads[i]))
  {
    if payloads != [] {
      assert Meaning(true, OP_PONG, payloads[0]) == Ok(Pong(payloads[0]));
      hide Meaning, ShortestForm, LengthCode, Masked;
      MeaningsOfPongs(payloads[1..]);
      assert PongsFor(payloads)[1..] == PongsFor(payloads[1..]);
    }
  }
}
