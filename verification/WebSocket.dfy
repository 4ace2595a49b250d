/** The client side of RFC 6455 in services/realtime/scripts/benchmark_realtime.py, after the
    upgrade: frame printing, frame parsing and message reassembly (sections 5.2 to 5.5). */
module WebSocket {
  import opened Options

  type Byte = x: int | 0 <= x < 256

  type Bytes = seq<Byte>

  const TEXT := 0x1
  const BINARY := 0x2
  const CLOSE := 0x8
  const PING := 0x9
  const PONG := 0xA

  type Opcode = x: int | 0 <= x < 16

  // ---- big-endian lengths ---------------------------------------------------------------

  function Power256(k: nat): (p: int)
    ensures p >= 1
  {
    if k == 0 then 1 else 256 * Power256(k - 1)
  }

  function BigEndian(n: int, k: nat): (s: Bytes)
    requires 0 <= n
    ensures |s| == k
  {
    if k == 0 then [] else BigEndian(n / 256, k - 1) + [n % 256]
  }

  function FromBigEndian(s: Bytes): (n: int)
    ensures n >= 0
  {
    if s == [] then 0 else 256 * FromBigEndian(s[..|s| - 1]) + s[|s| - 1]
  }

  lemma {:induction false} LengthRoundTrip(n: int, k: nat)
    requires 0 <= n < Power256(k)
    ensures FromBigEndian(BigEndian(n, k)) == n
  {
    if k > 0 {
      LengthRoundTrip(n / 256, k - 1);
      assert BigEndian(n, k)[..k - 1] == BigEndian(n / 256, k - 1);
    }
  }

  lemma {:induction false} BytesRoundTrip(s: Bytes)
    ensures BigEndian(FromBigEndian(s), |s|) == s && FromBigEndian(s) < Power256(|s|)
  {
    if s != [] {
      BytesRoundTrip(s[..|s| - 1]);
      assert s == s[..|s| - 1] + [s[|s| - 1]];
    }
  }

  // ---- masking -----------------------------------------------------------------------------

  type MaskKey = k: Bytes | |k| == 4 witness [0, 0, 0, 0]

  /** Bitwise exclusive or, bit by bit from the low end. */
  function XorBits(a: int, b: int, bits: nat): (r: int)
    requires 0 <= a && 0 <= b
    ensures 0 <= r < Power2(bits)
  {
    if bits == 0 then 0
    else (if a % 2 == b % 2 then 0 else 1) + 2 * XorBits(a / 2, b / 2, bits - 1)
  }

  function Power2(k: nat): (p: int)
    ensures p >= 1
  {
    if k == 0 then 1 else 2 * Power2(k - 1)
  }

  function Xor(a: Byte, b: Byte): Byte
  {
    assert Power2(8) == 2 * Power2(7) == 4 * Power2(6) == 8 * Power2(5) == 16 * Power2(4);
    assert Power2(4) == 2 * Power2(3) == 4 * Power2(2) == 8 * Power2(1) == 16;
    XorBits(a, b, 8)
  }

  lemma LowAndHigh(low: int, high: int)
    requires 0 <= low <= 1 && 0 <= high
    ensures (low + 2 * high) % 2 == low && (low + 2 * high) / 2 == high
  {
  }

  lemma {:induction false} XorBitsTwice(a: int, b: int, bits: nat)
    requires 0 <= a < Power2(bits) && 0 <= b
    ensures XorBits(XorBits(a, b, bits), b, bits) == a
  {
    if bits > 0 {
      var low, high := if a % 2 == b % 2 then 0 else 1, XorBits(a / 2, b / 2, bits - 1);
      XorBitsTwice(a / 2, b / 2, bits - 1);
      LowAndHigh(low, high);
      assert XorBits(a, b, bits) == low + 2 * high;
    }
  }

  function Mask(payload: Bytes, key: MaskKey): (r: Bytes)
    ensures |r| == |payload|
  {
    seq(|payload|, i requires 0 <= i < |payload| => Xor(payload[i], key[i % 4]))
  }

  lemma MaskTwice(payload: Bytes, key: MaskKey)
    ensures Mask(Mask(payload, key), key) == payload
  {
    assert Power2(8) == 256 by {
      assert Power2(8) == 16 * Power2(4) == 256 * Power2(0);
    }
    forall i | 0 <= i < |payload| ensures Mask(Mask(payload, key), key)[i] == payload[i] {
      XorBitsTwice(payload[i], key[i % 4], 8);
    }
  }

  // ---- frames on the wire --------------------------------------------------------------------

  /** The three ways to write a payload length; nothing forbids a longer form than necessary. */
  datatype LengthForm = Short | Medium | Long

  datatype Frame = Frame(final: bool, opcode: Opcode, payload: Bytes)

  datatype Wire = Wire(frame: Frame, form: LengthForm, key: Option<MaskKey>)

  predicate FormHolds(form: LengthForm, length: int)
  {
    match form
    case Short => 0 <= length < 126
    case Medium => 0 <= length < Power256(2)
    case Long => 0 <= length < Power256(8)
  }

  function LengthCode(form: LengthForm, length: int): int
  {
    match form
    case Short => length
    case Medium => 126
    case Long => 127
  }

  function LengthBytes(form: LengthForm, length: int): Bytes
    requires length >= 0
  {
    match form
    case Short => []
    case Medium => BigEndian(length, 2)
    case Long => BigEndian(length, 8)
  }

  function FirstByte(f: Frame): Byte
  {
    (if f.final then 128 else 0) + f.opcode
  }

  function SecondByte(masked: bool, code: int): Byte
    requires 0 <= code < 128
  {
    (if masked then 128 else 0) + code
  }

  function Body(f: Frame, key: Option<MaskKey>): Bytes
  {
    if key.Some? then key.value + Mask(f.payload, key.value) else f.payload
  }

  /** A frame as any peer may write it, with clear reserved bits. */
  function Encode(w: Wire): Bytes
    requires FormHolds(w.form, |w.frame.payload|)
  {
    var n := |w.frame.payload|;
    [FirstByte(w.frame), SecondByte(w.key.Some?, LengthCode(w.form, n))]
    + (LengthBytes(w.form, n) + Body(w.frame, w.key))
  }

  /** `_send_frame_on`: final, masked, shortest length form. */
  function Print(opcode: Opcode, payload: Bytes, key: MaskKey): Bytes
    requires |payload| < Power256(8)
  {
    var first: Byte := 128 + opcode;
    var header :=
      if |payload| < 126 then [first, 128 + |payload|]
      else if |payload| <= 0xFFFF then [first, 128 + 126] + BigEndian(|payload|, 2)
      else [first, 128 + 127] + BigEndian(|payload|, 8);
    header + key + Mask(payload, key)
  }

  function ShortestForm(length: int): LengthForm
  {
    if length < 126 then Short else if length <= 0xFFFF then Medium else Long
  }

  lemma PrintIsEncode(opcode: Opcode, payload: Bytes, key: MaskKey)
    requires |payload| < Power256(8)
    ensures var w := Wire(Frame(true, opcode, payload), ShortestForm(|payload|), Some(key));
      FormHolds(w.form, |payload|) && Print(opcode, payload, key) == Encode(w)
  {
    assert Power256(2) == 256 * Power256(1) == 65536 * Power256(0);
    var w := Wire(Frame(true, opcode, payload), ShortestForm(|payload|), Some(key));
    var head := [FirstByte(w.frame), SecondByte(true, LengthCode(w.form, |payload|))];
    assert head + (LengthBytes(w.form, |payload|) + Body(w.frame, w.key))
        == head + LengthBytes(w.form, |payload|) + key + Mask(payload, key);
  }

  // ---- the parser ---------------------------------------------------------------------------------

  datatype Error =
    | Closed(code: Option<int>)
    | UnsupportedExtension
    | InvalidControlFrame
    | MessageTooLarge
    | ProtocolError

  datatype Parsed = Parsed(frame: Frame, rest: Bytes) | Failed(error: Error)

  /** `_receive_frame` on the bytes still to come; running out of bytes is a closed connection. */
  function ParseFrame(s: Bytes, maxBytes: int): Parsed
  {
    if |s| < 2 then Failed(Closed(None))
    else if (s[0] / 16) % 8 != 0 then Failed(UnsupportedExtension)
    else ParseLength(s[0] >= 128, s[0] % 16, s[1] >= 128, s[1] % 128, s[2..], maxBytes)
  }

  function ExtraBytes(code: int): nat
  {
    if code == 126 then 2 else if code == 127 then 8 else 0
  }

  function ParseLength(final: bool, opcode: Opcode, masked: bool, code: int, s: Bytes, maxBytes: int): Parsed
    requires 0 <= code < 128
  {
    var extra := ExtraBytes(code);
    if |s| < extra then Failed(Closed(None))
    else
      var length := if extra == 0 then code else FromBigEndian(s[..extra]);
      ParseBody(final, opcode, masked, length, s[extra..], maxBytes)
  }

  function ParseBody(final: bool, opcode: Opcode, masked: bool, length: int, s: Bytes, maxBytes: int): Parsed
    requires length >= 0
  {
    if opcode >= 8 && (!final || length > 125) then Failed(InvalidControlFrame)
    else if length > maxBytes then Failed(MessageTooLarge)
    else if masked then
      if |s| < 4 + length then Failed(Closed(None))
      else Parsed(Frame(final, opcode, Mask(s[4..4 + length], s[..4])), s[4 + length..])
    else
      if |s| < length then Failed(Closed(None))
      else Parsed(Frame(final, opcode, s[..length]), s[length..])
  }

  /** What the parser makes of a well-formed frame. */
  function Judge(f: Frame, rest: Bytes, maxBytes: int): Parsed
  {
    if f.opcode >= 8 && (!f.final || |f.payload| > 125) then Failed(InvalidControlFrame)
    else if |f.payload| > maxBytes then Failed(MessageTooLarge)
    else Parsed(f, rest)
  }

  lemma BodyRoundTrip(f: Frame, key: Option<MaskKey>, rest: Bytes, maxBytes: int)
    ensures ParseBody(f.final, f.opcode, key.Some?, |f.payload|, Body(f, key) + rest, maxBytes) == Judge(f, rest, maxBytes)
  {
    var s := Body(f, key) + rest;
    if key.Some? {
      assert s[..4] == key.value && s[4..4 + |f.payload|] == Mask(f.payload, key.value);
      assert s[4 + |f.payload|..] == rest;
      MaskTwice(f.payload, key.value);
    } else {
      assert s[..|f.payload|] == f.payload && s[|f.payload|..] == rest;
    }
  }

  lemma LengthStep(final: bool, opcode: Opcode, masked: bool, form: LengthForm, n: int, body: Bytes, maxBytes: int)
    requires FormHolds(form, n)
    ensures ParseLength(final, opcode, masked, LengthCode(form, n), LengthBytes(form, n) + body, maxBytes)
         == ParseBody(final, opcode, masked, n, body, maxBytes)
  {
    var lengths := LengthBytes(form, n);
    assert (lengths + body)[..|lengths|] == lengths && (lengths + body)[|lengths|..] == body;
    if form.Medium? { LengthRoundTrip(n, 2); }
    if form.Long? { LengthRoundTrip(n, 8); }
  }

  lemma HeaderBits(f: Frame, masked: bool, code: int)
    requires 0 <= code < 128
    ensures (FirstByte(f) / 16) % 8 == 0 && FirstByte(f) % 16 == f.opcode && (FirstByte(f) >= 128 <==> f.final)
    ensures SecondByte(masked, code) % 128 == code && (SecondByte(masked, code) >= 128 <==> masked)
  {
  }

  /** Round trip: every encoding of a frame, in any length form and under any mask, is read back. */
  lemma EncodeRoundTrip(w: Wire, rest: Bytes, maxBytes: int)
    requires FormHolds(w.form, |w.frame.payload|)
    ensures ParseFrame(Encode(w) + rest, maxBytes) == Judge(w.frame, rest, maxBytes)
  {
    var f, n := w.frame, |w.frame.payload|;
    var code := LengthCode(w.form, n);
    var s := Encode(w) + rest;
    HeaderBits(f, w.key.Some?, code);
    assert s[2..] == LengthBytes(w.form, n) + (Body(f, w.key) + rest);
    LengthStep(f.final, f.opcode, w.key.Some?, w.form, n, Body(f, w.key) + rest, maxBytes);
    BodyRoundTrip(f, w.key, rest, maxBytes);
  }

  /** Round trip of the client's own frames: FIN, opcode and payload come back. */
  lemma PrintRoundTrip(opcode: Opcode, payload: Bytes, key: MaskKey, rest: Bytes, maxBytes: int)
    requires |payload| < Power256(8)
    ensures ParseFrame(Print(opcode, payload, key) + rest, maxBytes) == Judge(Frame(true, opcode, payload), rest, maxBytes)
  {
    PrintIsEncode(opcode, payload, key);
    EncodeRoundTrip(Wire(Frame(true, opcode, payload), ShortestForm(|payload|), Some(key)), rest, maxBytes);
  }

  lemma ParsedBody(final: bool, opcode: Opcode, masked: bool, length: int, s: Bytes, maxBytes: int) returns (key: Option<MaskKey>)
    requires length >= 0 && ParseBody(final, opcode, masked, length, s, maxBytes).Parsed?
    ensures var p := ParseBody(final, opcode, masked, length, s, maxBytes);
      && s == Body(p.frame, key) + p.rest && key.Some? == masked
      && p.frame.final == final && p.frame.opcode == opcode && |p.frame.payload| == length
  {
    if masked {
      key := Some(s[..4]);
      MaskTwice(s[4..4 + length], s[..4]);
      assert s == s[..4] + s[4..4 + length] + s[4 + length..];
    } else {
      key := None;
      assert s == s[..length] + s[length..];
    }
  }

  lemma ParsedLength(final: bool, opcode: Opcode, masked: bool, code: int, s: Bytes, maxBytes: int)
    returns (form: LengthForm, key: Option<MaskKey>)
    requires 0 <= code < 128 && ParseLength(final, opcode, masked, code, s, maxBytes).Parsed?
    ensures var p := ParseLength(final, opcode, masked, code, s, maxBytes);
      && FormHolds(form, |p.frame.payload|) && LengthCode(form, |p.frame.payload|) == code
      && s == LengthBytes(form, |p.frame.payload|) + (Body(p.frame, key) + p.rest) && key.Some? == masked
      && p.frame.final == final && p.frame.opcode == opcode
  {
    var extra := ExtraBytes(code);
    form := if extra == 2 then Medium else if extra == 8 then Long else Short;
    if extra != 0 { BytesRoundTrip(s[..extra]); }
    var length := if extra == 0 then code else FromBigEndian(s[..extra]);
    key := ParsedBody(final, opcode, masked, length, s[extra..], maxBytes);
    assert s == s[..extra] + s[extra..];
  }

  /** Soundness: whatever the parser accepts is an encoding of the frame it reports. */
  lemma ParsedIsEncoded(s: Bytes, maxBytes: int) returns (w: Wire)
    requires ParseFrame(s, maxBytes).Parsed?
    ensures w.frame == ParseFrame(s, maxBytes).frame && FormHolds(w.form, |w.frame.payload|)
    ensures s == Encode(w) + ParseFrame(s, maxBytes).rest
  {
    var p := ParseFrame(s, maxBytes);
    var form, key := ParsedLength(s[0] >= 128, s[0] % 16, s[1] >= 128, s[1] % 128, s[2..], maxBytes);
    w := Wire(p.frame, form, key);
    HeaderRebuilt(s[0], s[1], p.frame, key.Some?, LengthCode(form, |p.frame.payload|));
    Regroup(s, LengthBytes(form, |p.frame.payload|), Body(p.frame, key), p.rest);
  }

  lemma Regroup(s: Bytes, lengths: Bytes, body: Bytes, rest: Bytes)
    requires |s| >= 2 && s[2..] == lengths + (body + rest)
    ensures s == [s[0], s[1]] + (lengths + body) + rest
  {
    assert s == [s[0], s[1]] + s[2..];
  }

  lemma HeaderRebuilt(first: Byte, second: Byte, f: Frame, masked: bool, code: int)
    requires (first / 16) % 8 == 0 && f.final == (first >= 128) && f.opcode == first % 16
    requires masked == (second >= 128) && code == second % 128
    ensures FirstByte(f) == first && SecondByte(masked, code) == second
  {
  }

  lemma ParseShrinks(s: Bytes, maxBytes: int)
    requires ParseFrame(s, maxBytes).Parsed?
    ensures |ParseFrame(s, maxBytes).rest| < |s|
  {
  }

  // ---- reassembly ------------------------------------------------------------------------------------

  datatype Received =
    | Message(opcode: Opcode, data: Bytes, pongs: seq<Bytes>, rest: Bytes)
    | Broken(error: Error, pongs: seq<Bytes>)

  function CloseCode(payload: Bytes): Option<int>
  {
    if |payload| >= 2 then Some(FromBigEndian(payload[..2])) else None
  }

  datatype Progress = Progress(started: Option<Opcode>, data: Bytes, pongs: seq<Bytes>)

  datatype Turn = Stop(r: Received) | Continue(next: Progress)

  predicate IsData(opcode: Opcode) { opcode == TEXT || opcode == BINARY }

  /** One turn of the loop of `receive`, on a frame just read. */
  function Take(f: Frame, rest: Bytes, maxBytes: int, m: Progress): Turn
  {
    if f.opcode == CLOSE then Stop(Broken(Closed(CloseCode(f.payload)), m.pongs))
    else if f.opcode == PING then Continue(m.(pongs := m.pongs + [f.payload]))
    else if f.opcode == PONG then Continue(m)
    else if IsData(f.opcode) && m.started.Some? then Stop(Broken(ProtocolError, m.pongs))
    else if !IsData(f.opcode) && (f.opcode != 0 || m.started.None?) then Stop(Broken(ProtocolError, m.pongs))
    else if |m.data + f.payload| > maxBytes then Stop(Broken(MessageTooLarge, m.pongs))
    else
      var kind := if IsData(f.opcode) then f.opcode else m.started.value;
      if f.final then Stop(Message(kind, m.data + f.payload, m.pongs, rest))
      else Continue(Progress(Some(kind), m.data + f.payload, m.pongs))
  }

  /** A frame reader: what the next frame is, and what is left. */
  type Reader = Bytes -> Parsed

  function FrameReader(maxBytes: int): Reader
  {
    s => ParseFrame(s, maxBytes)
  }

  ghost predicate Shrinking(read: Reader)
  {
    forall s :: read(s).Parsed? ==> |read(s).rest| < |s|
  }

  lemma FrameReaderShrinks(maxBytes: int)
    ensures Shrinking(FrameReader(maxBytes))
  {
    forall s | FrameReader(maxBytes)(s).Parsed? ensures |FrameReader(maxBytes)(s).rest| < |s| {
      ParseShrinks(s, maxBytes);
    }
  }

  /** `receive` over any frame reader, from a message in progress and the pongs already sent. */
  function ReceiveFrom(read: Reader, s: Bytes, maxBytes: int, m: Progress): Received
    requires Shrinking(read)
    decreases |s|
  {
    var p := read(s);
    if p.Failed? then Broken(p.error, m.pongs)
    else
      var turn := Take(p.frame, p.rest, maxBytes, m);
      if turn.Stop? then turn.r else ReceiveFrom(read, p.rest, maxBytes, turn.next)
  }

  const IDLE := Progress(None, [], [])

  predicate IsControl(f: Frame)
  {
    f.opcode == PING || f.opcode == PONG
  }

  /** A legal fragmentation of one message: first a text or binary frame, then continuations,
      only the last one final, with pings and pongs anywhere in between (RFC 6455 section 5.4). */
  ghost predicate Fragments(ws: seq<Wire>, started: bool)
  {
    && ws != []
    && FormHolds(ws[0].form, |ws[0].frame.payload|)
    && var f := ws[0].frame;
       if IsControl(f) then f.final && |f.payload| <= 125 && Fragments(ws[1..], started)
       else
         && (if started then f.opcode == 0 else IsData(f.opcode))
         && (if f.final then |ws| == 1 else Fragments(ws[1..], true))
  }

  /** The size limit applies to control payloads too; it bites only below 125 bytes. */
  ghost predicate ControlFits(ws: seq<Wire>, maxBytes: int)
  {
    forall i :: 0 <= i < |ws| && IsControl(ws[i].frame) ==> |ws[i].frame.payload| <= maxBytes
  }

  ghost predicate Encodable(ws: seq<Wire>)
  {
    forall i :: 0 <= i < |ws| ==> FormHolds(ws[i].form, |ws[i].frame.payload|)
  }

  ghost function EncodeAll(ws: seq<Wire>): Bytes
    requires Encodable(ws)
  {
    if ws == [] then [] else Encode(ws[0]) + EncodeAll(ws[1..])
  }

  lemma {:induction false} FragmentsEncodable(ws: seq<Wire>, started: bool)
    requires Fragments(ws, started)
    ensures Encodable(ws)
    decreases |ws|
  {
    if |ws| > 1 {
      FragmentsEncodable(ws[1..], if IsControl(ws[0].frame) then started else true);
      forall i | 1 <= i < |ws| ensures FormHolds(ws[i].form, |ws[i].frame.payload|) {
        assert ws[i] == ws[1..][i - 1];
      }
    }
  }

  function AbsorbOne(f: Frame, m: Progress): Progress
  {
    if f.opcode == PING then m.(pongs := m.pongs + [f.payload])
    else if f.opcode == PONG then m
    else Progress(if IsData(f.opcode) then Some(f.opcode) else m.started, m.data + f.payload, m.pongs)
  }

  /** What a sequence of fragments adds to a message in progress. */
  function Absorb(ws: seq<Wire>, m: Progress): Progress
  {
    if ws == [] then m else Absorb(ws[1..], AbsorbOne(ws[0].frame, m))
  }

  /** The data frames' payloads and the pings' payloads, each in order. */
  function DataOf(ws: seq<Wire>): Bytes
  {
    if ws == [] then [] else (if IsControl(ws[0].frame) then [] else ws[0].frame.payload) + DataOf(ws[1..])
  }

  function PingsOf(ws: seq<Wire>): seq<Bytes>
  {
    if ws == [] then [] else (if ws[0].frame.opcode == PING then [ws[0].frame.payload] else []) + PingsOf(ws[1..])
  }

  lemma {:induction false} AbsorbAppends(ws: seq<Wire>, m: Progress)
    ensures Absorb(ws, m).data == m.data + DataOf(ws) && Absorb(ws, m).pongs == m.pongs + PingsOf(ws)
    decreases |ws|
  {
    if ws != [] {
      var f := ws[0].frame;
      var next := AbsorbOne(f, m);
      AbsorbAppends(ws[1..], next);
      assert m.data + DataOf(ws) == next.data + DataOf(ws[1..]);
      assert m.pongs + PingsOf(ws) == next.pongs + PingsOf(ws[1..]);
    }
  }

  /** The opcode of the first data frame: text or binary. */
  function KindOf(ws: seq<Wire>): Opcode
  {
    if ws == [] then 0 else if IsControl(ws[0].frame) then KindOf(ws[1..]) else ws[0].frame.opcode
  }

  lemma {:induction false} AbsorbStarts(ws: seq<Wire>, m: Progress)
    requires Fragments(ws, m.started.Some?)
    ensures m.started.Some? ==> Absorb(ws, m).started == m.started
    ensures m.started.None? ==> Absorb(ws, m).started == Some(KindOf(ws)) && IsData(KindOf(ws))
    decreases |ws|
  {
    var f := ws[0].frame;
    if IsControl(f) || !f.final {
      AbsorbStarts(ws[1..], AbsorbOne(f, m));
    } else {
      assert ws[1..] == [];
    }
  }

  /** The message a fragmentation stands for. */
  function Assembled(ws: seq<Wire>, m: Progress, rest: Bytes): Received
  {
    var done := Absorb(ws, m);
    Message(if done.started.Some? then done.started.value else 0, done.data, done.pongs, rest)
  }

  /** The reader returns every acceptable frame from any of its encodings, and nothing else. */
  ghost predicate Decodes(read: Reader, maxBytes: int)
  {
    forall w: Wire, more :: FormHolds(w.form, |w.frame.payload|) && Judge(w.frame, more, maxBytes).Parsed? ==>
      read(Encode(w) + more) == Parsed(w.frame, more)
  }

  ghost predicate AcceptsOnlyEncodings(read: Reader)
  {
    forall s {:trigger read(s)} :: read(s).Parsed? ==> exists w: Wire ::
      w.frame == read(s).frame && FormHolds(w.form, |w.frame.payload|) && s == Encode(w) + read(s).rest
      && (w.frame.opcode >= 8 ==> w.frame.final && |w.frame.payload| <= 125)
  }

  lemma FrameReaderDecodes(maxBytes: int)
    ensures Decodes(FrameReader(maxBytes), maxBytes) && AcceptsOnlyEncodings(FrameReader(maxBytes))
  {
    var read := FrameReader(maxBytes);
    forall w: Wire, more | FormHolds(w.form, |w.frame.payload|) && Judge(w.frame, more, maxBytes).Parsed?
      ensures read(Encode(w) + more) == Parsed(w.frame, more)
    {
      EncodeRoundTrip(w, more, maxBytes);
    }
    forall s | read(s).Parsed?
      ensures exists w: Wire ::
        w.frame == read(s).frame && FormHolds(w.form, |w.frame.payload|) && s == Encode(w) + read(s).rest
        && (w.frame.opcode >= 8 ==> w.frame.final && |w.frame.payload| <= 125)
    {
      var w := ParsedIsEncoded(s, maxBytes);
      ParsedControl(s, maxBytes);
    }
  }

  /** A legal fragment is taken in, and only the final data frame ends the message. */
  lemma LegalTurn(ws: seq<Wire>, rest: Bytes, maxBytes: int, m: Progress)
    requires Fragments(ws, m.started.Some?) && |m.data| + |DataOf(ws)| <= maxBytes && ControlFits(ws, maxBytes)
    ensures var f := ws[0].frame; var next := AbsorbOne(f, m);
      && Judge(f, rest, maxBytes) == Parsed(f, rest)
      && |next.data| + |DataOf(ws[1..])| <= maxBytes
      && Take(f, rest, maxBytes, m) ==
         (if IsControl(f) || !f.final then Continue(next)
          else Stop(Message(next.started.value, next.data, next.pongs, rest)))
      && (if IsControl(f) || !f.final then Fragments(ws[1..], next.started.Some?) else ws[1..] == [])
  {
    assert |DataOf(ws)| == (if IsControl(ws[0].frame) then 0 else |ws[0].frame.payload|) + |DataOf(ws[1..])|;
  }

  lemma EncodeAllCons(ws: seq<Wire>, rest: Bytes)
    requires Encodable(ws) && ws != []
    ensures Encodable(ws[1..]) && EncodeAll(ws) + rest == Encode(ws[0]) + (EncodeAll(ws[1..]) + rest)
  {
  }

  /** Any legal fragmentation is received as the exact concatenation, with one pong per ping. */
  lemma {:induction false} FragmentsAreReassembled(read: Reader, ws: seq<Wire>, rest: Bytes, maxBytes: int, m: Progress)
    requires Shrinking(read) && Decodes(read, maxBytes)
    requires Fragments(ws, m.started.Some?) && Encodable(ws)
    requires |m.data| + |DataOf(ws)| <= maxBytes && ControlFits(ws, maxBytes)
    ensures ReceiveFrom(read, EncodeAll(ws) + rest, maxBytes, m) == Assembled(ws, m, rest)
    decreases |ws|
  {
    EncodeAllCons(ws, rest);
    var f, more := ws[0].frame, EncodeAll(ws[1..]) + rest;
    LegalTurn(ws, more, maxBytes, m);
    assert read(Encode(ws[0]) + more) == Parsed(f, more);
    if IsControl(f) || !f.final {
      FragmentsAreReassembled(read, ws[1..], rest, maxBytes, AbsorbOne(f, m));
    } else {
      assert more == rest && Absorb(ws[1..], AbsorbOne(f, m)) == AbsorbOne(f, m);
    }
  }

  /** The client's form: one message in any legal fragmentation, whatever follows it. */
  lemma MessageIsReassembled(ws: seq<Wire>, rest: Bytes, maxBytes: int)
    requires Fragments(ws, false) && Encodable(ws) && |DataOf(ws)| <= maxBytes && ControlFits(ws, maxBytes)
    ensures Shrinking(FrameReader(maxBytes))
    ensures var r := ReceiveFrom(FrameReader(maxBytes), EncodeAll(ws) + rest, maxBytes, IDLE);
      r.Message? && r.opcode == KindOf(ws) && r.data == DataOf(ws) && r.pongs == PingsOf(ws) && r.rest == rest
    ensures IsData(KindOf(ws))
  {
    FrameReaderShrinks(maxBytes);
    FrameReaderDecodes(maxBytes);
    FragmentsAreReassembled(FrameReader(maxBytes), ws, rest, maxBytes, IDLE);
    AbsorbAppends(ws, IDLE);
    AbsorbStarts(ws, IDLE);
  }

  /** A frame that does not break the message is a legal fragment of it. */
  lemma TurnIsLegal(w: Wire, tail: seq<Wire>, rest: Bytes, maxBytes: int, m: Progress)
    requires FormHolds(w.form, |w.frame.payload|)
    requires w.frame.opcode >= 8 ==> w.frame.final && |w.frame.payload| <= 125
    requires var turn := Take(w.frame, rest, maxBytes, m);
      if turn.Continue? then Fragments(tail, turn.next.started.Some?) else turn.r.Message? && tail == []
    ensures Fragments([w] + tail, m.started.Some?)
    ensures var turn := Take(w.frame, rest, maxBytes, m);
      if turn.Continue? then turn.next == AbsorbOne(w.frame, m)
      else turn.r == Assembled([w], m, rest)
  {
    assert ([w] + tail)[1..] == tail;
    assert [w][1..] == [] && Absorb([w], m) == Absorb([], AbsorbOne(w.frame, m));
  }

  lemma EncodableCons(w: Wire, tail: seq<Wire>, rest: Bytes)
    requires FormHolds(w.form, |w.frame.payload|) && Encodable(tail)
    ensures Encodable([w] + tail) && EncodeAll([w] + tail) + rest == Encode(w) + (EncodeAll(tail) + rest)
  {
    var ws := [w] + tail;
    forall i | 0 <= i < |ws| ensures FormHolds(ws[i].form, |ws[i].frame.payload|) {
      if i > 0 { assert ws[i] == tail[i - 1]; }
    }
    assert ws[1..] == tail;
    EncodeAllCons(ws, rest);
  }

  lemma AssembledCons(w: Wire, tail: seq<Wire>, m: Progress, rest: Bytes)
    ensures Assembled([w] + tail, m, rest) == Assembled(tail, AbsorbOne(w.frame, m), rest)
  {
    assert ([w] + tail)[1..] == tail;
  }

  lemma AcceptedEncoding(read: Reader, s: Bytes) returns (w: Wire)
    requires AcceptsOnlyEncodings(read) && read(s).Parsed?
    ensures w.frame == read(s).frame && FormHolds(w.form, |w.frame.payload|) && s == Encode(w) + read(s).rest
    ensures w.frame.opcode >= 8 ==> w.frame.final && |w.frame.payload| <= 125
  {
    w :| w.frame == read(s).frame && FormHolds(w.form, |w.frame.payload|) && s == Encode(w) + read(s).rest
      && (w.frame.opcode >= 8 ==> w.frame.final && |w.frame.payload| <= 125);
  }

  /** Conversely, a message is only ever delivered for a legal fragmentation of it. */
  lemma {:induction false} DeliveredWasFragmented(read: Reader, s: Bytes, maxBytes: int, m: Progress) returns (ws: seq<Wire>)
    requires Shrinking(read) && AcceptsOnlyEncodings(read)
    requires ReceiveFrom(read, s, maxBytes, m).Message?
    ensures Fragments(ws, m.started.Some?) && Encodable(ws)
    ensures var r := ReceiveFrom(read, s, maxBytes, m);
      s == EncodeAll(ws) + r.rest && r == Assembled(ws, m, r.rest)
    decreases |s|
  {
    var w := AcceptedEncoding(read, s);
    var rest := read(s).rest;
    var turn := Take(w.frame, rest, maxBytes, m);
    if turn.Continue? {
      var tail := DeliveredWasFragmented(read, rest, maxBytes, turn.next);
      var end := ReceiveFrom(read, rest, maxBytes, turn.next).rest;
      TurnIsLegal(w, tail, rest, maxBytes, m);
      EncodableCons(w, tail, end);
      AssembledCons(w, tail, m, end);
      ws := [w] + tail;
    } else {
      TurnIsLegal(w, [], rest, maxBytes, m);
      EncodableCons(w, [], rest);
      assert EncodeAll([]) + rest == rest;
      ws := [w] + [];
      assert ws == [w];
    }
  }

  lemma ParsedControl(s: Bytes, maxBytes: int)
    requires ParseFrame(s, maxBytes).Parsed?
    ensures var f := ParseFrame(s, maxBytes).frame;
      f.opcode >= 8 ==> f.final && |f.payload| <= 125 < Power256(8)
  {
    assert Power256(8) == 256 * Power256(7);
  }

  // ---- the connection object ------------------------------------------------------------------------

  class StandardWebSocket {
    const maxMessageBytes: int
    var input: Bytes            // what the peer has sent and this side has not read yet
    var output: Bytes           // what this side has sent

    constructor (maxMessageBytes: int, input: Bytes)
      ensures this.maxMessageBytes == maxMessageBytes && this.input == input && output == []
    {
      this.maxMessageBytes, this.input, output := maxMessageBytes, input, [];
    }

    /** The reader hands over chunks of any positive size, and nothing at end of file. */
    method Read(most: nat) returns (chunk: Bytes)
      requires most > 0
      modifies `input
      ensures old(input) == chunk + input && |chunk| <= most
      ensures chunk == [] <==> old(input) == []
    {
      if input == [] {
        return [];
      }
      var n :| 1 <= n <= most && n <= |input|;
      chunk := input[..n];
      input := input[n..];
    }

    /** `_read_exact`: None is a closed connection, after which whatever was left is gone. */
    method ReadExact(length: nat) returns (r: Option<Bytes>)
      modifies `input
      ensures r.Some? <==> |old(input)| >= length
      ensures r.Some? ==> r.value == old(input)[..length] && input == old(input)[length..]
    {
      var result: Bytes := [];
      while |result| < length
        invariant |result| <= length && result + input == old(input)
      {
        var chunk := Read(length - |result|);
        if chunk == [] {
          return None;
        }
        result := result + chunk;
      }
      return Some(result);
    }

    method ReceiveFrame() returns (p: Parsed)
      modifies `input
      ensures p.Parsed? ==> p.rest == input
      ensures p == ParseFrame(old(input), maxMessageBytes)
    {
      ghost var s := input;
      var header := ReadExact(2);
      if header.None? {
        return Failed(Closed(None));
      }
      var first, second := header.value[0], header.value[1];
      if (first / 16) % 8 != 0 {
        return Failed(UnsupportedExtension);
      }
      var final, opcode, masked := first >= 128, first % 16, second >= 128;
      var length := second % 128;
      if length == 126 {
        var bytes := ReadExact(2);
        if bytes.None? {
          return Failed(Closed(None));
        }
        assert bytes.value == s[2..4] && input == s[4..];
        length := FromBigEndian(bytes.value);
      } else if length == 127 {
        var bytes := ReadExact(8);
        if bytes.None? {
          return Failed(Closed(None));
        }
        assert bytes.value == s[2..10] && input == s[10..];
        length := FromBigEndian(bytes.value);
      }
      p := ReceiveBody(final, opcode, masked, length);
    }

    method ReceiveBody(final: bool, opcode: Opcode, masked: bool, length: int) returns (p: Parsed)
      requires length >= 0
      modifies `input
      ensures p.Parsed? ==> p.rest == input
      ensures p == ParseBody(final, opcode, masked, length, old(input), maxMessageBytes)
    {
      ghost var s := input;
      if opcode >= 8 && (!final || length > 125) {
        return Failed(InvalidControlFrame);
      }
      if length > maxMessageBytes {
        return Failed(MessageTooLarge);
      }
      var mask: Option<Bytes> := None;
      if masked {
        mask := ReadExact(4);
        if mask.None? {
          return Failed(Closed(None));
        }
      }
      var payload := ReadExact(length);
      if payload.None? {
        return Failed(Closed(None));
      }
      if masked {
        assert payload.value == s[4..4 + length] && input == s[4 + length..];
        return Parsed(Frame(final, opcode, Mask(payload.value, mask.value)), input);
      }
      return Parsed(Frame(final, opcode, payload.value), input);
    }

    /** `_send_frame`; the mask key is drawn at random. */
    method SendFrame(opcode: Opcode, payload: Bytes) returns (ghost drawn: MaskKey)
      requires |payload| < Power256(8)
      modifies `output
      ensures output == old(output) + Print(opcode, payload, drawn)
    {
      var key: MaskKey :| true;
      drawn := key;
      output := output + Print(opcode, payload, key);
    }

    /** The body of the loop of `receive`, once a frame has been read. */
    method HandleFrame(f: Frame, m: Progress) returns (turn: Turn, ghost keys: seq<MaskKey>)
      requires f.opcode >= 8 ==> |f.payload| < Power256(8)
      modifies `output
      ensures turn == Take(f, input, maxMessageBytes, m)
      ensures Answered(old(output), output, if f.opcode == PING then [f.payload] else [], keys)
    {
      keys := [];
      AnsweredNothing(output);
      if f.opcode == CLOSE {
        turn := Stop(Broken(Closed(CloseCode(f.payload)), m.pongs));
        return;
      }
      if f.opcode == PING {
        ghost var key := SendFrame(PONG, f.payload);
        AnsweredOne(old(output), f.payload, key);
        keys := [key];
        turn := Continue(m.(pongs := m.pongs + [f.payload]));
        return;
      }
      if f.opcode == PONG {
        turn := Continue(m);
        return;
      }
      var started := m.started;
      if IsData(f.opcode) {
        if started.Some? {
          turn := Stop(Broken(ProtocolError, m.pongs));
          return;
        }
        started := Some(f.opcode);
      } else if f.opcode != 0 || started.None? {
        turn := Stop(Broken(ProtocolError, m.pongs));
        return;
      }
      var message := m.data + f.payload;
      if |message| > maxMessageBytes {
        turn := Stop(Broken(MessageTooLarge, m.pongs));
        return;
      }
      if !f.final {
        turn := Continue(Progress(started, message, m.pongs));
        return;
      }
      turn := Stop(Message(started.value, message, m.pongs, input));
      return;
    }

    /** One iteration: reads a frame, fails with the reader's error, or handles the frame. */
    method NextTurn(ghost read: Reader, m: Progress) returns (turn: Turn, ghost p: Parsed, ghost keys: seq<MaskKey>)
      requires ReadsFrames(read, maxMessageBytes)
      modifies this
      ensures p == read(old(input))
      ensures turn == if p.Failed? then Stop(Broken(p.error, m.pongs)) else Take(p.frame, p.rest, maxMessageBytes, m)
      ensures p.Parsed? ==> input == p.rest && |input| < |old(input)|
      ensures Answered(old(output), output, PingIn(p), keys)
    {
      keys := [];
      AnsweredNothing(output);
      var got := ReceiveFrame();
      p := got;
      assert p == ParseFrame(old(input), maxMessageBytes);
      if got.Failed? {
        turn := Stop(Broken(got.error, m.pongs));
        return;
      }
      ParseShrinks(old(input), maxMessageBytes);
      ParsedControl(old(input), maxMessageBytes);
      turn, keys := HandleFrame(got.frame, m);
    }

    method ReceiveLoop(ghost read: Reader) returns (r: Received, ghost keys: seq<MaskKey>)
      requires Shrinking(read) && ReadsFrames(read, maxMessageBytes)
      modifies this
      ensures r == ReceiveFrom(read, old(input), maxMessageBytes, IDLE)
      ensures r.Message? ==> input == r.rest
      ensures Answered(old(output), output, r.pongs, keys)
    {
      var m := IDLE;
      keys := [];
      AnsweredNothing(output);
      while true
        invariant ReceiveFrom(read, old(input), maxMessageBytes, IDLE) == ReceiveFrom(read, input, maxMessageBytes, m)
        invariant Answered(old(output), output, m.pongs, keys)
        decreases |input|
      {
        ghost var before, written := input, output;
        var turn;
        ghost var p, last;
        turn, p, last := NextTurn(read, m);
        ReceiveTurn(read, before, maxMessageBytes, m, p);
        TurnAnswers(old(output), written, output, p, maxMessageBytes, m, turn, keys, last);
        keys := keys + last;
        if turn.Stop? {
          r := turn.r;
          return;
        }
        m := turn.next;
      }
    }

    /** `receive`: delivers what `ReceiveFrom` says, having written exactly one pong per ping on the
        way, in order, each under some mask key. */
    method Receive() returns (r: Received, ghost keys: seq<MaskKey>)
      modifies this
      ensures Shrinking(FrameReader(maxMessageBytes))
      ensures r == ReceiveFrom(FrameReader(maxMessageBytes), old(input), maxMessageBytes, IDLE)
      ensures r.Message? ==> input == r.rest
      ensures Answered(old(output), output, r.pongs, keys)
    {
      FrameReaderShrinks(maxMessageBytes);
      r, keys := ReceiveLoop(FrameReader(maxMessageBytes));
    }
  }

  // The trigger keeps the parser folded in proofs that only speak of the reader.
  ghost predicate ReadsFrames(read: Reader, maxBytes: int)
  {
    forall s {:trigger ParseFrame(s, maxBytes)} :: read(s) == ParseFrame(s, maxBytes)
  }

  lemma ReceiveTurn(read: Reader, s: Bytes, maxBytes: int, m: Progress, p: Parsed)
    requires Shrinking(read) && p == read(s)
    ensures ReceiveFrom(read, s, maxBytes, m) ==
      if p.Failed? then Broken(p.error, m.pongs)
      else
        var turn := Take(p.frame, p.rest, maxBytes, m);
        if turn.Stop? then turn.r else ReceiveFrom(read, p.rest, maxBytes, turn.next)
  {
  }

  function Joined(parts: seq<Bytes>): Bytes
  {
    if parts == [] then [] else Joined(parts[..|parts| - 1]) + parts[|parts| - 1]
  }

  lemma {:induction false} JoinedAppend(a: seq<Bytes>, b: seq<Bytes>)
    ensures Joined(a + b) == Joined(a) + Joined(b)
    decreases |b|
  {
    if b == [] {
      assert a + b == a;
    } else {
      var init := b[..|b| - 1];
      assert (a + b)[..|a + b| - 1] == a + init;
      JoinedAppend(a, init);
    }
  }

  /** The bytes of one pong; `_send_frame_on` cannot print longer payloads. */
  function PongOf(payload: Bytes, key: MaskKey): Bytes
  {
    if |payload| < Power256(8) then Print(PONG, payload, key) else []
  }

  function PongsOf(payloads: seq<Bytes>, keys: seq<MaskKey>): (ps: seq<Bytes>)
    requires |keys| == |payloads|
    ensures |ps| == |payloads|
    ensures forall i :: 0 <= i < |ps| ==> ps[i] == PongOf(payloads[i], keys[i])
  {
    seq(|payloads|, i requires 0 <= i < |payloads| => PongOf(payloads[i], keys[i]))
  }

  /** What was written between two moments is one pong per ping payload, under these mask keys, and
      nothing else. */
  ghost predicate Answered(before: Bytes, after: Bytes, payloads: seq<Bytes>, keys: seq<MaskKey>)
  {
    |keys| == |payloads| && after == before + Joined(PongsOf(payloads, keys))
  }

  lemma AnsweredNothing(b: Bytes)
    ensures Answered(b, b, [], [])
  {
    assert PongsOf([], []) == [];
  }

  lemma AnsweredOne(before: Bytes, payload: Bytes, key: MaskKey)
    requires |payload| < Power256(8)
    ensures Answered(before, before + Print(PONG, payload, key), [payload], [key])
  {
    var ps := PongsOf([payload], [key]);
    assert ps == [PongOf(payload, key)] && ps[..0] == [];
    assert Joined(ps) == PongOf(payload, key);
  }

  lemma AnsweredMore(a: Bytes, b: Bytes, c: Bytes, payloads: seq<Bytes>, keys: seq<MaskKey>, more: seq<Bytes>, last: seq<MaskKey>)
    requires Answered(a, b, payloads, keys) && Answered(b, c, more, last)
    ensures Answered(a, c, payloads + more, keys + last)
  {
    PongsOfAppend(payloads, keys, more, last);
    Associate(a, Joined(PongsOf(payloads, keys)), Joined(PongsOf(more, last)));
  }

  lemma PongsOfAppend(payloads: seq<Bytes>, keys: seq<MaskKey>, more: seq<Bytes>, last: seq<MaskKey>)
    requires |keys| == |payloads| && |last| == |more|
    ensures Joined(PongsOf(payloads + more, keys + last)) == Joined(PongsOf(payloads, keys)) + Joined(PongsOf(more, last))
  {
    var ps, qs := PongsOf(payloads, keys), PongsOf(more, last);
    assert PongsOf(payloads + more, keys + last) == ps + qs;
    JoinedAppend(ps, qs);
  }

  lemma Associate(a: Bytes, b: Bytes, c: Bytes)
    ensures (a + b) + c == a + (b + c)
  {
  }

  function PongsDue(turn: Turn): seq<Bytes>
  {
    if turn.Continue? then turn.next.pongs else turn.r.pongs
  }

  function PingIn(p: Parsed): seq<Bytes>
  {
    if p.Parsed? && p.frame.opcode == PING then [p.frame.payload] else []
  }

  lemma PingRecorded(p: Parsed, maxBytes: int, m: Progress, turn: Turn)
    requires turn == if p.Failed? then Stop(Broken(p.error, m.pongs)) else Take(p.frame, p.rest, maxBytes, m)
    ensures PongsDue(turn) == m.pongs + PingIn(p)
  {
  }

  /** Handling a frame adds a ping to the record exactly when it writes a pong. */
  lemma TurnAnswers(a: Bytes, b: Bytes, c: Bytes, p: Parsed, maxBytes: int, m: Progress, turn: Turn,
                    keys: seq<MaskKey>, last: seq<MaskKey>)
    requires Answered(a, b, m.pongs, keys) && Answered(b, c, PingIn(p), last)
    requires turn == if p.Failed? then Stop(Broken(p.error, m.pongs)) else Take(p.frame, p.rest, maxBytes, m)
    ensures Answered(a, c, PongsDue(turn), keys + last)
  {
    AnsweredMore(a, b, c, m.pongs, keys, PingIn(p), last);
    PingRecorded(p, maxBytes, m, turn);
  }
}
