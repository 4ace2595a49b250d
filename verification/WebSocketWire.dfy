/** The wire format of the WebSocket client in numbers (sections 5.2, 5.3, 5.5 and 7.1.5 of RFC 6455), and
    what the errors of its parser and of its receive loop mean. */
module WebSocketWire {
  import opened Options
  import opened WebSocket

  // ---- masking is bitwise exclusive or -----------------------------------------------------------

  predicate Bit(n: int, k: nat)
    requires n >= 0
  {
    if k == 0 then n % 2 == 1 else Bit(n / 2, k - 1)
  }

  lemma {:induction false} XorBitsExactly(a: int, b: int, bits: nat, k: nat)
    requires a >= 0 && b >= 0 && k < bits
    ensures Bit(XorBits(a, b, bits), k) <==> Bit(a, k) != Bit(b, k)
  {
    var low, high := if a % 2 == b % 2 then 0 else 1, XorBits(a / 2, b / 2, bits - 1);
    assert XorBits(a, b, bits) == low + 2 * high;
    LowAndHigh(low, high);
    if k > 0 {
      XorBitsExactly(a / 2, b / 2, bits - 1, k - 1);
    }
  }

  lemma {:induction false} XorBitsZero(a: int, bits: nat)
    requires 0 <= a < Power2(bits)
    ensures XorBits(a, 0, bits) == a
  {
    if bits > 0 {
      XorBitsZero(a / 2, bits - 1);
    }
  }

  /** Every bit of a masked byte is the exclusive or of the bits of the payload and of the key; a zero
      key leaves the payload as it is. */
  lemma MaskExactly(payload: Bytes, key: MaskKey, i: nat, k: nat)
    requires i < |payload| && k < 8
    ensures Bit(Mask(payload, key)[i], k) <==> Bit(payload[i], k) != Bit(key[i % 4], k)
    ensures key == [0, 0, 0, 0] ==> Mask(payload, key)[i] == payload[i]
  {
    XorBitsExactly(payload[i], key[i % 4], 8, k);
    assert Power2(8) == 16 * Power2(4) == 256 * Power2(0);
    XorBitsZero(payload[i], 8);
  }

  // ---- the bytes of a frame --------------------------------------------------------------------------

  lemma {:induction false} MostSignificantFirst(x: Byte, s: Bytes)
    ensures FromBigEndian([x] + s) == x * Power256(|s|) + FromBigEndian(s)
  {
    if s == [] {
      assert [x] + s == [x] && [x][..0] == [];
    } else {
      var init := s[..|s| - 1];
      MostSignificantFirst(x, init);
      assert ([x] + s)[..|s|] == [x] + init;
      assert Power256(|s|) == 256 * Power256(|init|);
      Distribute(x, Power256(|init|));
    }
  }

  lemma Distribute(x: int, p: int)
    ensures 256 * (x * p) == x * (256 * p)
  {
  }

  function TwoByteNumber(high: int, low: int): int { 256 * high + low }

  lemma TwoBytes(s: Bytes)
    requires |s| == 2
    ensures FromBigEndian(s) == TwoByteNumber(s[0], s[1])
  {
    assert s[..1][..0] == [] && FromBigEndian(s[..1]) == s[0];
  }

  /** Where the payload starts, and how its length is written: in seven bits, in two bytes after 126, or
      in eight bytes after 127, most significant byte first. */
  ghost predicate LengthAt(b: Bytes, n: nat, form: LengthForm, at: nat)
    requires |b| >= 2
  {
    match form
    case Short => b[1] % 128 == n && n <= 125 && at == 2
    case Medium => b[1] % 128 == 126 && |b| >= 4 && TwoByteNumber(b[2], b[3]) == n && at == 4
    case Long => b[1] % 128 == 127 && |b| >= 10 && FromBigEndian(b[2..10]) == n && at == 10
  }

  function PayloadStart(form: LengthForm): nat
  {
    match form case Short => 2 case Medium => 4 case Long => 10
  }

  lemma EncodedParts(w: Wire, at: nat)
    requires FormHolds(w.form, |w.frame.payload|) && at == PayloadStart(w.form)
    ensures var b := Encode(w);
      && |b| == at + |Body(w.frame, w.key)| && b[0] == FirstByte(w.frame)
      && b[1] == SecondByte(w.key.Some?, LengthCode(w.form, |w.frame.payload|))
      && b[2..at] == LengthBytes(w.form, |w.frame.payload|) && b[at..] == Body(w.frame, w.key)
  {
    var lengths, body := LengthBytes(w.form, |w.frame.payload|), Body(w.frame, w.key);
    assert Encode(w)[2..] == lengths + body;
    assert Encode(w)[2..at] == (lengths + body)[..at - 2] == lengths;
    assert Encode(w)[at..] == (lengths + body)[at - 2..] == body;
  }

  lemma MediumLength(b: Bytes, n: int)
    requires 0 <= n < Power256(2) && |b| >= 4 && b[2..4] == BigEndian(n, 2)
    ensures TwoByteNumber(b[2], b[3]) == n
  {
    LengthRoundTrip(n, 2);
    TwoBytes(b[2..4]);
  }

  lemma EncodedLength(w: Wire, b: Bytes, at: nat)
    requires FormHolds(w.form, |w.frame.payload|) && at == PayloadStart(w.form) && |b| >= at
    requires b[1] == SecondByte(w.key.Some?, LengthCode(w.form, |w.frame.payload|))
    requires b[2..at] == LengthBytes(w.form, |w.frame.payload|)
    ensures LengthAt(b, |w.frame.payload|, w.form, at) && (b[1] >= 128 <==> w.key.Some?)
  {
    var n := |w.frame.payload|;
    HeaderBits(w.frame, w.key.Some?, LengthCode(w.form, n));
    match w.form
    case Short =>
    case Medium => MediumLength(b, n);
    case Long => LengthRoundTrip(n, 8);
  }

  lemma MaskedPayload(b: Bytes, at: nat, payload: Bytes, key: MaskKey)
    requires at <= |b| && b[at..] == key + Mask(payload, key)
    ensures |b| == at + 4 + |payload| && b[at..at + 4] == key
    ensures forall i :: 0 <= i < |payload| ==> b[at + 4 + i] == Xor(payload[i], key[i % 4])
  {
    var body := b[at..];
    assert b[at..at + 4] == body[..4] == key;
    forall i | 0 <= i < |payload| ensures b[at + 4 + i] == Xor(payload[i], key[i % 4]) {
      assert b[at + 4 + i] == body[4 + i] == Mask(payload, key)[i];
    }
  }

  /** The mask key if any, then the payload. */
  ghost predicate PayloadAt(b: Bytes, payload: Bytes, key: Option<MaskKey>, at: nat)
    requires at <= |b|
  {
    if key.None? then b[at..] == payload
    else
      && |b| == at + 4 + |payload| && b[at..at + 4] == key.value
      && forall i :: 0 <= i < |payload| ==> b[at + 4 + i] == Xor(payload[i], key.value[i % 4])
  }

  /** The layout of a frame: FIN and opcode, mask flag and length, the mask key if any, the payload. */
  lemma FrameLayout(w: Wire) returns (at: nat)
    requires FormHolds(w.form, |w.frame.payload|)
    ensures var b := Encode(w);
      && 2 <= at <= |b| && b[0] == (if w.frame.final then 128 else 0) + w.frame.opcode
      && (b[1] >= 128 <==> w.key.Some?) && LengthAt(b, |w.frame.payload|, w.form, at)
      && PayloadAt(b, w.frame.payload, w.key, at)
  {
    at := PayloadStart(w.form);
    EncodedParts(w, at);
    EncodedLength(w, Encode(w), at);
    if w.key.Some? {
      MaskedPayload(Encode(w), at, w.frame.payload, w.key.value);
    }
  }

  /** The client writes final, masked frames in the shortest length form; its pongs have first byte 138
      and carry the ping's payload. */
  lemma ClientFrames(opcode: Opcode, payload: Bytes, key: MaskKey) returns (at: nat)
    requires |payload| < Power256(8)
    ensures var b, n := Print(opcode, payload, key), |payload|;
      && 2 <= at <= |b| && b[0] == 128 + opcode && b[1] >= 128
      && LengthAt(b, n, if n <= 125 then Short else if n <= 65535 then Medium else Long, at)
      && PayloadAt(b, payload, Some(key), at)
    ensures PongOf(payload, key) == Print(10, payload, key)
  {
    PrintIsEncode(opcode, payload, key);
    at := FrameLayout(Wire(Frame(true, opcode, payload), ShortestForm(|payload|), Some(key)));
  }

  // ---- refusals -------------------------------------------------------------------------------------------

  /** Reserved bits are refused; of the well-formed frames, fragmented or long control frames and payloads
      over the limit are, in this order; every other one is accepted. */
  lemma FramesRefused(w: Wire, rest: Bytes, maxBytes: int)
    requires FormHolds(w.form, |w.frame.payload|)
    ensures ParseFrame(Encode(w) + rest, maxBytes) ==
      if w.frame.opcode >= 8 && (!w.frame.final || |w.frame.payload| > 125) then Failed(InvalidControlFrame)
      else if |w.frame.payload| > maxBytes then Failed(MessageTooLarge)
      else Parsed(w.frame, rest)
  {
    EncodeRoundTrip(w, rest, maxBytes);
  }

  lemma ReservedBitsRefused(s: Bytes, maxBytes: int)
    requires |s| >= 2
    ensures (s[0] % 128 >= 16 <==> ParseFrame(s, maxBytes) == Failed(UnsupportedExtension))
  {
  }

  lemma TruncatedTail(w: Wire, n: nat, maxBytes: int)
    requires var f, m := w.frame, |w.frame.payload|; var tail := LengthBytes(w.form, m) + Body(f, w.key);
      && FormHolds(w.form, m) && n < |tail|
      && ParseLength(f.final, f.opcode, w.key.Some?, LengthCode(w.form, m), tail, maxBytes).Parsed?
    ensures var f, m := w.frame, |w.frame.payload|; var tail := LengthBytes(w.form, m) + Body(f, w.key);
      ParseLength(f.final, f.opcode, w.key.Some?, LengthCode(w.form, m), tail[..n], maxBytes) == Failed(Closed(None))
  {
    var f, m := w.frame, |w.frame.payload|;
    var lengths, body := LengthBytes(w.form, m), Body(f, w.key);
    LengthStep(f.final, f.opcode, w.key.Some?, w.form, m, body, maxBytes);
    if n >= |lengths| {
      var cut := body[..n - |lengths|];
      assert (lengths + body)[..n] == lengths + cut;
      LengthStep(f.final, f.opcode, w.key.Some?, w.form, m, cut, maxBytes);
    }
  }

  /** A stream that ends inside an acceptable frame is a closed connection. */
  lemma TruncationCloses(w: Wire, n: nat, maxBytes: int)
    requires FormHolds(w.form, |w.frame.payload|) && n < |Encode(w)|
    requires ParseFrame(Encode(w), maxBytes).Parsed?
    ensures ParseFrame(Encode(w)[..n], maxBytes) == Failed(Closed(None))
  {
    var whole, m := Encode(w), |w.frame.payload|;
    var tail := LengthBytes(w.form, m) + Body(w.frame, w.key);
    HeaderBits(w.frame, w.key.Some?, LengthCode(w.form, m));
    assert whole[2..] == tail;
    if n >= 2 {
      assert whole[..n][2..] == tail[..n - 2];
      TruncatedTail(w, n - 2, maxBytes);
    }
  }

  /** One turn of the receive loop: close ends it with the code of the first two payload bytes; pings are
      answered with their payload and pongs ignored; data outside a legal fragmentation is a protocol
      error, and too much of it is refused; a final data frame ends the message. */
  lemma TurnExactly(f: Frame, rest: Bytes, maxBytes: int, m: Progress)
    ensures Take(f, rest, maxBytes, m) ==
      if f.opcode == 8 then
        Stop(Broken(Closed(if |f.payload| < 2 then None else Some(TwoByteNumber(f.payload[0], f.payload[1]))), m.pongs))
      else if f.opcode == 9 then Continue(Progress(m.started, m.data, m.pongs + [f.payload]))
      else if f.opcode == 10 then Continue(m)
      else if f.opcode > 2 || (f.opcode == 0 <==> m.started.None?) then Stop(Broken(ProtocolError, m.pongs))
      else if |m.data| + |f.payload| > maxBytes then Stop(Broken(MessageTooLarge, m.pongs))
      else
        var kind := if m.started.Some? then m.started.value else f.opcode;
        if f.final then Stop(Message(kind, m.data + f.payload, m.pongs, rest))
        else Continue(Progress(Some(kind), m.data + f.payload, m.pongs))
  {
    if |f.payload| >= 2 {
      TwoBytes(f.payload[..2]);
    }
  }
}
