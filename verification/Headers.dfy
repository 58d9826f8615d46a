/** The fixed header of every packet (packets/fixedheader.go). */
module Headers {
  import opened Wire

  const CONNECT := 1
  const CONNACK := 2
  const PUBLISH := 3
  const PUBACK := 4
  const PUBREC := 5
  const PUBREL := 6
  const PUBCOMP := 7
  const SUBSCRIBE := 8
  const SUBACK := 9
  const UNSUBSCRIBE := 10
  const UNSUBACK := 11
  const DISCONNECT := 14
  const AUTH := 15
  const WILL_PROPERTIES := 99 // not a packet: the properties of a will

  datatype Header = Header(kind: nat, dup: bool, qos: nat, retain: bool)

  function Bit(b: bool): nat { if b then 1 else 0 }

  /** The first byte: type, dup, QoS and retain side by side. */
  function FirstByte(h: Header): Byte
    requires h.kind < 16 && h.qos < 4
  {
    h.kind * 16 + Bit(h.dup) * 8 + h.qos * 2 + Bit(h.retain)
  }

  /** The value of a mask when its flag is set. */
  function Mask(flag: bool, mask: nat): nat { if flag then mask else 0 }

  function HeaderMasks(or: (nat, nat) -> nat, h: Header): nat {
    or(or(or(Mask(h.retain, 0x01), h.qos * 2), Mask(h.dup, 0x08)), h.kind * 16)
  }

  /** Section 2.1.1 of MQTT 5.0: type in the high half, then 0x08 for dup, QoS from bit 1 and
      0x01 for retain. */
  lemma FirstByteMasks(h: Header)
    requires h.kind < 16 && h.qos < 4
    ensures FirstByte(h) == HeaderMasks(Or, h)
  {
    OrJoinsBits();
    HeaderJoined(Or, h);
  }

  lemma HeaderJoined(or: (nat, nat) -> nat, h: Header)
    requires h.kind < 16 && h.qos < 4 && JoinsBits(or)
    ensures FirstByte(h) == HeaderMasks(or, h)
  {
    var low := Mask(h.retain, 0x01) + h.qos * 2;
    Apart2(Mask(h.retain, 0x01), h.qos * 2);
    Apart8(low, Mask(h.dup, 0x08));
    Apart16(low + Mask(h.dup, 0x08), h.kind * 16);
  }

  /** Reads the type and, from the low four bits, the flags that the type allows. */
  function DecodeFirst(hb: Byte): Result<Header> {
    var kind, flags := hb / 16, hb % 16;
    if kind == PUBLISH then
      if flags / 2 % 2 == 1 && flags / 4 % 2 == 1 then Err(BadQos)
      else
        var h := Header(kind, flags / 8 == 1, flags / 2 % 4, flags % 2 == 1);
        if h.qos == 0 && h.dup then Err(DupWithoutQos) else Ok(h)
    else if kind == PUBREL || kind == SUBSCRIBE || kind == UNSUBSCRIBE then
      if flags % 2 != 0 || flags / 2 % 2 != 1 || flags / 4 % 2 != 0 || flags / 8 != 0 then Err(BadFlags)
      else Ok(Header(kind, false, flags / 2 % 4, false))
    else
      if flags % 2 != 0 || flags / 2 % 2 != 0 || flags / 4 % 2 != 0 || flags / 8 != 0 then Err(BadFlags)
      else Ok(Header(kind, false, 0, false))
  }

  /** The flags the standard lays down for each packet type. */
  predicate IsProper(h: Header) {
    && h.kind < 16
    && (if h.kind == PUBLISH then h.qos <= 2 && (h.qos == 0 ==> !h.dup)
        else !h.dup && !h.retain && h.qos == if h.kind in {PUBREL, SUBSCRIBE, UNSUBSCRIBE} then 1 else 0)
  }

  lemma Nibbles(kind: nat, flags: nat)
    requires flags < 16
    ensures (kind * 16 + flags) / 16 == kind && (kind * 16 + flags) % 16 == flags
  {
  }

  /** A header byte decodes to the header it was made from exactly when its flags are proper. */
  lemma FirstByteRoundTrip(h: Header)
    requires h.kind < 16 && h.qos < 4
    ensures DecodeFirst(FirstByte(h)) == Ok(h) <==> IsProper(h)
  {
    var flags := Bit(h.dup) * 8 + h.qos * 2 + Bit(h.retain);
    Nibbles(h.kind, flags);
    FlagBits(h.dup, h.qos, h.retain);
  }

  lemma FlagBits(dup: bool, qos: nat, retain: bool)
    requires qos < 4
    ensures var flags := Bit(dup) * 8 + qos * 2 + Bit(retain);
            && flags / 8 == Bit(dup) && flags / 2 % 4 == qos && flags % 2 == Bit(retain)
            && flags / 2 % 2 == qos % 2 && flags / 4 % 2 == qos / 2
  {
  }

  /** Nothing is lost: an accepted byte is the byte its header encodes to. */
  lemma FirstByteIsFaithful(hb: Byte)
    ensures DecodeFirst(hb).Ok? ==> IsProper(DecodeFirst(hb).value) && FirstByte(DecodeFirst(hb).value) == hb
  {
    var flags := hb % 16;
    assert hb == hb / 16 * 16 + flags;
    assert flags == flags / 8 * 8 + flags / 2 % 4 * 2 + flags % 2;
  }

  /** The bytes that are accepted: a PUBLISH with QoS 0 and no dup, or with QoS 1 or 2; 2 in the
      low half for PUBREL, SUBSCRIBE and UNSUBSCRIBE; 0 there for all others. */
  lemma AcceptedBytes(hb: Byte)
    ensures DecodeFirst(hb).Ok? <==>
              hb % 16 in (if hb / 16 == 3 then [0, 1, 2, 3, 4, 5, 10, 11, 12, 13]
                          else if hb / 16 in [6, 8, 10] then [2] else [0])
    ensures DecodeFirst(hb).Ok? ==> DecodeFirst(hb).value.kind == hb / 16
  {
  }

  // ---------------------------------------------------------------- framing

  /** A header byte, the remaining length and that many bytes. */
  function Frame(h: Header, body: Bytes): Bytes
    requires h.kind < 16 && h.qos < 4
  {
    [FirstByte(h)] + Varint(|body|) + body
  }

  datatype Framed = Framed(header: Header, body: Bytes, next: nat)

  function Unframe(buf: Bytes): Result<Framed> {
    if buf == [] then Err(EndOfInput)
    else
      match DecodeFirst(buf[0])
      case Err(e) => Err(e)
      case Ok(h) =>
        match LengthFrom(buf, 1, 0, 1, 1)
        case Err(e) => Err(e)
        case Ok(Length(n, bu)) =>
          if 1 + bu + n > |buf| then Err(EndOfInput) else Ok(Framed(h, buf[1 + bu..1 + bu + n], 1 + bu + n))
  }

  /** Whatever is taken off the input was all there: a header byte that is accepted, a length
      and exactly that many bytes. */
  lemma UnframedWithin(buf: Bytes)
    ensures Unframe(buf).Ok? ==>
              var f := Unframe(buf).value;
              && f.next <= |buf| && |f.body| + 2 <= f.next && buf[f.next - |f.body|..f.next] == f.body
              && DecodeFirst(buf[0]) == Ok(f.header)
              && LengthFrom(buf, 1, 0, 1, 1) == Ok(Length(|f.body|, f.next - |f.body| - 1))
  {
    LengthWithin(buf, 1, 0, 1, 1);
  }

  lemma UnframeParts(hb: Byte, h: Header, body: Bytes, rest: Bytes)
    requires DecodeFirst(hb) == Ok(h) && |body| <= MAX_VARINT
    ensures var frame := [hb] + Varint(|body|) + body;
            Unframe(frame + rest) == Ok(Framed(h, body, |frame|))
  {
    var prefix := [hb] + Varint(|body|);
    var buf := prefix + body + rest;
    assert buf == [hb] + Varint(|body|) + (body + rest);
    VarintRoundTrip(|body|, [hb], body + rest);
    assert buf[0] == hb;
    assert buf[|prefix|..|prefix| + |body|] == body;
  }

  lemma FrameRoundTrip(h: Header, body: Bytes, rest: Bytes)
    requires IsProper(h) && |body| <= MAX_VARINT
    ensures Unframe(Frame(h, body) + rest) == Ok(Framed(h, body, |Frame(h, body)|))
  {
    FirstByteRoundTrip(h);
    UnframeParts(FirstByte(h), h, body, rest);
  }
}
