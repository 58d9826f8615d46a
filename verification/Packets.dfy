/** Whole packets (packets/packets.go; section 3 of MQTT 5.0). */
module Packets {
  import opened Wire
  import opened Headers
  import opened Properties

  // ---------------------------------------------------------------- parts of packets

  lemma StringReads(val: Bytes)
    requires IsShortText(val)
    ensures ReadsBack(DecodeString, EncodeBytes(val), val)
  {
    forall buf: Bytes, off: nat | HasAt(buf, off, EncodeBytes(val))
      ensures DecodeString(buf, off) == Ok(Parsed(val, off + |EncodeBytes(val)|)) { StringRoundTrip(buf, off, val); }
  }

  lemma BytesReads(val: Bytes)
    requires |val| < U16
    ensures ReadsBack(DecodeBytes, EncodeBytes(val), val)
  {
    forall buf: Bytes, off: nat | HasAt(buf, off, EncodeBytes(val))
      ensures DecodeBytes(buf, off) == Ok(Parsed(val, off + |EncodeBytes(val)|)) { BytesRoundTrip(buf, off, val); }
  }

  lemma Uint16Reads(v: nat)
    requires v < U16
    ensures ReadsBack(DecodeUint16, Uint16(v), v)
  {
    forall buf: Bytes, off: nat | HasAt(buf, off, Uint16(v))
      ensures DecodeUint16(buf, off) == Ok(Parsed(v, off + |Uint16(v)|)) { Uint16RoundTrip(buf, off, v); }
  }

  /** Only version 5 packets have properties. */
  function PropPart(version: nat, p: Props, pkt: nat, mods: Mods, n: nat): Bytes {
    if version == 5 then Encoded(p, pkt, mods, n) else []
  }

  function ShownProps(version: nat, p: Props, pkt: nat, mods: Mods, n: nat): Props {
    if version == 5 then Visible(p, pkt, mods, n) else EMPTY
  }

  function ParseProps(pkt: nat, buf: Bytes, off: nat): Result<Parsed<Props>> {
    if off > |buf| then Err(EndOfInput)
    else
      match Decoded(pkt, buf[off..])
      case Err(e) => Err(e)
      case Ok(Parsed(p, n)) => Ok(Parsed(p, off + n))
  }

  function PropsReader(version: nat, pkt: nat): Reader<Props> {
    if version == 5 then (buf: Bytes, off: nat) => ParseProps(pkt, buf, off) else Constant(EMPTY)
  }

  lemma PropsParse(p: Props, pkt: nat, mods: Mods, n: nat, buf: Bytes, off: nat)
    requires IsTyped(p) && |Encoded(p, pkt, mods, n)| <= MAX_VARINT && HasAt(buf, off, Encoded(p, pkt, mods, n))
    ensures ParseProps(pkt, buf, off) == Ok(Parsed(Visible(p, pkt, mods, n), off + |Encoded(p, pkt, mods, n)|))
  {
    var part := Encoded(p, pkt, mods, n);
    var rest := buf[off + |part|..];
    assert buf[off..] == part + rest;
    PropertiesRoundTrip(p, pkt, mods, n, rest);
  }

  lemma PropsRead(version: nat, p: Props, pkt: nat, mods: Mods, n: nat)
    requires IsTyped(p) && |PropPart(version, p, pkt, mods, n)| <= MAX_VARINT
    ensures ReadsBack(PropsReader(version, pkt), PropPart(version, p, pkt, mods, n), ShownProps(version, p, pkt, mods, n))
  {
    if version == 5 {
      forall buf: Bytes, off: nat | HasAt(buf, off, Encoded(p, pkt, mods, n))
        ensures PropsReader(5, pkt)(buf, off) == Ok(Parsed(Visible(p, pkt, mods, n), off + |Encoded(p, pkt, mods, n)|))
      {
        PropsParse(p, pkt, mods, n, buf, off);
      }
    } else {
      ConstantReads(EMPTY);
    }
  }

  /** The properties of a packet all come back exactly when they are canonical for it. */
  ghost predicate AllShown(version: nat, p: Props, pkt: nat, mods: Mods, n: nat) {
    if version == 5 then IsCanonical(p, pkt, mods, n) else p == EMPTY
  }

  lemma ShownIsAll(version: nat, p: Props, pkt: nat, mods: Mods, n: nat)
    ensures ShownProps(version, p, pkt, mods, n) == p <==> AllShown(version, p, pkt, mods, n)
  {
    VisibleIsAll(p, pkt, mods, n);
  }

  // ---------------------------------------------------------------- PUBLISH

  datatype Publish = Publish(dup: bool, qos: nat, retain: bool, topic: Bytes, id: nat, props: Props, payload: Bytes)

  function IDPart(qos: nat, id: nat): Bytes { if qos > 0 then Uint16(id) else [] }

  function IDReader(qos: nat): Reader<nat> { if qos > 0 then DecodeUint16 else Constant(0) }

  lemma IDReads(qos: nat, id: nat)
    requires id < U16 && (qos > 0 <==> id > 0)
    ensures ReadsBack(IDReader(qos), IDPart(qos, id), id)
  {
    if qos > 0 { Uint16Reads(id); } else { ConstantReads(0); }
  }

  function PublishSize(pk: Publish): nat { |EncodeBytes(pk.topic)| + |IDPart(pk.qos, pk.id)| + |pk.payload| }

  function PublishProps(version: nat, pk: Publish, mods: Mods): Bytes {
    PropPart(version, pk.props, PUBLISH, mods, PublishSize(pk))
  }

  function PublishBody(version: nat, pk: Publish, mods: Mods): Bytes {
    EncodeBytes(pk.topic) + (IDPart(pk.qos, pk.id) + PublishProps(version, pk, mods)) + pk.payload
  }

  function EncodePublish(version: nat, pk: Publish, mods: Mods): Result<Bytes>
    requires pk.qos < 4
  {
    if pk.qos > 0 && pk.id == 0 then Err(NoPacketID)
    else Ok(Frame(Header(PUBLISH, pk.dup, pk.qos, pk.retain), PublishBody(version, pk, mods)))
  }

  function PublishReader(version: nat, qos: nat): Reader<(Bytes, (nat, Props))> {
    Both(DecodeString, Both(IDReader(qos), PropsReader(version, PUBLISH)))
  }

  function DecodePublish(version: nat, h: Header, buf: Bytes): Result<Publish> {
    match PublishReader(version, h.qos)(buf, 0)
    case Err(e) => Err(e)
    case Ok(Parsed((topic, (id, props)), next)) =>
      if next > |buf| then Err(EndOfInput) else Ok(Publish(h.dup, h.qos, h.retain, topic, id, props, buf[next..]))
  }

  /** A well-formed PUBLISH that fits the remaining length. */
  ghost predicate IsPublish(version: nat, pk: Publish, mods: Mods) {
    && IsShortText(pk.topic) && pk.id < U16 && (pk.qos > 0 <==> pk.id > 0) && IsTyped(pk.props)
    && Headers.IsProper(Header(PUBLISH, pk.dup, pk.qos, pk.retain)) && |PublishBody(version, pk, mods)| <= MAX_VARINT
  }

  function SeenPublish(version: nat, pk: Publish, mods: Mods): Publish {
    pk.(props := ShownProps(version, pk.props, PUBLISH, mods, PublishSize(pk)))
  }

  lemma PublishPartReads(version: nat, pk: Publish, mods: Mods)
    requires IsPublish(version, pk, mods)
    ensures ReadsBack(PublishReader(version, pk.qos), EncodeBytes(pk.topic) + (IDPart(pk.qos, pk.id) + PublishProps(version, pk, mods)),
                      (pk.topic, (pk.id, ShownProps(version, pk.props, PUBLISH, mods, PublishSize(pk)))))
  {
    var part, shown := PublishProps(version, pk, mods), ShownProps(version, pk.props, PUBLISH, mods, PublishSize(pk));
    StringReads(pk.topic);
    IDReads(pk.qos, pk.id);
    PropsRead(version, pk.props, PUBLISH, mods, PublishSize(pk));
    BothReads(IDReader(pk.qos), PropsReader(version, PUBLISH), IDPart(pk.qos, pk.id), part, pk.id, shown);
    BothReads(DecodeString, Both(IDReader(pk.qos), PropsReader(version, PUBLISH)),
              EncodeBytes(pk.topic), IDPart(pk.qos, pk.id) + part, pk.topic, (pk.id, shown));
  }

  lemma PublishDecodes(version: nat, pk: Publish, mods: Mods)
    requires IsPublish(version, pk, mods)
    ensures DecodePublish(version, Header(PUBLISH, pk.dup, pk.qos, pk.retain), PublishBody(version, pk, mods)) ==
              Ok(SeenPublish(version, pk, mods))
  {
    var part := EncodeBytes(pk.topic) + (IDPart(pk.qos, pk.id) + PublishProps(version, pk, mods));
    PublishPartReads(version, pk, mods);
    assert HasAt(part + pk.payload, 0, part) && (part + pk.payload)[|part|..] == pk.payload;
  }

  // ---------------------------------------------------------------- PUBACK, PUBREC, PUBREL and PUBCOMP

  datatype Ack = Ack(kind: nat, id: nat, reason: nat, props: Props)

  const UNSPECIFIED_ERROR := 0x80

  /** The reason code is left out when it is a success and there are no properties. */
  function AckTail(reason: Byte, props: Bytes): Bytes {
    if reason >= UNSPECIFIED_ERROR || |props| > 1 then [reason] + (if |props| > 1 then props else []) else []
  }

  function AckBody(version: nat, pk: Ack, mods: Mods): Bytes
    requires pk.reason < 256
  {
    Uint16(pk.id) + (if version == 5 then AckTail(pk.reason, Encoded(pk.props, pk.kind, mods, 2)) else [])
  }

  function AckHeader(kind: nat): Header { Header(kind, false, if kind == PUBREL then 1 else 0, false) }

  predicate IsAckKind(kind: nat) { PUBACK <= kind <= PUBCOMP }

  function EncodeAck(version: nat, pk: Ack, mods: Mods): Bytes
    requires IsAckKind(pk.kind) && pk.reason < 256
  {
    Frame(AckHeader(pk.kind), AckBody(version, pk, mods))
  }

  function DecodeAck(version: nat, h: Header, buf: Bytes): Result<Ack> {
    match DecodeUint16(buf, 0)
    case Err(e) => Err(e)
    case Ok(Parsed(id, _)) =>
      if version == 5 && |buf| > 2 then
        if |buf| > 3 then
          match Decoded(h.kind, buf[3..])
          case Err(e) => Err(e)
          case Ok(Parsed(props, _)) => Ok(Ack(h.kind, id, buf[2], props))
        else Ok(Ack(h.kind, id, buf[2], EMPTY))
      else Ok(Ack(h.kind, id, 0, EMPTY))
  }

  ghost predicate IsAck(version: nat, pk: Ack, mods: Mods) {
    && IsAckKind(pk.kind) && pk.id < U16 && pk.reason < 256 && IsTyped(pk.props)
    && |AckBody(version, pk, mods)| <= MAX_VARINT && |Body(pk.props, pk.kind, mods, 2)| <= MAX_VARINT
  }

  /** What a reader of an acknowledgement sees. */
  function SeenAck(version: nat, pk: Ack, mods: Mods): Ack {
    if version != 5 then Ack(pk.kind, pk.id, 0, EMPTY)
    else
      var props := Visible(pk.props, pk.kind, mods, 2);
      Ack(pk.kind, pk.id, if pk.reason >= UNSPECIFIED_ERROR || props != EMPTY then pk.reason else 0, props)
  }

  /** Something is written exactly when something is visible. */
  lemma EmptyBody(p: Props, pkt: nat, mods: Mods, n: nat)
    requires IsTyped(p) && |Body(p, pkt, mods, n)| <= MAX_VARINT
    ensures |Encoded(p, pkt, mods, n)| > 1 <==> Visible(p, pkt, mods, n) != EMPTY
  {
    var body := Body(p, pkt, mods, n);
    BodyParses(p, pkt, mods, n, []);
    if body == [] {
      assert ParseAll(pkt, body + [], 0, 0, EMPTY) == Ok(EMPTY);
    } else if Visible(p, pkt, mods, n) == EMPTY {
      NothingVisible(p, ChoiceOf(p, pkt, mods, n), ORDER);
    }
  }

  lemma {:induction false} NothingVisible(p: Props, c: Choice, order: Bytes)
    requires c.numbers <= p.nums.Keys && c.texts <= p.texts.Keys && Shown(p, c) == EMPTY
    ensures Fields(p, c, order) == []
  {
    if order != [] {
      var id := order[|order| - 1];
      NothingVisible(p, c, order[..|order| - 1]);
      assert id in p.nums && id in c.numbers ==> id in Shown(p, c).nums;
      assert id in p.texts && id in c.texts ==> id in Shown(p, c).texts;
      if c.ids { NoIDBytes(p.subIDs); }
    }
  }

  lemma {:induction false} NoIDBytes(ids: seq<nat>)
    requires Positive(ids) == []
    ensures IDBytes(ids) == []
  {
    if ids != [] {
      assert ids[0] == 0 && Positive(ids) == Positive(ids[1..]);
      NoIDBytes(ids[1..]);
    }
  }

  lemma AckReads(h: Header, id: nat, reason: Byte, props: Bytes, shown: Props)
    requires id < U16 && (|props| > 1 ==> Decoded(h.kind, props) == Ok(Parsed(shown, |props|))) && (|props| > 1 <==> shown != EMPTY)
    ensures DecodeAck(5, h, Uint16(id) + AckTail(reason, props)) ==
              Ok(Ack(h.kind, id, if reason >= UNSPECIFIED_ERROR || shown != EMPTY then reason else 0, shown))
  {
    var tail := AckTail(reason, props);
    var buf := Uint16(id) + tail;
    assert HasAt(buf, 0, Uint16(id));
    Uint16RoundTrip(buf, 0, id);
    assert buf[2..] == tail;
    if |props| > 1 { assert buf[3..] == props; }
  }

  lemma AckDecodes(version: nat, pk: Ack, mods: Mods)
    requires IsAck(version, pk, mods)
    ensures DecodeAck(version, AckHeader(pk.kind), AckBody(version, pk, mods)) == Ok(SeenAck(version, pk, mods))
  {
    if version == 5 {
      var props := Encoded(pk.props, pk.kind, mods, 2);
      EmptyBody(pk.props, pk.kind, mods, 2);
      PropertiesRoundTrip(pk.props, pk.kind, mods, 2, []);
      assert props + [] == props;
      AckReads(AckHeader(pk.kind), pk.id, pk.reason, props, Visible(pk.props, pk.kind, mods, 2));
    } else {
      var buf := AckBody(version, pk, mods);
      assert buf == Uint16(pk.id) && HasAt(buf, 0, buf);
      Uint16RoundTrip(buf, 0, pk.id);
    }
  }

  /** An acknowledgement comes back whole exactly when nothing it says was left out. */
  lemma AckIsSeen(version: nat, pk: Ack, mods: Mods)
    ensures SeenAck(version, pk, mods) == pk <==>
              && AllShown(version, pk.props, pk.kind, mods, 2)
              && (pk.reason == 0 || (version == 5 && (pk.reason >= UNSPECIFIED_ERROR || pk.props != EMPTY)))
  {
    VisibleIsAll(pk.props, pk.kind, mods, 2);
  }

  // ---------------------------------------------------------------- SUBSCRIBE

  datatype Filter = Filter(name: Bytes, qos: nat, noLocal: bool, retainAsPublished: bool, retainHandling: nat, identifier: nat)

  datatype Subscribe = Subscribe(id: nat, props: Props, filters: seq<Filter>)

  /** Each option has its own bits of the byte. */
  function OptionByte(version: nat, f: Filter): Byte {
    if version == 5 then f.qos % 4 + Bit(f.noLocal) * 4 + Bit(f.retainAsPublished) * 8 + f.retainHandling % 4 * 16
    else f.qos % 256
  }

  function DecodeOption(version: nat, name: Bytes, b: Byte, identifier: nat): Filter {
    if version == 5 then Filter(name, b % 4, b / 4 % 2 == 1, b / 8 % 2 == 1, b / 16 % 4, identifier)
    else Filter(name, b, false, false, 0, identifier)
  }

  /** A filter as version 5 or an earlier version can express it. */
  predicate IsFilter(version: nat, f: Filter, identifier: nat) {
    && IsShortText(f.name) && f.qos <= 2 && f.retainHandling < 4 && f.identifier == identifier
    && (version != 5 ==> !f.noLocal && !f.retainAsPublished && f.retainHandling == 0)
  }

  ghost predicate AreFilters(version: nat, fs: seq<Filter>, identifier: nat) {
    forall i :: 0 <= i < |fs| ==> IsFilter(version, fs[i], identifier)
  }

  lemma OptionBits(qos: nat, noLocal: nat, asPublished: nat, handling: nat)
    requires qos < 4 && noLocal < 2 && asPublished < 2 && handling < 4
    ensures var b := qos + noLocal * 4 + asPublished * 8 + handling * 16;
            b % 4 == qos && b / 4 % 2 == noLocal && b / 8 % 2 == asPublished && b / 16 % 4 == handling
  {
  }

  lemma OptionRoundTrip(version: nat, f: Filter, identifier: nat)
    requires IsFilter(version, f, identifier)
    ensures DecodeOption(version, f.name, OptionByte(version, f), identifier) == f
  {
    assert f.qos % 4 == f.qos && f.retainHandling % 4 == f.retainHandling;
    OptionBits(f.qos, Bit(f.noLocal), Bit(f.retainAsPublished), f.retainHandling);
  }

  function SubscriptionMasks(or: (nat, nat) -> nat, f: Filter): nat {
    or(or(or(f.qos, Mask(f.noLocal, 0x04)), Mask(f.retainAsPublished, 0x08)), f.retainHandling * 0x10)
  }

  /** Section 3.8.3.1 of MQTT 5.0: QoS in the two lowest bits, then 0x04 for No Local, 0x08 for
      Retain As Published and two bits of Retain Handling; before version 5 QoS alone. */
  lemma OptionMasks(f: Filter)
    requires f.qos < 4 && f.retainHandling < 4
    ensures OptionByte(5, f) == SubscriptionMasks(Or, f)
  {
    OrJoinsBits();
    OptionJoined(Or, f);
  }

  lemma OldOption(version: nat, f: Filter)
    requires version != 5 && f.qos < 256
    ensures OptionByte(version, f) == f.qos
  {
  }

  lemma OptionJoined(or: (nat, nat) -> nat, f: Filter)
    requires f.qos < 4 && f.retainHandling < 4 && JoinsBits(or)
    ensures OptionByte(5, f) == SubscriptionMasks(or, f)
  {
    var low := f.qos + Mask(f.noLocal, 0x04);
    Apart4(f.qos, Mask(f.noLocal, 0x04));
    Apart8(low, Mask(f.retainAsPublished, 0x08));
    Apart16(low + Mask(f.retainAsPublished, 0x08), f.retainHandling * 0x10);
    assert f.qos % 4 == f.qos && f.retainHandling % 4 == f.retainHandling;
  }

  /** Every byte is made of the masks of what is read from it and the two reserved bits. */
  lemma EveryOptionByte(name: Bytes, b: Byte, identifier: nat)
    ensures var f := DecodeOption(5, name, b, identifier);
            && f.qos < 4 && f.retainHandling < 4 && f.name == name && f.identifier == identifier
            && b == SubscriptionMasks(Or, f) + b / 64 * 64
  {
    var f := DecodeOption(5, name, b, identifier);
    OptionMasks(f);
    OptionSum(name, b, identifier);
  }

  lemma OptionSum(name: Bytes, b: Byte, identifier: nat)
    ensures b == OptionByte(5, DecodeOption(5, name, b, identifier)) + b / 64 * 64
  {
    OptionDigits(b);
    assert b % 4 % 4 == b % 4 && b / 16 % 4 % 4 == b / 16 % 4;
  }

  lemma OptionDigits(b: nat)
    ensures b == b % 4 + b / 4 % 2 * 4 + b / 8 % 2 * 8 + b / 16 % 4 * 16 + b / 64 * 64
  {
    var x, y := b / 4, b / 16;
    assert x == x % 2 + x / 2 % 2 * 2 + x / 4 * 4;
    assert b / 8 == x / 2 && y == x / 4;
    assert y == y % 4 + y / 4 * 4 && b / 64 == y / 4;
  }

  function FilterField(version: nat, f: Filter): Bytes { EncodeBytes(f.name) + [OptionByte(version, f)] }

  function FiltersBytes(version: nat, fs: seq<Filter>): Bytes { Joined((f: Filter) => FilterField(version, f), fs) }

  function ReadFilter(version: nat, identifier: nat, buf: Bytes, off: nat): (r: Result<Parsed<Filter>>)
    ensures r.Ok? ==> off < r.value.next
  {
    match Both(DecodeString, DecodeByte)(buf, off)
    case Err(e) => Err(e)
    case Ok(Parsed((name, option), next)) =>
      var f := DecodeOption(version, name, option, identifier);
      if f.qos > 2 then Err(BadQos) else Ok(Parsed(f, next))
  }

  lemma FilterIsSound(version: nat, identifier: nat, buf: Bytes, off: nat)
    ensures var r := ReadFilter(version, identifier, buf, off);
            r.Ok? ==> r.value.value.qos <= 2 && r.value.value.identifier == identifier && IsValidText(r.value.value.name)
  {
    var read := Both(DecodeString, DecodeByte)(buf, off);
    assert read.Ok? ==> DecodeString(buf, off).Ok? && read.value.value.0 == DecodeString(buf, off).value.value;
  }

  /** The decoder's loop over the filters to the end of the packet. */
  function ParseFilters(version: nat, identifier: nat, buf: Bytes, off: nat, acc: seq<Filter>): Result<seq<Filter>>
    decreases |buf| - off, 1
  {
    if off >= |buf| then Ok(acc) else ParseFilter(version, identifier, buf, off, acc)
  }

  function ParseFilter(version: nat, identifier: nat, buf: Bytes, off: nat, acc: seq<Filter>): Result<seq<Filter>>
    requires off < |buf|
    decreases |buf| - off, 0
  {
    match ReadFilter(version, identifier, buf, off)
    case Err(e) => Err(e)
    case Ok(r) => ParseFilters(version, identifier, buf, r.next, acc + [r.value])
  }

  method DecodeFilters(version: nat, identifier: nat, buf: Bytes, off: nat) returns (r: Result<seq<Filter>>)
    ensures r == ParseFilters(version, identifier, buf, off, [])
    ensures r.Ok? ==> forall f <- r.value :: f.qos <= 2 && f.identifier == identifier && IsValidText(f.name)
  {
    var filters: seq<Filter>, at := [], off;
    while at < |buf|
      invariant ParseFilters(version, identifier, buf, off, []) == ParseFilters(version, identifier, buf, at, filters)
      invariant forall f <- filters :: f.qos <= 2 && f.identifier == identifier && IsValidText(f.name)
      decreases |buf| - at
    {
      var f := ReadFilter(version, identifier, buf, at);
      FilterIsSound(version, identifier, buf, at);
      assert ParseFilters(version, identifier, buf, at, filters) == ParseFilter(version, identifier, buf, at, filters);
      if f.Err? {
        return Err(f.error);
      }
      filters, at := filters + [f.value.value], f.value.next;
    }
    return Ok(filters);
  }

  lemma ByteReads(b: Byte)
    ensures ReadsBack(DecodeByte, [b], b)
  {
  }

  lemma FilterReads(version: nat, identifier: nat, f: Filter, buf: Bytes, off: nat)
    requires IsFilter(version, f, identifier) && HasAt(buf, off, FilterField(version, f))
    ensures ReadFilter(version, identifier, buf, off) == Ok(Parsed(f, off + |FilterField(version, f)|))
  {
    StringReads(f.name);
    ByteReads(OptionByte(version, f));
    BothReads(DecodeString, DecodeByte, EncodeBytes(f.name), [OptionByte(version, f)], f.name, OptionByte(version, f));
    OptionRoundTrip(version, f, identifier);
  }

  lemma FilterParses(version: nat, identifier: nat, buf: Bytes, off: nat, acc: seq<Filter>, f: Filter)
    requires IsFilter(version, f, identifier) && HasAt(buf, off, FilterField(version, f))
    ensures ParseFilters(version, identifier, buf, off, acc) ==
              ParseFilters(version, identifier, buf, off + |FilterField(version, f)|, acc + [f])
  {
    FilterReads(version, identifier, f, buf, off);
    assert ParseFilter(version, identifier, buf, off, acc) ==
           ParseFilters(version, identifier, buf, off + |FilterField(version, f)|, acc + [f]);
  }

  lemma {:induction false} FoldAppend<T>(add: (seq<T>, T) -> seq<T>, acc: seq<T>, items: seq<T>)
    requires forall a, x :: add(a, x) == a + [x]
    ensures Fold(add, acc, items) == acc + items
    decreases |items|
  {
    if items == [] {
      assert acc + items == acc;
    } else {
      FoldAppend(add, acc + [items[0]], items[1..]);
      assert acc + [items[0]] + items[1..] == acc + items;
    }
  }

  lemma FiltersParse(version: nat, identifier: nat, buf: Bytes, off: nat, fs: seq<Filter>)
    requires AreFilters(version, fs, identifier) && HasAt(buf, off, FiltersBytes(version, fs)) && off + |FiltersBytes(version, fs)| == |buf|
    ensures ParseFilters(version, identifier, buf, off, []) == Ok(fs)
  {
    var run: (nat, seq<Filter>) -> Result<seq<Filter>> := (o: nat, a: seq<Filter>) => ParseFilters(version, identifier, buf, o, a);
    var field: Filter -> Bytes := (f: Filter) => FilterField(version, f);
    var add: (seq<Filter>, Filter) -> seq<Filter> := (a: seq<Filter>, f: Filter) => a + [f];
    forall o: nat, a, i | 0 <= i < |fs| ensures ReadsItem(run, buf, |buf|, field, add, o, a, fs[i]) {
      if HasAt(buf, o, field(fs[i])) { FilterParses(version, identifier, buf, o, a, fs[i]); }
    }
    assert FiltersBytes(version, fs) == Joined(field, fs);
    ReadsItems(run, buf, |buf|, field, add, off, [], fs);
    FoldAppend(add, [], fs);
    assert [] + fs == fs;
  }

  /** The packet's subscription identifier, which all its filters get. */
  function FirstID(p: Props): nat { if p.subIDs == [] then 0 else p.subIDs[0] }

  function SubscribeSize(version: nat, pk: Subscribe): nat { 2 + |FiltersBytes(version, pk.filters)| }

  function SubscribeProps(version: nat, pk: Subscribe, mods: Mods): Bytes {
    PropPart(version, pk.props, SUBSCRIBE, mods, SubscribeSize(version, pk))
  }

  function SubscribeBody(version: nat, pk: Subscribe, mods: Mods): Bytes {
    Uint16(pk.id) + SubscribeProps(version, pk, mods) + FiltersBytes(version, pk.filters)
  }

  function EncodeSubscribe(version: nat, pk: Subscribe, mods: Mods): Result<Bytes> {
    if pk.id == 0 then Err(NoPacketID) else Ok(Frame(Header(SUBSCRIBE, false, 1, false), SubscribeBody(version, pk, mods)))
  }

  function DecodeSubscribe(version: nat, buf: Bytes): Result<Subscribe> {
    match Both(DecodeUint16, PropsReader(version, SUBSCRIBE))(buf, 0)
    case Err(e) => Err(e)
    case Ok(Parsed((id, props), next)) =>
      match ParseFilters(version, FirstID(props), buf, next, [])
      case Err(e) => Err(e)
      case Ok(fs) => Ok(Subscribe(id, props, fs))
  }

  function SeenSubscribe(version: nat, pk: Subscribe, mods: Mods): Subscribe {
    pk.(props := ShownProps(version, pk.props, SUBSCRIBE, mods, SubscribeSize(version, pk)))
  }

  ghost predicate IsSubscribe(version: nat, pk: Subscribe, mods: Mods) {
    && 0 < pk.id < U16 && IsTyped(pk.props) && |SubscribeBody(version, pk, mods)| <= MAX_VARINT
    && AreFilters(version, pk.filters, FirstID(SeenSubscribe(version, pk, mods).props))
  }

  lemma SubscribeReads(version: nat, id: nat, part: Bytes, shown: Props, fs: seq<Filter>)
    requires id < U16 && ReadsBack(PropsReader(version, SUBSCRIBE), part, shown) && AreFilters(version, fs, FirstID(shown))
    ensures DecodeSubscribe(version, Uint16(id) + part + FiltersBytes(version, fs)) == Ok(Subscribe(id, shown, fs))
  {
    var head := Uint16(id) + part;
    var buf := head + FiltersBytes(version, fs);
    Uint16Reads(id);
    BothReads(DecodeUint16, PropsReader(version, SUBSCRIBE), Uint16(id), part, id, shown);
    assert HasAt(buf, 0, head) && HasAt(buf, |head|, FiltersBytes(version, fs));
    FiltersParse(version, FirstID(shown), buf, |head|, fs);
  }

  lemma SubscribeDecodes(version: nat, pk: Subscribe, mods: Mods)
    requires IsSubscribe(version, pk, mods)
    ensures DecodeSubscribe(version, SubscribeBody(version, pk, mods)) == Ok(SeenSubscribe(version, pk, mods))
  {
    PropsRead(version, pk.props, SUBSCRIBE, mods, SubscribeSize(version, pk));
    SubscribeReads(version, pk.id, SubscribeProps(version, pk, mods), SeenSubscribe(version, pk, mods).props, pk.filters);
  }

  // ---------------------------------------------------------------- UNSUBSCRIBE

  datatype Unsubscribe = Unsubscribe(id: nat, props: Props, filters: seq<Bytes>)

  function UnsubscribeSize(pk: Unsubscribe): nat { 2 + |Joined(EncodeBytes, pk.filters)| }

  function UnsubscribeProps(version: nat, pk: Unsubscribe, mods: Mods): Bytes {
    PropPart(version, pk.props, UNSUBSCRIBE, mods, UnsubscribeSize(pk))
  }

  function UnsubscribeBody(version: nat, pk: Unsubscribe, mods: Mods): Bytes {
    Uint16(pk.id) + UnsubscribeProps(version, pk, mods) + Joined(EncodeBytes, pk.filters)
  }

  function EncodeUnsubscribe(version: nat, pk: Unsubscribe, mods: Mods): Result<Bytes> {
    if pk.id == 0 then Err(NoPacketID) else Ok(Frame(Header(UNSUBSCRIBE, false, 1, false), UnsubscribeBody(version, pk, mods)))
  }

  function ParseNames(buf: Bytes, off: nat, acc: seq<Bytes>): Result<seq<Bytes>>
    decreases |buf| - off
  {
    if off >= |buf| then Ok(acc)
    else
      match DecodeString(buf, off)
      case Err(e) => Err(e)
      case Ok(Parsed(name, next)) => ParseNames(buf, next, acc + [name])
  }

  method DecodeNames(buf: Bytes, off: nat) returns (r: Result<seq<Bytes>>)
    ensures r == ParseNames(buf, off, [])
    ensures r.Ok? ==> forall name <- r.value :: IsValidText(name)
  {
    var names: seq<Bytes>, at := [], off;
    while at < |buf|
      invariant ParseNames(buf, off, []) == ParseNames(buf, at, names)
      invariant forall name <- names :: IsValidText(name)
      decreases |buf| - at
    {
      var name := DecodeString(buf, at);
      if name.Err? {
        return Err(name.error);
      }
      names, at := names + [name.value.value], name.value.next;
    }
    return Ok(names);
  }

  function DecodeUnsubscribe(version: nat, buf: Bytes): Result<Unsubscribe> {
    match Both(DecodeUint16, PropsReader(version, UNSUBSCRIBE))(buf, 0)
    case Err(e) => Err(e)
    case Ok(Parsed((id, props), next)) =>
      match ParseNames(buf, next, [])
      case Err(e) => Err(e)
      case Ok(fs) => Ok(Unsubscribe(id, props, fs))
  }

  function SeenUnsubscribe(version: nat, pk: Unsubscribe, mods: Mods): Unsubscribe {
    pk.(props := ShownProps(version, pk.props, UNSUBSCRIBE, mods, UnsubscribeSize(pk)))
  }

  ghost predicate AreNames(names: seq<Bytes>) { forall i :: 0 <= i < |names| ==> IsShortText(names[i]) }

  ghost predicate IsUnsubscribe(version: nat, pk: Unsubscribe, mods: Mods) {
    0 < pk.id < U16 && IsTyped(pk.props) && AreNames(pk.filters) && |UnsubscribeBody(version, pk, mods)| <= MAX_VARINT
  }

  lemma NamesParse(buf: Bytes, off: nat, names: seq<Bytes>)
    requires AreNames(names) && HasAt(buf, off, Joined(EncodeBytes, names)) && off + |Joined(EncodeBytes, names)| == |buf|
    ensures ParseNames(buf, off, []) == Ok(names)
  {
    var run: (nat, seq<Bytes>) -> Result<seq<Bytes>> := (o: nat, a: seq<Bytes>) => ParseNames(buf, o, a);
    var add: (seq<Bytes>, Bytes) -> seq<Bytes> := (a: seq<Bytes>, name: Bytes) => a + [name];
    forall o: nat, a, i | 0 <= i < |names| ensures ReadsItem(run, buf, |buf|, EncodeBytes, add, o, a, names[i]) {
      if HasAt(buf, o, EncodeBytes(names[i])) { StringRoundTrip(buf, o, names[i]); }
    }
    ReadsItems(run, buf, |buf|, EncodeBytes, add, off, [], names);
    FoldAppend(add, [], names);
    assert [] + names == names;
  }

  lemma UnsubscribeReads(version: nat, id: nat, part: Bytes, shown: Props, names: seq<Bytes>)
    requires id < U16 && ReadsBack(PropsReader(version, UNSUBSCRIBE), part, shown) && AreNames(names)
    ensures DecodeUnsubscribe(version, Uint16(id) + part + Joined(EncodeBytes, names)) == Ok(Unsubscribe(id, shown, names))
  {
    var head := Uint16(id) + part;
    var buf := head + Joined(EncodeBytes, names);
    Uint16Reads(id);
    BothReads(DecodeUint16, PropsReader(version, UNSUBSCRIBE), Uint16(id), part, id, shown);
    assert HasAt(buf, 0, head) && HasAt(buf, |head|, Joined(EncodeBytes, names));
    NamesParse(buf, |head|, names);
  }

  lemma UnsubscribeDecodes(version: nat, pk: Unsubscribe, mods: Mods)
    requires IsUnsubscribe(version, pk, mods)
    ensures DecodeUnsubscribe(version, UnsubscribeBody(version, pk, mods)) == Ok(SeenUnsubscribe(version, pk, mods))
  {
    PropsRead(version, pk.props, UNSUBSCRIBE, mods, UnsubscribeSize(pk));
    UnsubscribeReads(version, pk.id, UnsubscribeProps(version, pk, mods), SeenUnsubscribe(version, pk, mods).props, pk.filters);
  }

  // ---------------------------------------------------------------- CONNECT

  datatype Will = Will(qos: nat, retain: bool, props: Props, topic: Bytes, payload: Bytes)

  datatype Connect = Connect(
    protocol: Bytes, version: nat, clean: bool, keepalive: nat, props: Props, client: Bytes,
    willFlag: bool, will: Will, usernameFlag: bool, username: Bytes, passwordFlag: bool, password: Bytes)

  function FlagByte(clean: nat, will: nat, qos: nat, retain: nat, password: nat, username: nat): Byte
    requires clean < 2 && will < 2 && qos < 4 && retain < 2 && password < 2 && username < 2
  {
    clean * 2 + will * 4 + qos * 8 + retain * 32 + password * 64 + username * 128
  }

  datatype Flags = Flags(clean: bool, will: bool, willQos: nat, willRetain: bool, password: bool, username: bool)

  function FlagsOf(pk: Connect): Flags {
    Flags(pk.clean, pk.willFlag, pk.will.qos, pk.will.retain, pk.passwordFlag, pk.usernameFlag)
  }

  function FlagsByte(f: Flags): Byte {
    FlagByte(Bit(f.clean), Bit(f.will), f.willQos % 4, Bit(f.willRetain), Bit(f.password), Bit(f.username))
  }

  function ReadFlags(b: Byte): Flags {
    Flags(b / 2 % 2 == 1, b / 4 % 2 == 1, b / 8 % 4, b / 32 % 2 == 1, b / 64 % 2 == 1, b / 128 == 1)
  }

  lemma FlagByteBits(clean: nat, will: nat, qos: nat, retain: nat, password: nat, username: nat)
    requires clean < 2 && will < 2 && qos < 4 && retain < 2 && password < 2 && username < 2
    ensures ReadFlags(FlagByte(clean, will, qos, retain, password, username)) ==
              Flags(clean == 1, will == 1, qos, retain == 1, password == 1, username == 1)
  {
    var b: int := FlagByte(clean, will, qos, retain, password, username);
    assert b / 32 == retain + password * 2 + username * 4;
    assert b / 8 == qos + (b / 32) * 4;
    assert b / 2 == clean + will * 2 + (b / 8) * 4;
    assert b / 4 == will + (b / 8) * 2 && b / 64 == password + username * 2;
  }

  lemma FlagsRoundTrip(f: Flags)
    requires f.willQos < 4
    ensures ReadFlags(FlagsByte(f)) == f
  {
    assert f.willQos % 4 == f.willQos;
    FlagByteBits(Bit(f.clean), Bit(f.will), f.willQos, Bit(f.willRetain), Bit(f.password), Bit(f.username));
  }

  /** Section 3.1.2.3 of MQTT 5.0: the masks of the connect flags. */
  function ConnectMasks(or: (nat, nat) -> nat, f: Flags): nat {
    or(or(or(or(or(Mask(f.clean, 0x02), Mask(f.will, 0x04)), f.willQos * 0x08), Mask(f.willRetain, 0x20)),
       Mask(f.password, 0x40)), Mask(f.username, 0x80))
  }

  lemma FlagsMasks(f: Flags)
    requires f.willQos < 4
    ensures FlagsByte(f) == ConnectMasks(Or, f)
  {
    OrJoinsBits();
    FlagsJoined(Or, f);
  }

  lemma FlagsAdded(f: Flags)
    requires f.willQos < 4
    ensures FlagsByte(f) == Mask(f.clean, 0x02) + Mask(f.will, 0x04) + f.willQos * 0x08 + Mask(f.willRetain, 0x20)
                            + Mask(f.password, 0x40) + Mask(f.username, 0x80)
  {
    assert f.willQos % 4 == f.willQos;
  }

  lemma FlagsJoined(or: (nat, nat) -> nat, f: Flags)
    requires f.willQos < 4 && JoinsBits(or)
    ensures FlagsByte(f) == ConnectMasks(or, f)
  {
    FlagsAdded(f);
    var clean, will, retain := Mask(f.clean, 0x02), Mask(f.will, 0x04), Mask(f.willRetain, 0x20);
    WillJoined(or, clean, will, f.willQos);
    CredentialsJoined(or, clean + will + f.willQos * 0x08, retain, Mask(f.password, 0x40), Mask(f.username, 0x80));
  }

  lemma WillJoined(or: (nat, nat) -> nat, clean: nat, will: nat, qos: nat)
    requires JoinsBits(or) && (clean == 0 || clean == 2) && (will == 0 || will == 4) && qos < 4
    ensures or(or(clean, will), qos * 8) == clean + will + qos * 8
  {
    Apart4(clean, will);
    Apart8(clean + will, qos * 8);
  }

  lemma CredentialsJoined(or: (nat, nat) -> nat, low: nat, retain: nat, password: nat, username: nat)
    requires JoinsBits(or) && low < 32 && (retain == 0 || retain == 32) && (password == 0 || password == 64) && (username == 0 || username == 128)
    ensures or(or(or(low, retain), password), username) == low + retain + password + username
  {
    Apart32(low, retain);
    Apart64(low + retain, password);
    Apart128(low + retain + password, username);
  }

  /** Every byte is made of the masks of what is read from it and the reserved lowest bit. */
  lemma EveryFlagByte(b: Byte)
    ensures ReadFlags(b).willQos < 4 && b == b % 2 + ConnectMasks(Or, ReadFlags(b))
  {
    FlagSum(b);
    FlagsMasks(ReadFlags(b));
  }

  lemma FlagSum(b: Byte)
    ensures b == b % 2 + FlagsByte(ReadFlags(b))
  {
    LowDigits(b);
    HighDigits(b / 8);
    Shifted(b);
  }

  lemma Shifted(b: Byte)
    ensures b / 32 == b / 8 / 4 && b / 64 == b / 8 / 8 && b / 128 == b / 8 / 16 && b / 8 < 32 && b / 8 % 4 % 4 == b / 8 % 4
  {
  }

  lemma LowDigits(b: nat)
    ensures b == b % 2 + b / 2 % 2 * 2 + b / 4 % 2 * 4 + b / 8 * 8
  {
    Digit(b, 1, 2);
    Digit(b / 2, 2, 4);
    Digit(b / 4, 4, 8);
  }

  /** The lowest bit of `x`, and the rest above it. */
  lemma Digit(x: nat, weight: nat, above: nat)
    requires above == 2 * weight
    ensures x * weight == x % 2 * weight + x / 2 * above
  {
    assert x == x % 2 + 2 * (x / 2);
  }

  lemma HighDigits(x: nat)
    requires x < 32
    ensures x == x % 4 + x / 4 % 2 * 4 + x / 8 % 2 * 8 + x / 16 * 16 && x / 16 < 2
  {
  }

  /** Protocol name and version, flags and keepalive. */
  type Head = (Bytes, (Byte, (Flags, nat)))

  function ReadFlagByte(): Reader<Flags> { Mapped(DecodeByte, ReadFlags) }

  function HeadReader(): Reader<Head> { Both(DecodeBytes, Both(DecodeByte, Both(ReadFlagByte(), DecodeUint16))) }

  function HeadBytes(h: Head): Bytes { EncodeBytes(h.0) + ([h.1.0] + ([FlagsByte(h.1.1.0)] + Uint16(h.1.1.1))) }

  lemma HeadReads(h: Head)
    requires |h.0| < U16 && h.1.1.0.willQos < 4 && h.1.1.1 < U16
    ensures ReadsBack(HeadReader(), HeadBytes(h), h)
  {
    var (name, (version, (flags, keepalive))) := h;
    BytesReads(name);
    ByteReads(version);
    ByteReads(FlagsByte(flags));
    FlagsRoundTrip(flags);
    MappedReads(DecodeByte, ReadFlags, [FlagsByte(flags)], FlagsByte(flags));
    Uint16Reads(keepalive);
    BothReads(ReadFlagByte(), DecodeUint16, [FlagsByte(flags)], Uint16(keepalive), flags, keepalive);
    BothReads(DecodeByte, Both(ReadFlagByte(), DecodeUint16), [version], [FlagsByte(flags)] + Uint16(keepalive),
              version, (flags, keepalive));
    BothReads(DecodeBytes, Both(DecodeByte, Both(ReadFlagByte(), DecodeUint16)), EncodeBytes(name),
              [version] + ([FlagsByte(flags)] + Uint16(keepalive)), name, (version, (flags, keepalive)));
  }

  // The will and the credentials, each present when its flag is set.

  function MakeWill(flags: Flags): ((Props, (Bytes, Bytes))) -> Will {
    (w: (Props, (Bytes, Bytes))) => Will(flags.willQos, flags.willRetain, w.0, w.1.0, w.1.1)
  }

  function WillReader(version: nat, flags: Flags): Reader<Will> {
    if flags.will then Mapped(Both(PropsReader(version, WILL_PROPERTIES), Both(DecodeString, DecodeBytes)), MakeWill(flags))
    else Constant(Will(flags.willQos, flags.willRetain, EMPTY, [], []))
  }

  function WillPart(pk: Connect, mods: Mods): Bytes {
    if pk.willFlag
    then PropPart(pk.version, pk.will.props, WILL_PROPERTIES, mods, 0) + (EncodeBytes(pk.will.topic) + EncodeBytes(pk.will.payload))
    else []
  }

  function SeenWill(pk: Connect, mods: Mods): Will {
    if pk.willFlag
    then pk.will.(props := ShownProps(pk.version, pk.will.props, WILL_PROPERTIES, mods, 0))
    else Will(pk.will.qos, pk.will.retain, EMPTY, [], [])
  }

  lemma WillReads(pk: Connect, mods: Mods)
    requires IsShortText(pk.will.topic) && |pk.will.payload| < U16 && IsTyped(pk.will.props) && |WillPart(pk, mods)| <= MAX_VARINT
    ensures ReadsBack(WillReader(pk.version, FlagsOf(pk)), WillPart(pk, mods), SeenWill(pk, mods))
  {
    var flags := FlagsOf(pk);
    if pk.willFlag {
      var part, shown := PropPart(pk.version, pk.will.props, WILL_PROPERTIES, mods, 0), SeenWill(pk, mods).props;
      var topic, payload := EncodeBytes(pk.will.topic), EncodeBytes(pk.will.payload);
      PropsRead(pk.version, pk.will.props, WILL_PROPERTIES, mods, 0);
      StringReads(pk.will.topic);
      BytesReads(pk.will.payload);
      BothReads(DecodeString, DecodeBytes, topic, payload, pk.will.topic, pk.will.payload);
      var read := Both(PropsReader(pk.version, WILL_PROPERTIES), Both(DecodeString, DecodeBytes));
      BothReads(PropsReader(pk.version, WILL_PROPERTIES), Both(DecodeString, DecodeBytes), part, topic + payload,
                shown, (pk.will.topic, pk.will.payload));
      MappedReads(read, MakeWill(flags), part + (topic + payload), (shown, (pk.will.topic, pk.will.payload)));
    } else {
      ConstantReads(SeenWill(pk, mods));
    }
  }

  function Optional(flag: bool, val: Bytes): Bytes { if flag then EncodeBytes(val) else [] }
  function OptionalReader(flag: bool): Reader<Bytes> { if flag then DecodeBytes else Constant([]) }
  function SeenOptional(flag: bool, val: Bytes): Bytes { if flag then val else [] }

  lemma OptionalReads(flag: bool, val: Bytes)
    requires |val| < U16
    ensures ReadsBack(OptionalReader(flag), Optional(flag, val), SeenOptional(flag, val))
  {
    if flag { BytesReads(val); } else { ConstantReads(SeenOptional(flag, val)); }
  }

  /** Properties, client identifier, will, username and password. */
  type Tail = (Props, (Bytes, (Will, (Bytes, Bytes))))

  function TailReader(h: Head): Reader<Tail> {
    var (version, flags) := (h.1.0, h.1.1.0);
    Both(PropsReader(version, CONNECT), Both(DecodeString, Both(WillReader(version, flags),
      Both(OptionalReader(flags.username), OptionalReader(flags.password)))))
  }

  function HeadOf(pk: Connect): Head
    requires pk.version < 256
  {
    (pk.protocol, (pk.version, (FlagsOf(pk), pk.keepalive)))
  }

  function ConnectProps(pk: Connect, mods: Mods): Bytes { PropPart(pk.version, pk.props, CONNECT, mods, 0) }

  function TailBytes(pk: Connect, mods: Mods): Bytes {
    ConnectProps(pk, mods) + (EncodeBytes(pk.client) + (WillPart(pk, mods) +
      (Optional(pk.usernameFlag, pk.username) + Optional(pk.passwordFlag, pk.password))))
  }

  function ConnectBody(pk: Connect, mods: Mods): Bytes
    requires pk.version < 256
  {
    HeadBytes(HeadOf(pk)) + TailBytes(pk, mods)
  }

  function DecodeConnect(buf: Bytes): Result<Connect> {
    match Then(HeadReader(), TailReader)(buf, 0)
    case Err(e) => Err(e)
    case Ok(Parsed(((protocol, (version, (flags, keepalive))), (props, (client, (will, (username, password))))), _)) =>
      Ok(Connect(protocol, version, flags.clean, keepalive, props, client,
                 flags.will, will, flags.username, username, flags.password, password))
  }

  /** What a reader of a CONNECT sees: without their flags, will and credentials are gone. */
  function SeenConnect(pk: Connect, mods: Mods): Connect {
    pk.(props := ShownProps(pk.version, pk.props, CONNECT, mods, 0), will := SeenWill(pk, mods),
        username := SeenOptional(pk.usernameFlag, pk.username), password := SeenOptional(pk.passwordFlag, pk.password))
  }

  ghost predicate IsConnect(pk: Connect, mods: Mods) {
    && pk.version < 256 && pk.keepalive < U16 && |pk.protocol| < U16 && pk.will.qos < 4
    && IsShortText(pk.client) && IsShortText(pk.will.topic) && |pk.will.payload| < U16 && |pk.username| < U16 && |pk.password| < U16
    && IsTyped(pk.props) && IsTyped(pk.will.props) && |ConnectBody(pk, mods)| <= MAX_VARINT
  }

  function SeenTail(pk: Connect, mods: Mods): Tail {
    var seen := SeenConnect(pk, mods);
    (seen.props, (pk.client, (seen.will, (seen.username, seen.password))))
  }

  lemma CredentialsRead(pk: Connect)
    requires |pk.username| < U16 && |pk.password| < U16
    ensures ReadsBack(Both(OptionalReader(pk.usernameFlag), OptionalReader(pk.passwordFlag)),
                      Optional(pk.usernameFlag, pk.username) + Optional(pk.passwordFlag, pk.password),
                      (SeenOptional(pk.usernameFlag, pk.username), SeenOptional(pk.passwordFlag, pk.password)))
  {
    OptionalReads(pk.usernameFlag, pk.username);
    OptionalReads(pk.passwordFlag, pk.password);
    BothReads(OptionalReader(pk.usernameFlag), OptionalReader(pk.passwordFlag),
              Optional(pk.usernameFlag, pk.username), Optional(pk.passwordFlag, pk.password),
              SeenOptional(pk.usernameFlag, pk.username), SeenOptional(pk.passwordFlag, pk.password));
  }

  lemma TailReads(pk: Connect, mods: Mods)
    requires IsConnect(pk, mods)
    ensures ReadsBack(TailReader(HeadOf(pk)), TailBytes(pk, mods), SeenTail(pk, mods))
  {
    var flags, seen := FlagsOf(pk), SeenConnect(pk, mods);
    var last := Both(OptionalReader(pk.usernameFlag), OptionalReader(pk.passwordFlag));
    var lastPart := Optional(pk.usernameFlag, pk.username) + Optional(pk.passwordFlag, pk.password);
    var credentials := (seen.username, seen.password);
    var will := WillReader(pk.version, flags);
    PropsRead(pk.version, pk.props, CONNECT, mods, 0);
    StringReads(pk.client);
    WillReads(pk, mods);
    CredentialsRead(pk);
    BothReads(will, last, WillPart(pk, mods), lastPart, seen.will, credentials);
    BothReads(DecodeString, Both(will, last), EncodeBytes(pk.client), WillPart(pk, mods) + lastPart, pk.client, (seen.will, credentials));
    BothReads(PropsReader(pk.version, CONNECT), Both(DecodeString, Both(will, last)), ConnectProps(pk, mods),
              EncodeBytes(pk.client) + (WillPart(pk, mods) + lastPart), seen.props, (pk.client, (seen.will, credentials)));
  }

  lemma ConnectDecodes(pk: Connect, mods: Mods)
    requires IsConnect(pk, mods)
    ensures DecodeConnect(ConnectBody(pk, mods)) == Ok(SeenConnect(pk, mods))
  {
    var h, buf := HeadOf(pk), ConnectBody(pk, mods);
    HeadReads(h);
    TailReads(pk, mods);
    ThenReads(HeadReader(), TailReader, HeadBytes(h), TailBytes(pk, mods), h, SeenTail(pk, mods));
    assert HasAt(buf, 0, buf);
  }

  /** A CONNECT comes back whole exactly when its properties do and what is there has its flag. */
  lemma ConnectIsSeen(pk: Connect, mods: Mods)
    ensures SeenConnect(pk, mods) == pk <==>
              && AllShown(pk.version, pk.props, CONNECT, mods, 0)
              && (if pk.willFlag then AllShown(pk.version, pk.will.props, WILL_PROPERTIES, mods, 0)
                  else pk.will.props == EMPTY && pk.will.topic == [] && pk.will.payload == [])
              && (pk.usernameFlag || pk.username == []) && (pk.passwordFlag || pk.password == [])
  {
    ShownIsAll(pk.version, pk.props, CONNECT, mods, 0);
    ShownIsAll(pk.version, pk.will.props, WILL_PROPERTIES, mods, 0);
  }

  // ---------------------------------------------------------------- whole packets

  datatype Packet =
    | OfConnect(connect: Connect) | OfPublish(publish: Publish) | OfAck(ack: Ack)
    | OfSubscribe(subscribe: Subscribe) | OfUnsubscribe(unsubscribe: Unsubscribe)

  /** A packet of these types from the front of the input, for a client of the given version. */
  function DecodePacket(version: nat, buf: Bytes): Result<Parsed<Packet>> {
    match Unframe(buf)
    case Err(e) => Err(e)
    case Ok(Framed(h, body, next)) =>
      if h.kind == CONNECT then
        (match DecodeConnect(body) case Err(e) => Err(e) case Ok(pk) => Ok(Parsed(OfConnect(pk), next)))
      else if h.kind == PUBLISH then
        (match DecodePublish(version, h, body) case Err(e) => Err(e) case Ok(pk) => Ok(Parsed(OfPublish(pk), next)))
      else if IsAckKind(h.kind) then
        (match DecodeAck(version, h, body) case Err(e) => Err(e) case Ok(pk) => Ok(Parsed(OfAck(pk), next)))
      else if h.kind == SUBSCRIBE then
        (match DecodeSubscribe(version, body) case Err(e) => Err(e) case Ok(pk) => Ok(Parsed(OfSubscribe(pk), next)))
      else if h.kind == UNSUBSCRIBE then
        (match DecodeUnsubscribe(version, body) case Err(e) => Err(e) case Ok(pk) => Ok(Parsed(OfUnsubscribe(pk), next)))
      else Err(Unsupported)
  }

  // Each packet, header and remaining length included and whatever follows it, is read as what
  // is visible of it, which is all of it exactly when its properties are canonical.

  lemma PublishRoundTrip(version: nat, pk: Publish, mods: Mods, rest: Bytes)
    requires IsPublish(version, pk, mods)
    ensures var sent := EncodePublish(version, pk, mods);
            && sent.Ok?
            && DecodePacket(version, sent.value + rest) == Ok(Parsed(OfPublish(SeenPublish(version, pk, mods)), |sent.value|))
            && (SeenPublish(version, pk, mods) == pk <==> AllShown(version, pk.props, PUBLISH, mods, PublishSize(pk)))
  {
    FrameRoundTrip(Header(PUBLISH, pk.dup, pk.qos, pk.retain), PublishBody(version, pk, mods), rest);
    PublishDecodes(version, pk, mods);
    ShownIsAll(version, pk.props, PUBLISH, mods, PublishSize(pk));
  }

  lemma AckRoundTrip(version: nat, pk: Ack, mods: Mods, rest: Bytes)
    requires IsAck(version, pk, mods)
    ensures var sent := EncodeAck(version, pk, mods);
            DecodePacket(version, sent + rest) == Ok(Parsed(OfAck(SeenAck(version, pk, mods)), |sent|))
  {
    FrameRoundTrip(AckHeader(pk.kind), AckBody(version, pk, mods), rest);
    AckDecodes(version, pk, mods);
  }

  lemma SubscribeRoundTrip(version: nat, pk: Subscribe, mods: Mods, rest: Bytes)
    requires IsSubscribe(version, pk, mods)
    ensures var sent := EncodeSubscribe(version, pk, mods);
            && sent.Ok?
            && DecodePacket(version, sent.value + rest) == Ok(Parsed(OfSubscribe(SeenSubscribe(version, pk, mods)), |sent.value|))
            && (SeenSubscribe(version, pk, mods) == pk <==> AllShown(version, pk.props, SUBSCRIBE, mods, SubscribeSize(version, pk)))
  {
    FrameRoundTrip(Header(SUBSCRIBE, false, 1, false), SubscribeBody(version, pk, mods), rest);
    SubscribeDecodes(version, pk, mods);
    ShownIsAll(version, pk.props, SUBSCRIBE, mods, SubscribeSize(version, pk));
  }

  lemma UnsubscribeRoundTrip(version: nat, pk: Unsubscribe, mods: Mods, rest: Bytes)
    requires IsUnsubscribe(version, pk, mods)
    ensures var sent := EncodeUnsubscribe(version, pk, mods);
            && sent.Ok?
            && DecodePacket(version, sent.value + rest) == Ok(Parsed(OfUnsubscribe(SeenUnsubscribe(version, pk, mods)), |sent.value|))
            && (SeenUnsubscribe(version, pk, mods) == pk <==> AllShown(version, pk.props, UNSUBSCRIBE, mods, UnsubscribeSize(pk)))
  {
    FrameRoundTrip(Header(UNSUBSCRIBE, false, 1, false), UnsubscribeBody(version, pk, mods), rest);
    UnsubscribeDecodes(version, pk, mods);
    ShownIsAll(version, pk.props, UNSUBSCRIBE, mods, UnsubscribeSize(pk));
  }

  function EncodeConnect(pk: Connect, mods: Mods): Bytes
    requires pk.version < 256
  {
    Frame(Header(CONNECT, false, 0, false), ConnectBody(pk, mods))
  }

  lemma ConnectRoundTrip(version: nat, pk: Connect, mods: Mods, rest: Bytes)
    requires IsConnect(pk, mods)
    ensures var sent := EncodeConnect(pk, mods);
            DecodePacket(version, sent + rest) == Ok(Parsed(OfConnect(SeenConnect(pk, mods)), |sent|))
  {
    FrameRoundTrip(Header(CONNECT, false, 0, false), ConnectBody(pk, mods), rest);
    ConnectDecodes(pk, mods);
  }

  // ---------------------------------------------------------------- against the standard's layout

  /** Two bytes, the higher first. */
  function Two(v: nat): Bytes
    requires v < 0x1_0000
  {
    [v / 256, v % 256]
  }

  /** Text or data behind its length (sections 1.5.4 and 1.5.6 of MQTT 5.0). */
  function Prefixed(val: Bytes): Bytes
    requires |val| < 0x1_0000
  {
    Two(|val|) + val
  }

  lemma EncodedAsPrefixed(val: Bytes)
    requires |val| < 0x1_0000
    ensures EncodeBytes(val) == Prefixed(val)
  {
    Uint16Bytes(|val|);
  }

  /** Only a packet that needs an identifier and has none cannot be encoded. */
  lemma EncodingFails(version: nat, pub: Publish, sub: Subscribe, unsub: Unsubscribe, mods: Mods)
    requires pub.qos < 4
    ensures EncodePublish(version, pub, mods).Err? <==> pub.qos > 0 && pub.id == 0
    ensures EncodeSubscribe(version, sub, mods).Err? <==> sub.id == 0
    ensures EncodeUnsubscribe(version, unsub, mods).Err? <==> unsub.id == 0
  {
  }

  /** Section 3.3: topic, packet identifier above QoS 0, properties and payload. */
  lemma PublishLayout(version: nat, pk: Publish, mods: Mods)
    requires IsPublish(version, pk, mods)
    ensures var props := PropPart(version, pk.props, 3, mods, PublishSize(pk));
            var body := Prefixed(pk.topic) + ((if pk.qos > 0 then Two(pk.id) else []) + props) + pk.payload;
            EncodePublish(version, pk, mods) ==
              Ok([0x30 + Mask(pk.dup, 0x08) + pk.qos * 2 + Mask(pk.retain, 0x01)] + Varint(|body|) + body)
  {
    EncodedAsPrefixed(pk.topic);
    Uint16Bytes(pk.id);
  }

  /** Sections 3.4 to 3.7: packet identifier, reason and properties. */
  lemma AckLayout(version: nat, pk: Ack, mods: Mods)
    requires IsAck(version, pk, mods)
    ensures var props := Encoded(pk.props, pk.kind, mods, 2);
            var reason: Bytes := if version == 5 && (pk.reason >= 0x80 || |props| > 1) then [pk.reason] else [];
            var body := Two(pk.id) + (reason + (if version == 5 && |props| > 1 then props else []));
            EncodeAck(version, pk, mods) == [pk.kind * 16 + (if pk.kind == 6 then 2 else 0)] + Varint(|body|) + body
  {
    Uint16Bytes(pk.id);
    var props: Bytes, none: Bytes := Encoded(pk.props, pk.kind, mods, 2), [];
    assert [pk.reason] + none == [pk.reason] && none + none == none;
  }

  /** Section 3.8: packet identifier, properties, and each filter with its options. */
  lemma SubscribeLayout(version: nat, pk: Subscribe, mods: Mods)
    requires IsSubscribe(version, pk, mods)
    ensures var props := PropPart(version, pk.props, 8, mods, SubscribeSize(version, pk));
            var body := Two(pk.id) + props + FiltersBytes(version, pk.filters);
            EncodeSubscribe(version, pk, mods) == Ok([0x82] + Varint(|body|) + body)
  {
    Uint16Bytes(pk.id);
  }

  lemma FilterLayout(version: nat, f: Filter, identifier: nat)
    requires IsFilter(version, f, identifier)
    ensures FilterField(version, f) == Prefixed(f.name) + [OptionByte(version, f)]
  {
    EncodedAsPrefixed(f.name);
  }

  /** Section 3.10: packet identifier, properties and each filter. */
  lemma UnsubscribeLayout(version: nat, pk: Unsubscribe, mods: Mods)
    requires IsUnsubscribe(version, pk, mods)
    ensures var props := PropPart(version, pk.props, 10, mods, UnsubscribeSize(pk));
            var body := Two(pk.id) + props + Joined(EncodeBytes, pk.filters);
            EncodeUnsubscribe(version, pk, mods) == Ok([0xA2] + Varint(|body|) + body)
  {
    Uint16Bytes(pk.id);
  }

  /** Section 3.1: protocol name and version, flags, keep alive and properties, then the client
      identifier, the will's properties, topic and payload, the user name and the password. */
  lemma ConnectLayout(pk: Connect, mods: Mods)
    requires IsConnect(pk, mods)
    ensures var head := Prefixed(pk.protocol) + ([pk.version] + ([FlagsByte(FlagsOf(pk))] + Two(pk.keepalive)));
            var will := if pk.willFlag
              then PropPart(pk.version, pk.will.props, 99, mods, 0) + (Prefixed(pk.will.topic) + Prefixed(pk.will.payload))
              else [];
            var credentials := (if pk.usernameFlag then Prefixed(pk.username) else [])
                               + (if pk.passwordFlag then Prefixed(pk.password) else []);
            var body := head + (PropPart(pk.version, pk.props, 1, mods, 0) + (Prefixed(pk.client) + (will + credentials)));
            EncodeConnect(pk, mods) == [0x10] + Varint(|body|) + body
  {
    EncodedAsPrefixed(pk.protocol);
    EncodedAsPrefixed(pk.client);
    EncodedAsPrefixed(pk.will.topic);
    EncodedAsPrefixed(pk.will.payload);
    EncodedAsPrefixed(pk.username);
    EncodedAsPrefixed(pk.password);
    Uint16Bytes(pk.keepalive);
  }
}
