/** Version 5 properties (packets/properties.go; section 2.2.2 of MQTT 5.0). The record's
    fields are slots indexed by property identifier. */
module Properties {
  import opened Wire
  import opened Headers

  // ---------------------------------------------------------------- the property table

  /** Property identifiers in the order they are written. */
  const ORDER: Bytes := [1, 2, 3, 8, 9, 11, 17, 18, 19, 21, 22, 23, 24, 25, 26, 28, 31, 33, 34, 35, 36, 37, 38, 39, 40, 41, 42]

  const RESPONSE_TOPIC := 8
  const CORRELATION_DATA := 9
  const SUBSCRIPTION_ID := 11
  const RESPONSE_INFO := 26
  const REASON_STRING := 31
  const TOPIC_ALIAS := 35
  const MAXIMUM_QOS := 36
  const USER := 38

  datatype Kind = OneByte | TwoBytes | FourBytes | Text | Binary | VarInts | Pairs | Unknown

  function KindOf(id: nat): Kind {
    if id == 1 || id == 23 || id == 25 || id == 36 || id == 37 || 40 <= id <= 42 then OneByte
    else if id == 19 || 33 <= id <= 35 then TwoBytes
    else if id == 2 || id == 17 || id == 24 || id == 39 then FourBytes
    else if id == 3 || id == 8 || id == 18 || id == 21 || id == 26 || id == 28 || id == 31 then Text
    else if id == 9 || id == 22 then Binary
    else if id == SUBSCRIPTION_ID then VarInts
    else if id == USER then Pairs
    else Unknown
  }

  predicate IsNumber(id: nat) { KindOf(id).OneByte? || KindOf(id).TwoBytes? || KindOf(id).FourBytes? }
  predicate IsText(id: nat) { KindOf(id).Text? || KindOf(id).Binary? }

  /** Numbers for which 0 is a value, so that a flag says whether they are present. */
  predicate IsFlagged(id: nat) {
    id == 1 || id == 17 || id == 19 || id == 23 || 35 <= id <= 37 || 40 <= id <= 42
  }

  /** `validPacketProperties`. */
  predicate IsAllowed(id: nat, pkt: nat) {
    if 1 <= id <= 3 || id == 8 || id == 9 then pkt == PUBLISH || pkt == WILL_PROPERTIES
    else if id == 11 then pkt == PUBLISH || pkt == SUBSCRIBE
    else if id == 17 then pkt == CONNECT || pkt == CONNACK || pkt == DISCONNECT
    else if id == 18 || id == 19 || id == 26 || id == 36 || id == 37 || 40 <= id <= 42 then pkt == CONNACK
    else if id == 21 || id == 22 then pkt == CONNECT || pkt == CONNACK || pkt == AUTH
    else if id == 23 || id == 25 then pkt == CONNECT
    else if id == 24 then pkt == WILL_PROPERTIES
    else if id == 28 then pkt == CONNACK || pkt == DISCONNECT
    else if id == 31 then
      pkt == CONNACK || PUBACK <= pkt <= PUBCOMP || pkt == SUBACK || pkt == UNSUBACK || pkt == DISCONNECT || pkt == AUTH
    else if id == 33 || id == 34 || id == 39 then pkt == CONNECT || pkt == CONNACK
    else if id == 35 then pkt == PUBLISH
    else id == 38 && (CONNECT <= pkt <= UNSUBACK || pkt == DISCONNECT || pkt == AUTH || pkt == WILL_PROPERTIES)
  }

  /** The fields by property identifier: a number is present when its flag is set or, without a
      flag, when it is not 0; a text when it is not empty. */
  datatype Props = Props(nums: map<nat, nat>, texts: map<nat, Bytes>, subIDs: seq<nat>, users: seq<(Bytes, Bytes)>)

  const EMPTY := Props(map[], map[], [], [])

  datatype Mods = Mods(maxSize: nat, disallowProblemInfo: bool, allowResponseInfo: bool)

  // ---------------------------------------------------------------- encoding

  /** Optional text is written only while the packet stays below the client's maximum size. */
  predicate FitsIn(mods: Mods, n: nat, size: nat) { mods.maxSize == 0 || (n + size + 1) % U32 < mods.maxSize }

  predicate LacksWildcards(text: Bytes) { forall b <- text :: b != '+' as int && b != '#' as int }

  predicate EmitsNumber(p: Props, id: nat) {
    && id in p.nums && (IsFlagged(id) || p.nums[id] > 0)
    && (id == TOPIC_ALIAS ==> p.nums[id] > 0) && (id == MAXIMUM_QOS ==> p.nums[id] < 2)
  }

  predicate EmitsText(p: Props, mods: Mods, n: nat, id: nat) {
    && id in p.texts && p.texts[id] != []
    && (id == RESPONSE_TOPIC || id == CORRELATION_DATA || id == RESPONSE_INFO ==> mods.allowResponseInfo)
    && (id == RESPONSE_TOPIC ==> LacksWildcards(p.texts[id]))
    && (id == REASON_STRING ==> !mods.disallowProblemInfo && FitsIn(mods, n, |EncodeBytes(p.texts[id])|))
  }

  predicate WritesNumber(p: Props, pkt: nat, id: nat) { IsNumber(id) && IsAllowed(id, pkt) && EmitsNumber(p, id) }
  predicate WritesText(p: Props, pkt: nat, mods: Mods, n: nat, id: nat) {
    IsText(id) && IsAllowed(id, pkt) && EmitsText(p, mods, n, id)
  }

  function Number(kind: Kind, v: nat): Bytes {
    match kind
    case OneByte => [v % 256]
    case TwoBytes => Uint16(v)
    case _ => Uint32(v)
  }

  function IDField(id: nat): Bytes { if id > 0 then [SUBSCRIPTION_ID] + Varint(id) else [] }
  function UserField(u: (Bytes, Bytes)): Bytes { [USER] + (EncodeBytes(u.0) + EncodeBytes(u.1)) }

  function IDBytes(ids: seq<nat>): Bytes { Joined(IDField, ids) }
  function UserBytes(users: seq<(Bytes, Bytes)>): Bytes { Joined(UserField, users) }

  predicate EmitsUsers(p: Props, pkt: nat, mods: Mods, n: nat) {
    !mods.disallowProblemInfo && IsAllowed(USER, pkt) && FitsIn(mods, n, |UserBytes(p.users)|)
  }

  /** What of a record is written. */
  datatype Choice = Choice(numbers: set<nat>, texts: set<nat>, ids: bool, users: bool)

  function ChoiceOf(p: Props, pkt: nat, mods: Mods, n: nat): Choice {
    Choice((set id | id in p.nums && WritesNumber(p, pkt, id)), (set id | id in p.texts && WritesText(p, pkt, mods, n, id)),
           IsAllowed(SUBSCRIPTION_ID, pkt), EmitsUsers(p, pkt, mods, n))
  }

  /** What is written for one property identifier. */
  function FieldBytes(p: Props, c: Choice, id: Byte): Bytes {
    if id == SUBSCRIPTION_ID then if c.ids then IDBytes(p.subIDs) else []
    else if id == USER then if c.users then UserBytes(p.users) else []
    else if id in c.numbers && id in p.nums then [id] + Number(KindOf(id), p.nums[id])
    else if id in c.texts && id in p.texts then [id] + EncodeBytes(p.texts[id])
    else []
  }

  function Fields(p: Props, c: Choice, order: Bytes): Bytes {
    if order == [] then [] else Fields(p, c, order[..|order| - 1]) + FieldBytes(p, c, order[|order| - 1])
  }

  function Body(p: Props, pkt: nat, mods: Mods, n: nat): Bytes { Fields(p, ChoiceOf(p, pkt, mods, n), ORDER) }

  function Encoded(p: Props, pkt: nat, mods: Mods, n: nat): Bytes {
    Varint(|Body(p, pkt, mods, n)|) + Body(p, pkt, mods, n)
  }

  // ---------------------------------------------------------------- decoding

  function SetNumber(p: Props, id: nat, v: nat): Props {
    Props(if IsFlagged(id) || v > 0 then p.nums[id := v] else p.nums - {id}, p.texts, p.subIDs, p.users)
  }

  function SetText(p: Props, id: nat, text: Bytes): Props {
    Props(p.nums, if text != [] then p.texts[id := text] else p.texts - {id}, p.subIDs, p.users)
  }

  function AddIDs(p: Props, ids: seq<nat>): Props { Props(p.nums, p.texts, p.subIDs + ids, p.users) }
  function AddUsers(p: Props, us: seq<(Bytes, Bytes)>): Props { Props(p.nums, p.texts, p.subIDs, p.users + us) }

  /** Reads the value that follows an identifier. */
  function ParseValue(bt: Bytes, off: nat, p: Props, id: nat): (r: Result<Parsed<Props>>)
    ensures r.Ok? ==> r.value.next >= off
  {
    match KindOf(id)
    case OneByte =>
      (match DecodeByte(bt, off) case Err(e) => Err(e) case Ok(r) => Ok(Parsed(SetNumber(p, id, r.value), r.next)))
    case TwoBytes =>
      (match DecodeUint16(bt, off) case Err(e) => Err(e) case Ok(r) => Ok(Parsed(SetNumber(p, id, r.value), r.next)))
    case FourBytes =>
      (match DecodeUint32(bt, off) case Err(e) => Err(e) case Ok(r) => Ok(Parsed(SetNumber(p, id, r.value), r.next)))
    case Text =>
      (match DecodeString(bt, off) case Err(e) => Err(e) case Ok(r) => Ok(Parsed(SetText(p, id, r.value), r.next)))
    case Binary =>
      (match DecodeBytes(bt, off) case Err(e) => Err(e) case Ok(r) => Ok(Parsed(SetText(p, id, r.value), r.next)))
    case VarInts =>
      (match LengthFrom(bt, off, 0, 1, 1)
       case Err(e) => Err(e)
       case Ok(Length(v, bu)) => Ok(Parsed(AddIDs(p, [v]), off + bu)))
    case Pairs =>
      (match DecodeString(bt, off)
       case Err(e) => Err(e)
       case Ok(k) =>
         match DecodeString(bt, k.next)
         case Err(e) => Err(e)
         case Ok(v) => Ok(Parsed(AddUsers(p, [(k.value, v.value)]), v.next)))
    case Unknown => Ok(Parsed(p, off))
  }

  /** The decoder's loop, from `off` until `n` bytes have been read. */
  function ParseAll(pkt: nat, bt: Bytes, off: nat, n: nat, p: Props): Result<Props>
    decreases |bt| - off, 2
  {
    if off >= n then Ok(p) else ParseField(pkt, bt, off, n, p)
  }

  /** One field: an identifier that the packet type allows, then its value. */
  function ParseField(pkt: nat, bt: Bytes, off: nat, n: nat, p: Props): Result<Props>
    decreases |bt| - off, 1
  {
    if off >= |bt| then Err(EndOfInput)
    else if !IsAllowed(bt[off], pkt) then Err(Unsupported)
    else ParseRest(pkt, bt, off, n, p)
  }

  function ParseRest(pkt: nat, bt: Bytes, off: nat, n: nat, p: Props): Result<Props>
    requires off < |bt| && IsAllowed(bt[off], pkt)
    decreases |bt| - off, 0
  {
    match ParseValue(bt, off + 1, p, bt[off])
    case Err(e) => Err(e)
    case Ok(r) => ParseAll(pkt, bt, r.next, n, r.value)
  }

  lemma ValueWithin(bt: Bytes, off: nat, p: Props, id: nat)
    requires off <= |bt|
    ensures ParseValue(bt, off, p, id).Ok? ==> ParseValue(bt, off, p, id).value.next <= |bt|
  {
    LengthWithin(bt, off, 0, 1, 1);
  }

  /** The loop ends within the input. */
  lemma {:induction false} ParseWithin(pkt: nat, bt: Bytes, off: nat, n: nat, p: Props)
    requires off <= |bt|
    ensures ParseAll(pkt, bt, off, n, p).Ok? ==> n <= |bt|
    decreases |bt| - off
  {
    if off < n {
      if off >= |bt| || !IsAllowed(bt[off], pkt) {
        assert ParseField(pkt, bt, off, n, p).Err?;
      } else {
        var r := ParseValue(bt, off + 1, p, bt[off]);
        if r.Ok? {
          ValueWithin(bt, off + 1, p, bt[off]);
          FieldStep(pkt, bt, off, n, p, bt[off], r.value);
          ParseWithin(pkt, bt, r.value.next, n, r.value.value);
        } else {
          assert ParseRest(pkt, bt, off, n, p).Err?;
          assert ParseField(pkt, bt, off, n, p).Err?;
        }
      }
    }
  }

  function Decoded(pkt: nat, buf: Bytes): Result<Parsed<Props>> {
    LengthWithin(buf, 0, 0, 1, 1);
    match LengthFrom(buf, 0, 0, 1, 1)
    case Err(e) => Err(e)
    case Ok(Length(n, bu)) =>
      if n == 0 then Ok(Parsed(EMPTY, bu))
      else
        match ParseAll(pkt, buf[bu..], 0, n, EMPTY)
        case Err(e) => Err(e)
        case Ok(p) => Ok(Parsed(p, n + bu))
  }

  lemma DecodedWithin(pkt: nat, buf: Bytes)
    ensures Decoded(pkt, buf).Ok? ==> Decoded(pkt, buf).value.next <= |buf|
  {
    LengthWithin(buf, 0, 0, 1, 1);
    var r := LengthFrom(buf, 0, 0, 1, 1);
    if r.Ok? { ParseWithin(pkt, buf[r.value.bytes..], 0, r.value.n, EMPTY); }
  }

  // ---------------------------------------------------------------- what comes back

  predicate IsShortText(text: Bytes) { |text| < U16 && IsValidText(text) }

  predicate IsTypedNumber(kind: Kind, v: nat) {
    match kind case OneByte => v < 256 case TwoBytes => v < U16 case _ => v < U32
  }

  predicate IsTypedText(kind: Kind, text: Bytes) { |text| < U16 && (kind == Text ==> IsValidText(text)) }

  ghost predicate AreIDs(ids: seq<nat>) { forall i :: 0 <= i < |ids| ==> ids[i] <= MAX_VARINT }

  ghost predicate AreUsers(users: seq<(Bytes, Bytes)>) {
    forall i :: 0 <= i < |users| ==> IsShortText(users[i].0) && IsShortText(users[i].1)
  }

  /** Field values of the widths and lengths that their types allow. */
  ghost predicate IsTyped(p: Props) {
    && (forall id <- p.nums :: IsTypedNumber(KindOf(id), p.nums[id]))
    && (forall id <- p.texts :: IsTypedText(KindOf(id), p.texts[id]))
    && AreIDs(p.subIDs) && AreUsers(p.users)
  }

  function Positive(ids: seq<nat>): seq<nat> {
    if ids == [] then [] else (if ids[0] > 0 then [ids[0]] else []) + Positive(ids[1..])
  }

  /** What has been read once the fields of the identifiers `done` have been. */
  function Gathered(p: Props, c: Choice, done: set<nat>): Props {
    Props(map id | id in p.nums && id in c.numbers && id in done :: p.nums[id],
          map id | id in p.texts && id in c.texts && id in done :: p.texts[id],
          if c.ids && SUBSCRIPTION_ID in done then Positive(p.subIDs) else [],
          if c.users && USER in done then p.users else [])
  }

  /** The part of `p` that is written. */
  function Shown(p: Props, c: Choice): Props {
    Props(map id | id in p.nums && id in c.numbers :: p.nums[id],
          map id | id in p.texts && id in c.texts :: p.texts[id],
          if c.ids then Positive(p.subIDs) else [],
          if c.users then p.users else [])
  }

  function Visible(p: Props, pkt: nat, mods: Mods, n: nat): Props { Shown(p, ChoiceOf(p, pkt, mods, n)) }

  /** The choice is one the packet allows, of fields that can be read back. */
  ghost predicate IsSound(c: Choice, p: Props, pkt: nat) {
    && (forall id <- c.numbers :: WritesNumber(p, pkt, id) && IsTypedNumber(KindOf(id), p.nums[id]))
    && (forall id <- c.texts ::
          IsText(id) && IsAllowed(id, pkt) && id in p.texts && p.texts[id] != [] && IsTypedText(KindOf(id), p.texts[id]))
    && (c.ids ==> IsAllowed(SUBSCRIPTION_ID, pkt) && AreIDs(p.subIDs)) && (c.users ==> IsAllowed(USER, pkt) && AreUsers(p.users))
  }

  lemma ChoiceIsSound(p: Props, pkt: nat, mods: Mods, n: nat)
    requires IsTyped(p)
    ensures IsSound(ChoiceOf(p, pkt, mods, n), p, pkt)
  {
  }

  lemma NumberParses(bt: Bytes, off: nat, acc: Props, id: nat, v: nat)
    requires IsNumber(id) && IsTypedNumber(KindOf(id), v) && HasAt(bt, off, Number(KindOf(id), v))
    ensures ParseValue(bt, off, acc, id) == Ok(Parsed(SetNumber(acc, id, v), off + |Number(KindOf(id), v)|))
  {
    match KindOf(id)
    case OneByte =>
      assert Number(OneByte, v) == [v] + [];
      HasByte(bt, off, v, []);
    case TwoBytes =>
      Uint16RoundTrip(bt, off, v);
    case FourBytes =>
      Uint32RoundTrip(bt, off, v);
  }

  lemma TextParses(bt: Bytes, off: nat, acc: Props, id: nat, text: Bytes)
    requires IsText(id) && IsTypedText(KindOf(id), text) && HasAt(bt, off, EncodeBytes(text))
    ensures ParseValue(bt, off, acc, id) == Ok(Parsed(SetText(acc, id, text), off + |EncodeBytes(text)|))
  {
    BytesRoundTrip(bt, off, text);
  }

  lemma FieldStep(pkt: nat, bt: Bytes, off: nat, n: nat, acc: Props, id: nat, r: Parsed<Props>)
    requires off < n && off < |bt| && bt[off] == id && IsAllowed(id, pkt) && ParseValue(bt, off + 1, acc, id) == Ok(r)
    ensures ParseAll(pkt, bt, off, n, acc) == ParseAll(pkt, bt, r.next, n, r.value)
  {
    assert ParseRest(pkt, bt, off, n, acc) == ParseAll(pkt, bt, r.next, n, r.value);
    assert ParseField(pkt, bt, off, n, acc) == ParseRest(pkt, bt, off, n, acc);
  }

  function AddPositive(acc: Props, id: nat): Props { if id > 0 then AddIDs(acc, [id]) else acc }
  function AddUser(acc: Props, u: (Bytes, Bytes)): Props { AddUsers(acc, [u]) }

  lemma {:induction false} FoldIDs(acc: Props, ids: seq<nat>)
    ensures Fold(AddPositive, acc, ids) == AddIDs(acc, Positive(ids))
    decreases |ids|
  {
    if ids == [] {
      assert acc.subIDs + [] == acc.subIDs;
    } else {
      var rest := Positive(ids[1..]);
      FoldIDs(AddPositive(acc, ids[0]), ids[1..]);
      if ids[0] > 0 {
        assert Positive(ids) == [ids[0]] + rest;
        assert acc.subIDs + [ids[0]] + rest == acc.subIDs + ([ids[0]] + rest);
      } else {
        assert Positive(ids) == rest;
      }
    }
  }

  lemma {:induction false} FoldUsers(acc: Props, users: seq<(Bytes, Bytes)>)
    ensures Fold(AddUser, acc, users) == AddUsers(acc, users)
    decreases |users|
  {
    if users == [] {
      assert acc.users + [] == acc.users;
    } else {
      FoldUsers(AddUser(acc, users[0]), users[1..]);
      assert acc.users + [users[0]] + users[1..] == acc.users + users;
    }
  }

  lemma IDParses(pkt: nat, bt: Bytes, off: nat, n: nat, acc: Props, id: nat)
    requires IsAllowed(SUBSCRIPTION_ID, pkt) && id <= MAX_VARINT && HasAt(bt, off, IDField(id)) && off + |IDField(id)| <= n
    ensures ParseAll(pkt, bt, off, n, acc) == ParseAll(pkt, bt, off + |IDField(id)|, n, AddPositive(acc, id))
  {
    if id > 0 {
      HasByte(bt, off, SUBSCRIPTION_ID, Varint(id));
      VarintDecodes(bt, off + 1, id);
      FieldStep(pkt, bt, off, n, acc, SUBSCRIPTION_ID, Parsed(AddIDs(acc, [id]), off + 1 + |Varint(id)|));
    }
  }

  lemma IDsParse(pkt: nat, bt: Bytes, off: nat, n: nat, acc: Props, ids: seq<nat>)
    requires IsAllowed(SUBSCRIPTION_ID, pkt) && HasAt(bt, off, IDBytes(ids)) && off + |IDBytes(ids)| <= n && AreIDs(ids)
    ensures ParseAll(pkt, bt, off, n, acc) == ParseAll(pkt, bt, off + |IDBytes(ids)|, n, AddIDs(acc, Positive(ids)))
  {
    var run: (nat, Props) -> Result<Props> := (o: nat, a: Props) => ParseAll(pkt, bt, o, n, a);
    forall o: nat, a, i | 0 <= i < |ids| ensures ReadsItem(run, bt, n, IDField, AddPositive, o, a, ids[i]) {
      if HasAt(bt, o, IDField(ids[i])) && o + |IDField(ids[i])| <= n { IDParses(pkt, bt, o, n, a, ids[i]); }
    }
    ReadsItems(run, bt, n, IDField, AddPositive, off, acc, ids);
    FoldIDs(acc, ids);
  }

  lemma PairParses(bt: Bytes, off: nat, acc: Props, u: (Bytes, Bytes))
    requires IsShortText(u.0) && IsShortText(u.1) && HasAt(bt, off, EncodeBytes(u.0) + EncodeBytes(u.1))
    ensures ParseValue(bt, off, acc, USER) == Ok(Parsed(AddUsers(acc, [u]), off + |EncodeBytes(u.0) + EncodeBytes(u.1)|))
  {
    HasParts(bt, off, EncodeBytes(u.0), EncodeBytes(u.1));
    StringRoundTrip(bt, off, u.0);
    StringRoundTrip(bt, off + |EncodeBytes(u.0)|, u.1);
  }

  lemma UserParses(pkt: nat, bt: Bytes, off: nat, n: nat, acc: Props, u: (Bytes, Bytes))
    requires IsAllowed(USER, pkt) && IsShortText(u.0) && IsShortText(u.1) && HasAt(bt, off, UserField(u)) && off + |UserField(u)| <= n
    ensures ParseAll(pkt, bt, off, n, acc) == ParseAll(pkt, bt, off + |UserField(u)|, n, AddUser(acc, u))
  {
    var pair := EncodeBytes(u.0) + EncodeBytes(u.1);
    HasByte(bt, off, USER, pair);
    PairParses(bt, off + 1, acc, u);
    FieldStep(pkt, bt, off, n, acc, USER, Parsed(AddUsers(acc, [u]), off + 1 + |pair|));
  }

  lemma UsersParse(pkt: nat, bt: Bytes, off: nat, n: nat, acc: Props, users: seq<(Bytes, Bytes)>)
    requires IsAllowed(USER, pkt) && HasAt(bt, off, UserBytes(users)) && off + |UserBytes(users)| <= n && AreUsers(users)
    ensures ParseAll(pkt, bt, off, n, acc) == ParseAll(pkt, bt, off + |UserBytes(users)|, n, AddUsers(acc, users))
  {
    var run: (nat, Props) -> Result<Props> := (o: nat, a: Props) => ParseAll(pkt, bt, o, n, a);
    forall o: nat, a, i | 0 <= i < |users| ensures ReadsItem(run, bt, n, UserField, AddUser, o, a, users[i]) {
      if HasAt(bt, o, UserField(users[i])) && o + |UserField(users[i])| <= n { UserParses(pkt, bt, o, n, a, users[i]); }
    }
    ReadsItems(run, bt, n, UserField, AddUser, off, acc, users);
    FoldUsers(acc, users);
  }

  lemma NumberFieldParses(pkt: nat, bt: Bytes, off: nat, n: nat, acc: Props, p: Props, c: Choice, id: Byte)
    requires IsSound(c, p, pkt) && id in c.numbers && off < n && HasAt(bt, off, [id] + Number(KindOf(id), p.nums[id]))
    ensures ParseAll(pkt, bt, off, n, acc) ==
              ParseAll(pkt, bt, off + 1 + |Number(KindOf(id), p.nums[id])|, n, acc.(nums := acc.nums[id := p.nums[id]]))
  {
    var v := p.nums[id];
    HasByte(bt, off, id, Number(KindOf(id), v));
    NumberParses(bt, off + 1, acc, id, v);
    FieldStep(pkt, bt, off, n, acc, id, Parsed(SetNumber(acc, id, v), off + 1 + |Number(KindOf(id), v)|));
  }

  lemma TextFieldParses(pkt: nat, bt: Bytes, off: nat, n: nat, acc: Props, p: Props, c: Choice, id: Byte)
    requires IsSound(c, p, pkt) && id in c.texts && off < n && HasAt(bt, off, [id] + EncodeBytes(p.texts[id]))
    ensures ParseAll(pkt, bt, off, n, acc) ==
              ParseAll(pkt, bt, off + 1 + |EncodeBytes(p.texts[id])|, n, acc.(texts := acc.texts[id := p.texts[id]]))
  {
    var text := p.texts[id];
    HasByte(bt, off, id, EncodeBytes(text));
    TextParses(bt, off + 1, acc, id, text);
    FieldStep(pkt, bt, off, n, acc, id, Parsed(SetText(acc, id, text), off + 1 + |EncodeBytes(text)|));
  }

  lemma ChoiceKinds(c: Choice, p: Props, pkt: nat, id: nat)
    requires IsSound(c, p, pkt)
    ensures id in c.numbers ==> IsNumber(id) && id != SUBSCRIPTION_ID && id != USER && id in p.nums && id !in c.texts
    ensures id in c.texts ==> IsText(id) && id != SUBSCRIPTION_ID && id != USER && id in p.texts
  {
  }

  // What is gathered when one more identifier is done, by kind of field.

  lemma GatheredNumber(p: Props, c: Choice, done: set<nat>, id: nat)
    requires id in c.numbers && id in p.nums && id !in c.texts && id != SUBSCRIPTION_ID && id != USER
    ensures Gathered(p, c, done + {id}) == var g := Gathered(p, c, done); g.(nums := g.nums[id := p.nums[id]])
  {
  }

  lemma GatheredText(p: Props, c: Choice, done: set<nat>, id: nat)
    requires id in c.texts && id in p.texts && id !in c.numbers && id != SUBSCRIPTION_ID && id != USER
    ensures Gathered(p, c, done + {id}) == var g := Gathered(p, c, done); g.(texts := g.texts[id := p.texts[id]])
  {
  }

  lemma GatheredNone(p: Props, c: Choice, done: set<nat>, id: nat)
    requires id !in c.numbers && id !in c.texts && (id == SUBSCRIPTION_ID ==> !c.ids) && (id == USER ==> !c.users)
    ensures Gathered(p, c, done + {id}) == Gathered(p, c, done)
  {
  }

  lemma GatheredIDs(p: Props, c: Choice, done: set<nat>)
    requires SUBSCRIPTION_ID !in c.numbers && SUBSCRIPTION_ID !in c.texts && SUBSCRIPTION_ID !in done && c.ids
    ensures Gathered(p, c, done + {SUBSCRIPTION_ID}) == AddIDs(Gathered(p, c, done), Positive(p.subIDs))
  {
  }

  lemma GatheredUsers(p: Props, c: Choice, done: set<nat>)
    requires USER !in c.numbers && USER !in c.texts && USER !in done && c.users
    ensures Gathered(p, c, done + {USER}) == AddUsers(Gathered(p, c, done), p.users)
  {
  }

  lemma FieldParses(pkt: nat, bt: Bytes, off: nat, n: nat, p: Props, c: Choice, done: set<nat>, id: Byte)
    requires IsSound(c, p, pkt) && id !in done
    requires HasAt(bt, off, FieldBytes(p, c, id)) && off + |FieldBytes(p, c, id)| <= n
    ensures ParseAll(pkt, bt, off, n, Gathered(p, c, done)) ==
              ParseAll(pkt, bt, off + |FieldBytes(p, c, id)|, n, Gathered(p, c, done + {id}))
  {
    var acc := Gathered(p, c, done);
    ChoiceKinds(c, p, pkt, id);
    if id in c.numbers {
      NumberFieldParses(pkt, bt, off, n, acc, p, c, id);
      GatheredNumber(p, c, done, id);
    } else if id in c.texts {
      TextFieldParses(pkt, bt, off, n, acc, p, c, id);
      GatheredText(p, c, done, id);
    } else if id == SUBSCRIPTION_ID && c.ids {
      IDsParse(pkt, bt, off, n, acc, p.subIDs);
      GatheredIDs(p, c, done);
    } else if id == USER && c.users {
      UsersParse(pkt, bt, off, n, acc, p.users);
      GatheredUsers(p, c, done);
    } else {
      GatheredNone(p, c, done, id);
    }
  }

  function Elements(order: Bytes): set<nat> { set b: nat | b in order }

  lemma GatheredNothing(p: Props, c: Choice)
    ensures Gathered(p, c, {}) == EMPTY
  {
  }

  /** The written fields one after another. */
  function Concat(field: Byte -> Bytes, order: Bytes): Bytes {
    if order == [] then [] else Concat(field, order[..|order| - 1]) + field(order[|order| - 1])
  }

  lemma {:induction false} FieldsAreConcat(p: Props, c: Choice, field: Byte -> Bytes, order: Bytes)
    requires forall id :: field(id) == FieldBytes(p, c, id)
    ensures Fields(p, c, order) == Concat(field, order)
  {
    if order != [] { FieldsAreConcat(p, c, field, order[..|order| - 1]); }
  }

  /** Reading one more field leads from what `done` gives to what one more identifier gives. */
  ghost predicate Reads(run: (nat, Props) -> Result<Props>, bt: Bytes, n: nat, field: Byte -> Bytes, got: set<nat> -> Props,
                        off: nat, done: set<nat>, id: Byte) {
    id !in done && HasAt(bt, off, field(id)) && off + |field(id)| <= n ==>
      run(off, got(done)) == run(off + |field(id)|, got(done + {id}))
  }

  /** If each field is read, all of them are, in order. */
  lemma {:induction false} ReadsAll(run: (nat, Props) -> Result<Props>, bt: Bytes, n: nat, field: Byte -> Bytes, got: set<nat> -> Props,
                                    order: Bytes)
    requires Ascending(order) && HasAt(bt, 0, Concat(field, order)) && |Concat(field, order)| <= n
    requires forall off, done, id :: Reads(run, bt, n, field, got, off, done, id)
    ensures run(0, got({})) == run(|Concat(field, order)|, got(Elements(order)))
    decreases |order|
  {
    if order == [] {
      assert Elements(order) == {};
    } else {
      var front, id := order[..|order| - 1], order[|order| - 1];
      var before := Concat(field, front);
      AscendingFront(order);
      HasParts(bt, 0, before, field(id));
      ReadsAll(run, bt, n, field, got, front);
      assert Reads(run, bt, n, field, got, |before|, Elements(front), id);
    }
  }

  lemma FieldReads(run: (nat, Props) -> Result<Props>, field: Byte -> Bytes, got: set<nat> -> Props,
                   pkt: nat, bt: Bytes, n: nat, p: Props, c: Choice, off: nat, done: set<nat>, id: Byte)
    requires IsSound(c, p, pkt) && field(id) == FieldBytes(p, c, id)
    requires got(done) == Gathered(p, c, done) && got(done + {id}) == Gathered(p, c, done + {id})
    requires forall o, acc :: run(o, acc) == ParseAll(pkt, bt, o, n, acc)
    ensures Reads(run, bt, n, field, got, off, done, id)
  {
    if id !in done && HasAt(bt, off, field(id)) && off + |field(id)| <= n {
      FieldParses(pkt, bt, off, n, p, c, done, id);
    }
  }

  lemma FieldsParse(pkt: nat, bt: Bytes, n: nat, p: Props, c: Choice, order: Bytes)
    requires IsSound(c, p, pkt) && Ascending(order) && HasAt(bt, 0, Fields(p, c, order)) && |Fields(p, c, order)| <= n
    ensures ParseAll(pkt, bt, 0, n, EMPTY) == ParseAll(pkt, bt, |Fields(p, c, order)|, n, Gathered(p, c, Elements(order)))
  {
    var run: (nat, Props) -> Result<Props> := (off: nat, acc: Props) => ParseAll(pkt, bt, off, n, acc);
    var field: Byte -> Bytes := (id: Byte) => FieldBytes(p, c, id);
    var got: set<nat> -> Props := (done: set<nat>) => Gathered(p, c, done);
    FieldsAreConcat(p, c, field, order);
    GatheredNothing(p, c);
    forall off: nat, done, id: Byte ensures Reads(run, bt, n, field, got, off, done, id) {
      FieldReads(run, field, got, pkt, bt, n, p, c, off, done, id);
    }
    ReadsAll(run, bt, n, field, got, order);
  }

  ghost predicate Ascending(order: Bytes) { forall i :: 0 < i < |order| ==> order[i - 1] < order[i] }

  lemma {:induction false} AscendingLast(order: Bytes, i: nat)
    requires Ascending(order) && i < |order| - 1
    ensures order[i] < order[|order| - 1]
    decreases |order| - i
  {
    assert order[i + 1 - 1] < order[i + 1];
    if i + 1 < |order| - 1 { AscendingLast(order, i + 1); }
  }

  lemma AscendingFront(order: Bytes)
    requires Ascending(order) && order != []
    ensures var front, last := order[..|order| - 1], order[|order| - 1];
            Ascending(front) && last !in Elements(front) && Elements(order) == Elements(front) + {last}
  {
    var front, last := order[..|order| - 1], order[|order| - 1];
    forall i | 0 < i < |front| ensures front[i - 1] < front[i] { assert order[i - 1] < order[i]; }
    forall i | 0 <= i < |front| ensures front[i] != last { AscendingLast(order, i); }
    assert order == front + [last];
  }

  lemma KnownInOrder(id: nat)
    ensures IsNumber(id) || IsText(id) || id == SUBSCRIPTION_ID || id == USER ==> id in Elements(ORDER)
  {
  }

  lemma GatheredAll(p: Props, c: Choice, pkt: nat)
    requires IsSound(c, p, pkt)
    ensures Gathered(p, c, Elements(ORDER)) == Shown(p, c)
  {
    KnownInOrder(SUBSCRIPTION_ID);
    KnownInOrder(USER);
    forall id | id in c.numbers || id in c.texts ensures id in Elements(ORDER) {
      ChoiceKinds(c, p, pkt, id);
      KnownInOrder(id);
    }
  }

  lemma BodyParses(p: Props, pkt: nat, mods: Mods, m: nat, rest: Bytes)
    requires IsTyped(p)
    ensures var body := Body(p, pkt, mods, m);
            ParseAll(pkt, body + rest, 0, |body|, EMPTY) == Ok(Visible(p, pkt, mods, m))
  {
    var c, body := ChoiceOf(p, pkt, mods, m), Body(p, pkt, mods, m);
    ChoiceIsSound(p, pkt, mods, m);
    assert HasAt(body + rest, 0, body);
    FieldsParse(pkt, body + rest, |body|, p, c, ORDER);
    GatheredAll(p, c, pkt);
  }

  /** For every packet type and settings: the reader gets exactly what was visible in `p`, and
      uses exactly the bytes that were written, whatever follows them. */
  lemma PropertiesRoundTrip(p: Props, pkt: nat, mods: Mods, m: nat, rest: Bytes)
    requires IsTyped(p) && |Body(p, pkt, mods, m)| <= MAX_VARINT
    ensures Decoded(pkt, Encoded(p, pkt, mods, m) + rest) ==
              Ok(Parsed(Visible(p, pkt, mods, m), |Encoded(p, pkt, mods, m)|))
  {
    var body := Body(p, pkt, mods, m);
    var head := Varint(|body|);
    var buf := Encoded(p, pkt, mods, m) + rest;
    assert buf == [] + head + (body + rest);
    VarintRoundTrip(|body|, [], body + rest);
    assert buf[|head|..] == body + rest;
    BodyParses(p, pkt, mods, m, rest);
  }

  // ---------------------------------------------------------------- when all of it comes back

  ghost predicate AllPositive(ids: seq<nat>) { forall i :: 0 <= i < |ids| ==> ids[i] > 0 }

  /** Every field is one that this packet type may carry and that nothing suppresses. */
  ghost predicate IsCanonical(p: Props, pkt: nat, mods: Mods, n: nat) {
    && (forall id <- p.nums :: WritesNumber(p, pkt, id)) && (forall id <- p.texts :: WritesText(p, pkt, mods, n, id))
    && (p.subIDs == [] || (IsAllowed(SUBSCRIPTION_ID, pkt) && AllPositive(p.subIDs)))
    && (p.users == [] || EmitsUsers(p, pkt, mods, n))
  }

  lemma {:induction false} PositiveAll(ids: seq<nat>)
    ensures Positive(ids) == ids <==> AllPositive(ids)
    ensures |Positive(ids)| <= |ids|
  {
    if ids != [] {
      var rest := ids[1..];
      PositiveAll(rest);
      if ids[0] > 0 {
        assert Positive(ids) == [ids[0]] + Positive(rest) && ids == [ids[0]] + rest;
        assert Positive(ids) == ids ==> Positive(ids)[1..] == ids[1..];
        assert AllPositive(rest) ==> AllPositive(ids) by {
          forall i | 0 < i < |ids| ensures ids[i] == rest[i - 1] {}
        }
        assert AllPositive(ids) ==> AllPositive(rest);
      } else {
        assert Positive(ids) == Positive(rest);
      }
    }
  }

  /** All of `p` is visible exactly when it is canonical for the packet. */
  lemma VisibleIsAll(p: Props, pkt: nat, mods: Mods, n: nat)
    ensures Visible(p, pkt, mods, n) == p <==> IsCanonical(p, pkt, mods, n)
  {
    var c, v := ChoiceOf(p, pkt, mods, n), Visible(p, pkt, mods, n);
    PositiveAll(p.subIDs);
    assert v.nums == p.nums <==> forall id <- p.nums :: WritesNumber(p, pkt, id) by { assert v.nums.Keys == c.numbers; }
    assert v.texts == p.texts <==> forall id <- p.texts :: WritesText(p, pkt, mods, n, id) by { assert v.texts.Keys == c.texts; }
  }

  // ---------------------------------------------------------------- against the standard's table

  /** Table 2-4 of MQTT 5.0 by packet type: the properties each may carry; 99 is the will. */
  function AllowedIn(pkt: nat): seq<nat> {
    if pkt == 1 then [17, 21, 22, 23, 25, 33, 34, 38, 39]
    else if pkt == 2 then [17, 18, 19, 21, 22, 26, 28, 31, 33, 34, 36, 37, 38, 39, 40, 41, 42]
    else if pkt == 3 then [1, 2, 3, 8, 9, 11, 35, 38]
    else if pkt == 4 || pkt == 5 || pkt == 6 || pkt == 7 || pkt == 9 || pkt == 11 then [31, 38]
    else if pkt == 8 then [11, 38]
    else if pkt == 10 then [38]
    else if pkt == 14 then [17, 28, 31, 38]
    else if pkt == 15 then [21, 22, 31, 38]
    else if pkt == 99 then [1, 2, 3, 8, 9, 24, 38]
    else []
  }

  lemma AllowedByTable(id: nat, pkt: nat)
    ensures IsAllowed(id, pkt) <==> id in AllowedIn(pkt)
  {
  }

  /** The same table by data type. */
  lemma KindsByTable(id: nat)
    ensures KindOf(id) == OneByte <==> id in [0x01, 0x17, 0x19, 0x24, 0x25, 0x28, 0x29, 0x2A]
    ensures KindOf(id) == TwoBytes <==> id in [0x13, 0x21, 0x22, 0x23]
    ensures KindOf(id) == FourBytes <==> id in [0x02, 0x11, 0x18, 0x27]
    ensures KindOf(id) == Text <==> id in [0x03, 0x08, 0x12, 0x15, 0x1A, 0x1C, 0x1F]
    ensures KindOf(id) == Binary <==> id in [0x09, 0x16]
    ensures KindOf(id) == VarInts <==> id == 0x0B
    ensures KindOf(id) == Pairs <==> id == 0x26
  {
  }

  /** Which numbers a reader sees: those the packet may carry, if they are not 0 or 0 is a value
      of theirs; a topic alias of 0 and a maximum QoS of 2 are never sent. */
  lemma NumbersSeen(p: Props, pkt: nat, mods: Mods, n: nat, id: nat)
    requires id in p.nums
    ensures id in Visible(p, pkt, mods, n).nums <==>
              && IsNumber(id) && IsAllowed(id, pkt) && (id == 36 ==> p.nums[id] < 2)
              && (|| p.nums[id] > 0 || id == 1 || id == 17 || id == 19 || id == 23 || id == 36 || id == 37
                  || id == 40 || id == 41 || id == 42)
    ensures id in Visible(p, pkt, mods, n).nums ==> Visible(p, pkt, mods, n).nums[id] == p.nums[id]
  {
    NumberEmitted(p, id);
    assert id in Visible(p, pkt, mods, n).nums <==> WritesNumber(p, pkt, id);
  }

  lemma NumberEmitted(p: Props, id: nat)
    requires id in p.nums
    ensures EmitsNumber(p, id) <==>
              && (id == 36 ==> p.nums[id] < 2)
              && (|| p.nums[id] > 0 || id == 1 || id == 17 || id == 19 || id == 23 || id == 36 || id == 37
                  || id == 40 || id == 41 || id == 42)
  {
  }

  /** Which texts: not the empty ones; response information only on request, a response topic
      only without wildcards, and a reason only if problem information is wanted and fits. */
  lemma TextsSeen(p: Props, pkt: nat, mods: Mods, n: nat, id: nat)
    requires id in p.texts
    ensures id in Visible(p, pkt, mods, n).texts <==>
              && IsText(id) && IsAllowed(id, pkt) && p.texts[id] != []
              && (id == 8 || id == 9 || id == 26 ==> mods.allowResponseInfo)
              && (id == 8 ==> 0x2B !in p.texts[id] && 0x23 !in p.texts[id])
              && (id == 31 ==> !mods.disallowProblemInfo
                               && (mods.maxSize == 0 || (n + 2 + |p.texts[id]| + 1) % 0x1_0000_0000 < mods.maxSize))
    ensures id in Visible(p, pkt, mods, n).texts ==> Visible(p, pkt, mods, n).texts[id] == p.texts[id]
  {
    TextEmitted(p, mods, n, id);
    assert id in Visible(p, pkt, mods, n).texts <==> WritesText(p, pkt, mods, n, id);
  }

  lemma TextEmitted(p: Props, mods: Mods, n: nat, id: nat)
    requires id in p.texts
    ensures EmitsText(p, mods, n, id) <==>
              && p.texts[id] != []
              && (id == 8 || id == 9 || id == 26 ==> mods.allowResponseInfo)
              && (id == 8 ==> 0x2B !in p.texts[id] && 0x23 !in p.texts[id])
              && (id == 31 ==> !mods.disallowProblemInfo
                               && (mods.maxSize == 0 || (n + 2 + |p.texts[id]| + 1) % 0x1_0000_0000 < mods.maxSize))
  {
    assert |EncodeBytes(p.texts[id])| == 2 + |p.texts[id]|;
  }

  /** Which lists: the positive subscription identifiers in PUBLISH and SUBSCRIBE, and all user
      properties or none, by the same rule as a reason. */
  lemma ListsSeen(p: Props, pkt: nat, mods: Mods, n: nat)
    ensures Visible(p, pkt, mods, n).subIDs == if pkt == 3 || pkt == 8 then Positive(p.subIDs) else []
    ensures Visible(p, pkt, mods, n).users ==
              if !mods.disallowProblemInfo && 38 in AllowedIn(pkt)
                 && (mods.maxSize == 0 || (n + |UserBytes(p.users)| + 1) % 0x1_0000_0000 < mods.maxSize)
              then p.users else []
  {
    AllowedByTable(11, pkt);
    AllowedByTable(38, pkt);
  }

  // ---------------------------------------------------------------- the codec's loops

  method EncodeProperties(p: Props, pkt: nat, mods: Mods, b: Bytes, n: nat) returns (b': Bytes)
    ensures b' == b + Encoded(p, pkt, mods, n)
  {
    var buf: Bytes, c := [], ChoiceOf(p, pkt, mods, n);
    for k := 0 to |ORDER|
      invariant buf == Fields(p, c, ORDER[..k])
    {
      assert ORDER[..k + 1][..k] == ORDER[..k];
      buf := buf + FieldBytes(p, c, ORDER[k]);
    }
    assert ORDER[..|ORDER|] == ORDER;
    b' := EncodeLength(b, |buf|);
    b' := b' + buf;
  }

  method DecodeProperties(pkt: nat, buf: Bytes) returns (r: Result<Parsed<Props>>)
    ensures r == Decoded(pkt, buf)
  {
    var length := DecodeLength(buf, 0);
    if length.Err? {
      return Err(length.error);
    }
    var n, bu := length.value.n, length.value.bytes;
    if n == 0 {
      return Ok(Parsed(EMPTY, bu));
    }
    LengthWithin(buf, 0, 0, 1, 1);
    var bt, p, off := buf[bu..], EMPTY, 0;
    while off < n
      invariant ParseAll(pkt, bt, 0, n, EMPTY) == ParseAll(pkt, bt, off, n, p)
      decreases |bt| - off
    {
      if off >= |bt| {
        return Err(EndOfInput);
      }
      if !IsAllowed(bt[off], pkt) {
        return Err(Unsupported);
      }
      assert ParseField(pkt, bt, off, n, p) == ParseRest(pkt, bt, off, n, p);
      var v := ParseValue(bt, off + 1, p, bt[off]);
      if v.Err? {
        return Err(v.error);
      }
      p, off := v.value.value, v.value.next;
    }
    return Ok(Parsed(p, n + bu));
  }
}
