/** The primitive encodings of the wire format (packets/codec.go). */
module Wire {

  type Byte = x: int | 0 <= x < 256
  type Bytes = seq<Byte>

  datatype Error = EndOfInput | Malformed | BadFlags | BadQos | DupWithoutQos | Unsupported | InvalidText | NoPacketID | Oversize
  datatype Result<+T> = Ok(value: T) | Err(error: Error)
  datatype Parsed<+T> = Parsed(value: T, next: nat) // a value and the offset after it

  // ---------------------------------------------------------------- parts of a buffer

  /** `part` stands in `buf` at `off`. */
  ghost predicate HasAt(buf: Bytes, off: nat, part: Bytes) {
    off + |part| <= |buf| && buf[off..off + |part|] == part
  }

  lemma HasParts(buf: Bytes, off: nat, a: Bytes, b: Bytes)
    ensures HasAt(buf, off, a + b) <==> HasAt(buf, off, a) && HasAt(buf, off + |a|, b)
  {
    if off + |a| + |b| <= |buf| {
      var whole := buf[off..off + |a| + |b|];
      assert whole[..|a|] == buf[off..off + |a|];
      assert whole[|a|..] == buf[off + |a|..off + |a| + |b|];
      assert whole == whole[..|a|] + whole[|a|..];
      assert a + b == whole ==> (a + b)[..|a|] == a && (a + b)[|a|..] == b;
    }
  }

  lemma HasByte(buf: Bytes, off: nat, b: Byte, rest: Bytes)
    requires HasAt(buf, off, [b] + rest)
    ensures off < |buf| && buf[off] == b && HasAt(buf, off + 1, rest)
  {
    HasParts(buf, off, [b], rest);
    assert buf[off..off + 1][0] == b;
  }

  lemma HasWhole(pre: Bytes, part: Bytes, post: Bytes)
    ensures HasAt(pre + part + post, |pre|, part)
  {
  }

  // ---------------------------------------------------------------- bits

  /** Bitwise or. */
  function Or(a: nat, b: nat): nat {
    if a == 0 && b == 0 then 0 else 2 * Or(a / 2, b / 2) + (if a % 2 == 1 || b % 2 == 1 then 1 else 0)
  }

  lemma {:induction false} OrZero(b: nat)
    ensures Or(0, b) == b
  {
    if b != 0 { OrZero(b / 2); }
  }

  /** One bit at a time: where the lowest bits do not meet, `or` adds if it does above them. */
  lemma OrStep(a: nat, b: nat)
    requires Or(a / 2, b / 2) == a / 2 + b / 2 && a % 2 + b % 2 < 2
    ensures Or(a, b) == a + b
  {
  }

  /** No bit is set in both. */
  predicate Apart(a: nat, b: nat) { a == 0 || (a % 2 + b % 2 < 2 && Apart(a / 2, b / 2)) }

  /** Where no bit is set in both, `or` adds: bit fields are joined by addition below. */
  lemma {:induction false} OrDisjoint(a: nat, b: nat)
    requires Apart(a, b)
    ensures Or(a, b) == a + b
    decreases a
  {
    if a == 0 {
      OrZero(b);
    } else {
      OrDisjoint(a / 2, b / 2);
      OrStep(a, b);
    }
  }

  // Fields at fixed positions of a byte do not meet.

  lemma Apart2(a: nat, b: nat)
    requires a < 2 && b % 2 == 0
    ensures Apart(a, b)
  {
  }

  lemma Apart4(a: nat, b: nat)
    requires a < 4 && b % 4 == 0
    ensures Apart(a, b)
  {
    Apart2(a / 2, b / 2);
  }

  lemma Apart8(a: nat, b: nat)
    requires a < 8 && b % 8 == 0
    ensures Apart(a, b)
  {
    Apart4(a / 2, b / 2);
  }

  lemma Apart16(a: nat, b: nat)
    requires a < 16 && b % 16 == 0
    ensures Apart(a, b)
  {
    Apart8(a / 2, b / 2);
  }

  lemma Apart32(a: nat, b: nat)
    requires a < 32 && b % 32 == 0
    ensures Apart(a, b)
  {
    Apart16(a / 2, b / 2);
  }

  lemma Apart64(a: nat, b: nat)
    requires a < 64 && b % 64 == 0
    ensures Apart(a, b)
  {
    Apart32(a / 2, b / 2);
  }

  lemma Apart128(a: nat, b: nat)
    requires a < 128 && b % 128 == 0
    ensures Apart(a, b)
  {
    Apart64(a / 2, b / 2);
  }

  /** An operation that adds where no bits meet, as bitwise or does. */
  ghost predicate JoinsBits(or: (nat, nat) -> nat) {
    forall a: nat, b: nat {:trigger or(a, b)} :: Apart(a, b) ==> or(a, b) == a + b
  }

  lemma OrJoinsBits()
    ensures JoinsBits(Or)
  {
    forall a: nat, b: nat | Apart(a, b) ensures Or(a, b) == a + b { OrDisjoint(a, b); }
  }

  // ---------------------------------------------------------------- fixed-width integers

  const U16 := 0x1_0000
  const U32 := 0x1_0000_0000

  /** The low `k` bytes of `v`, most significant first. */
  function BigEndian(v: nat, k: nat): (r: Bytes)
    ensures |r| == k
    decreases v, k
  {
    if k == 0 then [] else BigEndian(v / 256, k - 1) + [v % 256]
  }

  function FromBigEndian(buf: Bytes, off: nat, k: nat): nat
    requires off + k <= |buf|
    decreases buf, off, k
  {
    if k == 0 then 0 else FromBigEndian(buf, off, k - 1) * 256 + buf[off + k - 1]
  }

  function Uint16(v: nat): Bytes { BigEndian(v, 2) }
  function Uint32(v: nat): Bytes { BigEndian(v, 4) }

  function DecodeUint16(buf: Bytes, off: nat): Result<Parsed<nat>> {
    if |buf| < off + 2 then Err(EndOfInput) else Ok(Parsed(FromBigEndian(buf, off, 2), off + 2))
  }

  function DecodeUint32(buf: Bytes, off: nat): Result<Parsed<nat>> {
    if |buf| < off + 4 then Err(EndOfInput) else Ok(Parsed(FromBigEndian(buf, off, 4), off + 4))
  }

  function DecodeByte(buf: Bytes, off: nat): Result<Parsed<Byte>> {
    if |buf| <= off then Err(EndOfInput) else Ok(Parsed(buf[off], off + 1))
  }

  function Range(k: nat): nat { if k == 0 then 1 else 256 * Range(k - 1) }

  lemma {:induction false} BigEndianRoundTrip(buf: Bytes, off: nat, v: nat, k: nat)
    requires HasAt(buf, off, BigEndian(v, k)) && v < Range(k)
    ensures FromBigEndian(buf, off, k) == v
    decreases k
  {
    if k > 0 {
      HasParts(buf, off, BigEndian(v / 256, k - 1), [v % 256]);
      HasByte(buf, off + k - 1, v % 256, []);
      BigEndianRoundTrip(buf, off, v / 256, k - 1);
    }
  }

  lemma Uint16RoundTrip(buf: Bytes, off: nat, v: nat)
    requires v < U16 && HasAt(buf, off, Uint16(v))
    ensures DecodeUint16(buf, off) == Ok(Parsed(v, off + 2))
  {
    assert Range(2) == U16;
    BigEndianRoundTrip(buf, off, v, 2);
  }

  lemma Uint32RoundTrip(buf: Bytes, off: nat, v: nat)
    requires v < U32 && HasAt(buf, off, Uint32(v))
    ensures DecodeUint32(buf, off) == Ok(Parsed(v, off + 4))
  {
    assert Range(4) == U32;
    BigEndianRoundTrip(buf, off, v, 4);
  }

  /** Most significant byte first (section 1.5.2 and 1.5.3 of MQTT 5.0). */
  lemma Uint16Bytes(v: nat)
    requires v < U16
    ensures Uint16(v) == [v / 256, v % 256]
  {
    assert BigEndian(v / 256, 1) == BigEndian(v / 256 / 256, 0) + [v / 256 % 256];
  }

  lemma Uint32Bytes(a: Byte, b: Byte, c: Byte, d: Byte)
    ensures Uint32(a * 0x1000000 + b * 0x10000 + c * 0x100 + d) == [a, b, c, d]
  {
    var x, y, z := a * 0x1000000 + b * 0x10000 + c * 0x100 + d, a * 0x10000 + b * 0x100 + c, a * 0x100 + b;
    assert x / 256 == y && x % 256 == d;
    assert y / 256 == z && y % 256 == c;
    assert z / 256 == a && z % 256 == b;
    assert BigEndian(a, 1) == BigEndian(0, 0) + [a];
    assert BigEndian(z, 2) == BigEndian(a, 1) + [b];
    assert BigEndian(y, 3) == BigEndian(z, 2) + [c];
  }

  // ---------------------------------------------------------------- length-prefixed bytes and strings

  /** The length is cut to 16 bits. */
  function EncodeBytes(val: Bytes): Bytes { Uint16(|val|) + val }

  function DecodeBytes(buf: Bytes, off: nat): Result<Parsed<Bytes>> {
    match DecodeUint16(buf, off)
    case Err(e) => Err(e)
    case Ok(Parsed(length, next)) =>
      if next + length > |buf| then Err(EndOfInput) else Ok(Parsed(buf[next..next + length], next + length))
  }

  predicate IsTail(b: Byte) { 0x80 <= b <= 0xBF }

  /** Well-formed UTF-8 without the null character (section 1.5.4 of MQTT 5.0). */
  predicate IsValidText(b: Bytes)
    decreases |b|
  {
    if b == [] then true
    else if b[0] < 0x80 then b[0] != 0 && IsValidText(b[1..])
    else if 0xC2 <= b[0] <= 0xDF then |b| >= 2 && IsTail(b[1]) && IsValidText(b[2..])
    else if 0xE0 <= b[0] <= 0xEF then
      |b| >= 3 && IsTail(b[1]) && IsTail(b[2]) && (b[0] == 0xE0 ==> b[1] >= 0xA0) && (b[0] == 0xED ==> b[1] <= 0x9F)
      && IsValidText(b[3..])
    else if 0xF0 <= b[0] <= 0xF4 then
      |b| >= 4 && IsTail(b[1]) && IsTail(b[2]) && IsTail(b[3]) && (b[0] == 0xF0 ==> b[1] >= 0x90) && (b[0] == 0xF4 ==> b[1] <= 0x8F)
      && IsValidText(b[4..])
    else false
  }

  function DecodeString(buf: Bytes, off: nat): Result<Parsed<Bytes>> {
    match DecodeBytes(buf, off)
    case Err(e) => Err(e)
    case Ok(parsed) => if IsValidText(parsed.value) then Ok(parsed) else Err(InvalidText)
  }

  // UTF-8 as section 3 of RFC 3629 defines it, from characters to bytes.

  /** A character's number, as a Unicode scalar value. */
  predicate IsScalar(c: nat) { c < 0xD800 || 0xE000 <= c <= 0x10FFFF }

  function Utf8(c: nat): Bytes
    requires IsScalar(c)
  {
    if c < 0x80 then [c]
    else if c < 0x800 then [0xC0 + c / 64, 0x80 + c % 64]
    else if c < 0x10000 then [0xE0 + c / 4096, 0x80 + c / 64 % 64, 0x80 + c % 64]
    else [0xF0 + c / 262144, 0x80 + c / 4096 % 64, 0x80 + c / 64 % 64, 0x80 + c % 64]
  }

  predicate AreCharacters(cs: seq<nat>) { forall c <- cs :: IsScalar(c) && c != 0 }

  function Utf8All(cs: seq<nat>): Bytes
    requires AreCharacters(cs)
  {
    if cs == [] then [] else Utf8(cs[0]) + Utf8All(cs[1..])
  }

  /** A valid text begins with a character, and the rest is valid. */
  predicate BeginsWith(b: Bytes, c: nat) { IsScalar(c) && c != 0 && Utf8(c) <= b && IsValidText(b[|Utf8(c)|..]) }

  lemma CharacterIsValid(b: Bytes, c: nat)
    requires BeginsWith(b, c)
    ensures IsValidText(b)
  {
    var u := Utf8(c);
    assert forall i :: 0 <= i < |u| ==> b[i] == u[i];
  }

  lemma OneByteHead(b: Bytes)
    requires b != [] && b[0] < 0x80 && IsValidText(b)
    ensures BeginsWith(b, b[0])
  {
    assert Utf8(b[0]) == [b[0]] == b[..1];
  }

  lemma TwoByteHead(b: Bytes) returns (c: nat)
    requires b != [] && 0xC2 <= b[0] <= 0xDF && IsValidText(b)
    ensures BeginsWith(b, c)
  {
    var x: int, y: int := b[0] - 0xC0, b[1] - 0x80;
    c := x * 64 + y;
    assert c / 64 == x && c % 64 == y;
    assert Utf8(c) == [b[0], b[1]] == b[..2];
  }

  lemma ThreeByteHead(b: Bytes) returns (c: nat)
    requires b != [] && 0xE0 <= b[0] <= 0xEF && IsValidText(b)
    ensures BeginsWith(b, c)
  {
    var x: int, y: int, z: int := b[0] - 0xE0, b[1] - 0x80, b[2] - 0x80;
    var high := x * 64 + y;
    c := high * 64 + z;
    assert c / 64 == high && c % 64 == z;
    assert high / 64 == x && high % 64 == y && c / 4096 == high / 64;
    assert Utf8(c) == [b[0], b[1], b[2]] == b[..3];
  }

  lemma FourByteHead(b: Bytes) returns (c: nat)
    requires b != [] && 0xF0 <= b[0] <= 0xF4 && IsValidText(b)
    ensures BeginsWith(b, c)
  {
    var v: int, x: int, y: int, z: int := b[0] - 0xF0, b[1] - 0x80, b[2] - 0x80, b[3] - 0x80;
    var top := v * 64 + x;
    var high := top * 64 + y;
    c := high * 64 + z;
    assert c / 64 == high && c % 64 == z;
    assert high / 64 == top && high % 64 == y && c / 4096 == top;
    assert top / 64 == v && top % 64 == x && c / 262144 == top / 64;
    assert Utf8(c) == [b[0], b[1], b[2], b[3]] == b[..4];
  }

  lemma FirstCharacter(b: Bytes) returns (c: nat)
    requires b != [] && IsValidText(b)
    ensures BeginsWith(b, c)
  {
    if b[0] < 0x80 {
      OneByteHead(b);
      c := b[0];
    } else if b[0] <= 0xDF {
      c := TwoByteHead(b);
    } else if b[0] <= 0xEF {
      c := ThreeByteHead(b);
    } else {
      c := FourByteHead(b);
    }
  }

  /** What is accepted as text is exactly the UTF-8 encoding of characters other than null. */
  lemma {:induction false} ValidIsEncoded(b: Bytes) returns (cs: seq<nat>)
    requires IsValidText(b)
    ensures AreCharacters(cs) && Utf8All(cs) == b
    decreases |b|
  {
    if b == [] {
      cs := [];
    } else {
      var c := FirstCharacter(b);
      var rest := ValidIsEncoded(b[|Utf8(c)|..]);
      cs := [c] + rest;
      assert cs[1..] == rest;
    }
  }

  lemma {:induction false} EncodedIsValid(cs: seq<nat>)
    requires AreCharacters(cs)
    ensures IsValidText(Utf8All(cs))
  {
    if cs != [] {
      EncodedIsValid(cs[1..]);
      var b, u := Utf8All(cs), Utf8(cs[0]);
      assert u <= b && b[|u|..] == Utf8All(cs[1..]);
      CharacterIsValid(b, cs[0]);
    }
  }

  lemma BytesRoundTrip(buf: Bytes, off: nat, val: Bytes)
    requires HasAt(buf, off, EncodeBytes(val)) && |val| < U16
    ensures DecodeBytes(buf, off) == Ok(Parsed(val, off + |EncodeBytes(val)|))
  {
    HasParts(buf, off, Uint16(|val|), val);
    Uint16RoundTrip(buf, off, |val|);
  }

  lemma StringRoundTrip(buf: Bytes, off: nat, val: Bytes)
    requires HasAt(buf, off, EncodeBytes(val)) && |val| < U16 && IsValidText(val)
    ensures DecodeString(buf, off) == Ok(Parsed(val, off + |EncodeBytes(val)|))
  {
    BytesRoundTrip(buf, off, val);
  }

  // ---------------------------------------------------------------- variable byte integers (section 1.5.5 of MQTT 5.0)

  const MAX_VARINT := 268435455

  function Varint(n: nat): (r: Bytes)
    ensures |r| >= 1
  {
    if n < 128 then [n] else [n % 128 + 128] + Varint(n / 128)
  }

  method EncodeLength(b: Bytes, length: nat) returns (b': Bytes)
    ensures b' == b + Varint(length)
  {
    b' := b;
    var rest := length;
    while true
      invariant b' + Varint(rest) == b + Varint(length)
      decreases rest
    {
      var eb: nat := rest % 128;
      var more := rest / 128;
      if more > 0 {
        eb := eb + 0x80;
        assert Varint(rest) == [eb] + Varint(more);
        assert b' + ([eb] + Varint(more)) == (b' + [eb]) + Varint(more);
      }
      b' := b' + [eb];
      rest := more;
      if rest == 0 {
        break;
      }
    }
  }

  /** The seven bits that a byte contributes. */
  function Low(b: Byte): nat { b as int % 128 }

  datatype Length = Length(n: nat, bytes: nat)

  /** The decoder's loop: the `value` so far, and the weight of the next seven bits in 32-bit
      arithmetic, which is 0 from the sixth byte on. */
  function LengthFrom(buf: Bytes, off: nat, value: nat, weight: nat, bu: nat): Result<Length>
    decreases |buf| - off
  {
    if off >= |buf| then Err(EndOfInput)
    else
      var value' := value + Low(buf[off]) * weight % U32;
      if value' > MAX_VARINT then Err(Malformed)
      else if buf[off] < 128 then Ok(Length(value', bu))
      else LengthFrom(buf, off + 1, value', weight * 128 % U32, bu + 1)
  }

  lemma {:induction false} LengthWithin(buf: Bytes, off: nat, value: nat, weight: nat, bu: nat)
    ensures var r := LengthFrom(buf, off, value, weight, bu);
            r.Ok? ==> r.value.n <= MAX_VARINT && bu <= r.value.bytes && off + (r.value.bytes - bu) < |buf|
    decreases |buf| - off
  {
    if off < |buf| {
      LengthWithin(buf, off + 1, value + Low(buf[off]) * weight % U32, weight * 128 % U32, bu + 1);
    }
  }

  method DecodeLength(buf: Bytes, off: nat) returns (r: Result<Length>)
    ensures r == LengthFrom(buf, off, 0, 1, 1)
  {
    var value: nat, weight: nat, bu, at := 0, 1, 1, off;
    while true
      invariant LengthFrom(buf, off, 0, 1, 1) == LengthFrom(buf, at, value, weight, bu)
      decreases |buf| - at
    {
      if at >= |buf| {
        return Err(EndOfInput);
      }
      var eb := buf[at];
      value := value + Low(eb) * weight % U32;
      if value > MAX_VARINT {
        return Err(Malformed);
      }
      if eb < 128 {
        return Ok(Length(value, bu));
      }
      weight, bu, at := weight * 128 % U32, bu + 1, at + 1;
    }
  }

  // The decoder's four regular turns: each adds seven bits above those already read.

  lemma SmallMod(v: nat)
    requires v < U32
    ensures v % U32 == v
  {
  }

  lemma FirstTurn(buf: Bytes, off: nat)
    requires off < |buf|
    ensures var value' := Low(buf[off]);
            && value' < 128
            && LengthFrom(buf, off, 0, 1, 1) ==
                 if buf[off] < 128 then Ok(Length(value', 1)) else LengthFrom(buf, off + 1, value', 128, 2)
  {
    SmallMod(Low(buf[off]) * 1);
    SmallMod(1 * 128);
  }

  lemma SecondTurn(buf: Bytes, off: nat, value: nat)
    requires value < 128 && off < |buf|
    ensures var value' := value + Low(buf[off]) * 128;
            && value' < 16384
            && LengthFrom(buf, off, value, 128, 2) ==
                 if buf[off] < 128 then Ok(Length(value', 2)) else LengthFrom(buf, off + 1, value', 16384, 3)
  {
    SmallMod(Low(buf[off]) * 128);
    SmallMod(128 * 128);
  }

  lemma ThirdTurn(buf: Bytes, off: nat, value: nat)
    requires value < 16384 && off < |buf|
    ensures var value' := value + Low(buf[off]) * 16384;
            && value' < 2097152
            && LengthFrom(buf, off, value, 16384, 3) ==
                 if buf[off] < 128 then Ok(Length(value', 3)) else LengthFrom(buf, off + 1, value', 2097152, 4)
  {
    SmallMod(Low(buf[off]) * 16384);
    SmallMod(16384 * 128);
  }

  lemma FourthTurn(buf: Bytes, off: nat, value: nat)
    requires value < 2097152 && off < |buf|
    ensures var value' := value + Low(buf[off]) * 2097152;
            && value' < 268435456
            && LengthFrom(buf, off, value, 2097152, 4) ==
                 if buf[off] < 128 then Ok(Length(value', 4)) else LengthFrom(buf, off + 1, value', 268435456, 5)
  {
    SmallMod(Low(buf[off]) * 2097152);
    SmallMod(2097152 * 128);
  }

  /** A varint begins with its low seven bits and says whether more follow. */
  lemma VarintHead(buf: Bytes, off: nat, n: nat)
    requires HasAt(buf, off, Varint(n))
    ensures off < |buf| && Low(buf[off]) == n % 128 && (buf[off] < 128 <==> n < 128)
    ensures n >= 128 ==> HasAt(buf, off + 1, Varint(n / 128)) && |Varint(n)| == 1 + |Varint(n / 128)|
    ensures n < 128 ==> |Varint(n)| == 1
  {
    var rest: Bytes := if n < 128 then [] else Varint(n / 128);
    var eb: Byte := if n < 128 then n else n % 128 + 128;
    assert Varint(n) == [eb] + rest;
    HasByte(buf, off, eb, rest);
  }

  lemma FourthDecodes(buf: Bytes, off: nat, value: nat, n: nat)
    requires value < 2097152 && n < 128 && HasAt(buf, off, Varint(n))
    ensures LengthFrom(buf, off, value, 2097152, 4) == Ok(Length(value + n * 2097152, 3 + |Varint(n)|))
  {
  }

  lemma ThirdDecodes(buf: Bytes, off: nat, value: nat, n: nat)
    requires value < 16384 && n < 16384 && HasAt(buf, off, Varint(n))
    ensures LengthFrom(buf, off, value, 16384, 3) == Ok(Length(value + n * 16384, 2 + |Varint(n)|))
  {
    VarintHead(buf, off, n);
    ThirdTurn(buf, off, value);
    if n >= 128 { FourthDecodes(buf, off + 1, value + n % 128 * 16384, n / 128); }
  }

  lemma SecondDecodes(buf: Bytes, off: nat, value: nat, n: nat)
    requires value < 128 && n < 2097152 && HasAt(buf, off, Varint(n))
    ensures LengthFrom(buf, off, value, 128, 2) == Ok(Length(value + n * 128, 1 + |Varint(n)|))
  {
    VarintHead(buf, off, n);
    SecondTurn(buf, off, value);
    if n >= 128 { ThirdDecodes(buf, off + 1, value + n % 128 * 128, n / 128); }
  }

  lemma VarintDecodes(buf: Bytes, off: nat, n: nat)
    requires n <= MAX_VARINT && HasAt(buf, off, Varint(n))
    ensures LengthFrom(buf, off, 0, 1, 1) == Ok(Length(n, |Varint(n)|))
  {
    VarintHead(buf, off, n);
    FirstTurn(buf, off);
    if n >= 128 { SecondDecodes(buf, off + 1, n % 128, n / 128); }
  }

  /** What is encoded is read back, whatever follows, and takes the bytes that were written. */
  lemma VarintRoundTrip(n: nat, pre: Bytes, post: Bytes)
    requires n <= MAX_VARINT
    ensures LengthFrom(pre + Varint(n) + post, |pre|, 0, 1, 1) == Ok(Length(n, |Varint(n)|))
  {
    HasWhole(pre, Varint(n), post);
    VarintDecodes(pre + Varint(n) + post, |pre|, n);
  }

  /** Whatever the input: a decoded value is in range and needs the bytes it was read from. */
  lemma DecodedFits(buf: Bytes, off: nat)
    ensures var r := LengthFrom(buf, off, 0, 1, 1);
            && (r.Ok? ==> r.value.n <= MAX_VARINT)
            && (r.Ok? && r.value.bytes <= 3 ==> r.value.n < 2097152)
            && (r.Ok? && r.value.bytes <= 2 ==> r.value.n < 16384)
            && (r.Ok? && r.value.bytes <= 1 ==> r.value.n < 128)
  {
    LengthWithin(buf, off, 0, 1, 1);
    if off < |buf| {
      FirstTurn(buf, off);
      if buf[off] >= 128 { SecondFits(buf, off + 1, Low(buf[off])); }
    }
  }

  lemma SecondFits(buf: Bytes, off: nat, value: nat)
    requires value < 128
    ensures var r := LengthFrom(buf, off, value, 128, 2);
            && (r.Ok? ==> r.value.bytes >= 2)
            && (r.Ok? && r.value.bytes <= 3 ==> r.value.n < 2097152)
            && (r.Ok? && r.value.bytes <= 2 ==> r.value.n < 16384)
  {
    LengthWithin(buf, off, value, 128, 2);
    if off < |buf| {
      SecondTurn(buf, off, value);
      if buf[off] >= 128 { ThirdFits(buf, off + 1, value + Low(buf[off]) * 128); }
    }
  }

  lemma ThirdFits(buf: Bytes, off: nat, value: nat)
    requires value < 16384
    ensures var r := LengthFrom(buf, off, value, 16384, 3);
            && (r.Ok? ==> r.value.bytes >= 3)
            && (r.Ok? && r.value.bytes <= 3 ==> r.value.n < 2097152)
  {
    LengthWithin(buf, off, value, 16384, 3);
    if off < |buf| {
      ThirdTurn(buf, off, value);
      if buf[off] >= 128 { LengthWithin(buf, off + 1, value + Low(buf[off]) * 16384, 2097152, 4); }
    }
  }

  lemma VarintLength(n: nat)
    requires n <= MAX_VARINT
    ensures |Varint(n)| == if n < 128 then 1 else if n < 16384 then 2 else if n < 2097152 then 3 else 4
  {
  }

  /** No other input that decodes to `n` is shorter than its encoding, which has 1 to 4 bytes. */
  lemma VarintIsMinimal(n: nat, buf: Bytes, off: nat)
    requires n <= MAX_VARINT
    ensures 1 <= |Varint(n)| <= 4
    ensures var r := LengthFrom(buf, off, 0, 1, 1); r.Ok? && r.value.n == n ==> |Varint(n)| <= r.value.bytes
  {
    VarintLength(n);
    DecodedFits(buf, off);
    LengthWithin(buf, off, 0, 1, 1);
  }

  /** The standard allows four bytes at most; the decoder takes a fifth that adds nothing. */
  lemma OverlongAccepted(buf: Bytes)
    requires buf == [128, 128, 128, 128, 0]
    ensures LengthFrom(buf, 0, 0, 1, 1) == Ok(Length(0, 5))
  {
    FirstTurn(buf, 0);
    SecondTurn(buf, 1, 0);
    ThirdTurn(buf, 2, 0);
    FourthTurn(buf, 3, 0);
  }

  /** More than four bytes are taken exactly when the first four all say that another follows. */
  lemma OverlongExactly(buf: Bytes, off: nat)
    ensures var r := LengthFrom(buf, off, 0, 1, 1);
            r.Ok? ==> (r.value.bytes > 4 <==> off + 4 < |buf| && forall i :: off <= i < off + 4 ==> buf[i] >= 128)
  {
    LengthWithin(buf, off, 0, 1, 1);
    if off + 3 < |buf| && forall i :: off <= i < off + 4 ==> buf[i] >= 128 {
      var v1 := Low(buf[off]);
      var v2 := v1 + Low(buf[off + 1]) * 128;
      var v3 := v2 + Low(buf[off + 2]) * 16384;
      FirstTurn(buf, off);
      SecondTurn(buf, off + 1, v1);
      ThirdTurn(buf, off + 2, v2);
      FourthTurn(buf, off + 3, v3);
      LengthWithin(buf, off + 4, v3 + Low(buf[off + 3]) * 2097152, 268435456, 5);
    } else {
      ShortInput(buf, off);
    }
  }

  lemma ShortInput(buf: Bytes, off: nat)
    requires off + 3 < |buf| ==> exists i :: off <= i < off + 4 && buf[i] < 128
    ensures var r := LengthFrom(buf, off, 0, 1, 1); r.Ok? ==> r.value.bytes <= 4
  {
    if off < |buf| {
      FirstTurn(buf, off);
      if buf[off] >= 128 { ShortAfterOne(buf, off + 1, Low(buf[off])); }
    }
  }

  lemma ShortAfterOne(buf: Bytes, off: nat, value: nat)
    requires value < 128 && (off + 2 < |buf| ==> exists i :: off <= i < off + 3 && buf[i] < 128)
    ensures var r := LengthFrom(buf, off, value, 128, 2); r.Ok? ==> r.value.bytes <= 4
  {
    if off < |buf| {
      SecondTurn(buf, off, value);
      if buf[off] >= 128 { ShortAfterTwo(buf, off + 1, value + Low(buf[off]) * 128); }
    }
  }

  lemma ShortAfterTwo(buf: Bytes, off: nat, value: nat)
    requires value < 16384 && (off + 1 < |buf| ==> exists i :: off <= i < off + 2 && buf[i] < 128)
    ensures var r := LengthFrom(buf, off, value, 16384, 3); r.Ok? ==> r.value.bytes <= 4
  {
    if off < |buf| {
      ThirdTurn(buf, off, value);
      if buf[off] >= 128 && off + 1 < |buf| { FourthTurn(buf, off + 1, value + Low(buf[off]) * 16384); }
    }
  }

  // ---------------------------------------------------------------- lists of items

  function Joined<T>(field: T -> Bytes, items: seq<T>): Bytes {
    if items == [] then [] else field(items[0]) + Joined(field, items[1..])
  }

  function Fold<A, T>(add: (A, T) -> A, acc: A, items: seq<T>): A
    decreases |items|
  {
    if items == [] then acc else Fold(add, add(acc, items[0]), items[1..])
  }

  /** A decoder's loop `run`, standing at the bytes of an item, moves on past it and adds it. */
  ghost predicate ReadsItem<A, R, T>(run: (nat, A) -> R, bt: Bytes, n: nat, field: T -> Bytes, add: (A, T) -> A,
                                     off: nat, acc: A, item: T) {
    HasAt(bt, off, field(item)) && off + |field(item)| <= n ==> run(off, acc) == run(off + |field(item)|, add(acc, item))
  }

  /** If it reads each item, it reads the whole list. */
  lemma {:induction false} ReadsItems<A(!new), R, T>(run: (nat, A) -> R, bt: Bytes, n: nat, field: T -> Bytes, add: (A, T) -> A,
                                               off: nat, acc: A, items: seq<T>)
    requires HasAt(bt, off, Joined(field, items)) && off + |Joined(field, items)| <= n
    requires forall o, a, i | 0 <= i < |items| :: ReadsItem(run, bt, n, field, add, o, a, items[i])
    ensures run(off, acc) == run(off + |Joined(field, items)|, Fold(add, acc, items))
    decreases |items|
  {
    if items != [] {
      var first, rest := items[0], items[1..];
      HasParts(bt, off, field(first), Joined(field, rest));
      assert ReadsItem(run, bt, n, field, add, off, acc, items[0]);
      forall o, a, i | 0 <= i < |rest| ensures ReadsItem(run, bt, n, field, add, o, a, rest[i]) { assert rest[i] == items[i + 1]; }
      ReadsItems(run, bt, n, field, add, off + |field(first)|, add(acc, first), rest);
    }
  }

  // ---------------------------------------------------------------- readers in sequence

  type Reader<A> = (Bytes, nat) -> Result<Parsed<A>>

  /** Wherever `part` stands in a buffer, `read` gets `x` from it and moves past it. */
  ghost predicate ReadsBack<A>(read: Reader<A>, part: Bytes, x: A) {
    forall buf: Bytes, off: nat | HasAt(buf, off, part) :: read(buf, off) == Ok(Parsed(x, off + |part|))
  }

  function Constant<A>(x: A): Reader<A> { (buf: Bytes, off: nat) => Ok(Parsed(x, off)) }

  function Mapped<A, B>(read: Reader<A>, f: A -> B): Reader<B> {
    (buf: Bytes, off: nat) => match read(buf, off) case Err(e) => Err(e) case Ok(p) => Ok(Parsed(f(p.value), p.next))
  }

  /** First one reader, then another that may depend on what the first has read. */
  function Then<A, B>(first: Reader<A>, second: A -> Reader<B>): Reader<(A, B)> {
    (buf: Bytes, off: nat) =>
      match first(buf, off)
      case Err(e) => Err(e)
      case Ok(p) =>
        match second(p.value)(buf, p.next)
        case Err(e) => Err(e)
        case Ok(q) => Ok(Parsed((p.value, q.value), q.next))
  }

  function Both<A, B>(first: Reader<A>, second: Reader<B>): Reader<(A, B)> {
    (buf: Bytes, off: nat) =>
      match first(buf, off)
      case Err(e) => Err(e)
      case Ok(p) =>
        match second(buf, p.next)
        case Err(e) => Err(e)
        case Ok(q) => Ok(Parsed((p.value, q.value), q.next))
  }

  lemma ConstantReads<A>(x: A)
    ensures ReadsBack(Constant(x), [], x)
  {
  }

  lemma MappedReads<A, B>(read: Reader<A>, f: A -> B, part: Bytes, x: A)
    requires ReadsBack(read, part, x)
    ensures ReadsBack(Mapped(read, f), part, f(x))
  {
  }

  lemma ThenReads<A, B>(first: Reader<A>, second: A -> Reader<B>, p: Bytes, q: Bytes, x: A, y: B)
    requires ReadsBack(first, p, x) && ReadsBack(second(x), q, y)
    ensures ReadsBack(Then(first, second), p + q, (x, y))
  {
    forall buf: Bytes, off: nat | HasAt(buf, off, p + q)
      ensures Then(first, second)(buf, off) == Ok(Parsed((x, y), off + |p + q|))
    {
      HasParts(buf, off, p, q);
    }
  }

  lemma BothReads<A, B>(first: Reader<A>, second: Reader<B>, p: Bytes, q: Bytes, x: A, y: B)
    requires ReadsBack(first, p, x) && ReadsBack(second, q, y)
    ensures ReadsBack(Both(first, second), p + q, (x, y))
  {
    forall buf: Bytes, off: nat | HasAt(buf, off, p + q)
      ensures Both(first, second)(buf, off) == Ok(Parsed((x, y), off + |p + q|))
    {
      HasParts(buf, off, p, q);
    }
  }
}
