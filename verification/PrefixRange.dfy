/** Key ranges of the Pebble storage hook: all keys with a prefix lie between the prefix and
    the upper bound computed from it. */
module PrefixRange {
  import opened Wire

  datatype Bound = Unbounded | Below(key: Bytes)

  /** Lexicographic order. */
  predicate Less(a: Bytes, b: Bytes) {
    b != [] && (a == [] || a[0] < b[0] || (a[0] == b[0] && Less(a[1..], b[1..])))
  }

  predicate InRange(k: Bytes, from: Bytes, to: Bound) { !Less(k, from) && (to.Below? ==> Less(k, to.key)) }

  /** The least key above all keys with prefix `b`; a prefix of 0xFF bytes has none. */
  function UpperBound(b: Bytes): Bound {
    if b == [] then Unbounded
    else
      match UpperBound(b[1..])
      case Below(u) => Below([b[0]] + u)
      case Unbounded => if b[0] < 255 then Below([b[0] + 1]) else Unbounded
  }

  /** A key is in the range exactly when it has the prefix. */
  lemma {:induction false} RangeIsPrefix(b: Bytes, k: Bytes)
    ensures b <= k <==> InRange(k, b, UpperBound(b))
    decreases |b|
  {
    if b != [] && k != [] {
      RangeIsPrefix(b[1..], k[1..]);
      assert b <= k <==> b[0] == k[0] && b[1..] <= k[1..] by {
        assert b == [b[0]] + b[1..] && k == [k[0]] + k[1..];
      }
      if UpperBound(b[1..]).Below? {
        var u := [b[0]] + UpperBound(b[1..]).key;
        assert u[1..] == UpperBound(b[1..]).key;
        assert Less(k, u) <==> k[0] < b[0] || (k[0] == b[0] && Less(k[1..], u[1..]));
      } else if b[0] < 255 {
        var u: Bytes := [b[0] + 1];
        assert Less(k, u) <==> k[0] <= b[0];
      } else {
        assert b[0] == 255;
      }
    }
  }

  lemma {:induction false} BoundOfLast(b: Bytes, last: Byte)
    ensures UpperBound(b + [last]) == if last < 255 then Below(b + [last + 1]) else UpperBound(b)
  {
    if b == [] {
      assert (b + [last])[1..] == [];
    } else {
      BoundOfLast(b[1..], last);
      assert (b + [last])[1..] == b[1..] + [last];
      assert [b[0]] + (b[1..] + [(last + 1) % 256]) == b + [(last + 1) % 256];
    }
  }

  /** `keyUpperBound`: increments a copy from its last byte until one does not overflow. */
  method KeyUpperBound(b: Bytes) returns (r: Bound)
    ensures r == UpperBound(b)
  {
    var end := new Byte[|b|](i requires 0 <= i < |b| => b[i]);
    var i := |b| - 1;
    assert b[..|b|] == b;
    while i >= 0
      invariant -1 <= i < |b|
      invariant end[..i + 1] == b[..i + 1] && UpperBound(b[..i + 1]) == UpperBound(b)
    {
      BoundOfLast(b[..i], b[i]);
      assert b[..i + 1] == b[..i] + [b[i]];
      end[i] := (end[i] as int + 1) % 256;
      if end[i] != 0 {
        assert end[..i + 1] == b[..i] + [b[i] + 1];
        return Below(end[..i + 1]);
      }
      assert end[..i] == b[..i];
      i := i - 1;
    }
    return Unbounded;
  }
}
