/** Base 128 varints and tags, as in the sections "Base 128 Varints" and "Message Structure" of the Protocol Buffers Encoding guide. */
module Varint {
  import opened Common

  /** A value read from the front of a byte string and the number of bytes it took. */
  datatype Read = Read(value: nat, size: nat)

  const MAX_VARINT: nat := 10
  const MAX_VARINT32: nat := 5

  function Encode(n: nat): (s: seq<Byte>)
    ensures |s| == Size(n)
  {
    if n < 128 then [n] else [n % 128 + 128] + Encode(n / 128)
  }

  function Size(n: nat): (k: nat)
    ensures k > 0
  {
    if n < 128 then 1 else 1 + Size(n / 128)
  }

  /** At most `limit` bytes; the value is not truncated yet. */
  function Decode(s: seq<Byte>, limit: nat): (r: Option<Read>)
    ensures r.Some? ==> 0 < r.value.size <= |s| && r.value.size <= limit
  {
    if limit == 0 || s == [] then None
    else if s[0] < 128 then Some(Read(s[0], 1))
    else match Decode(s[1..], limit - 1)
      case None => None
      case Some(r) => Some(Read(s[0] - 128 + 128 * r.value, 1 + r.size))
  }

  function Decode32(s: seq<Byte>): (r: Option<Read>)
    ensures r.Some? ==> 0 < r.value.size <= |s| && r.value.value < TWO_32
  {
    match Decode(s, MAX_VARINT)
    case None => None
    case Some(r) => Some(Read(r.value % TWO_32, r.size))
  }

  lemma FirstByte(b: Byte, tail: seq<Byte>, rest: seq<Byte>)
    ensures ([b] + tail + rest)[0] == b && ([b] + tail + rest)[1..] == tail + rest
  {
  }

  /** Decoding undoes encoding exactly when the limit admits the encoding, whatever follows. */
  lemma {:induction false} DecodeEncode(n: nat, rest: seq<Byte>, limit: nat)
    ensures Decode(Encode(n) + rest, limit) == if Size(n) <= limit then Some(Read(n, Size(n))) else None
  {
    if n < 128 {
    } else if limit > 0 {
      DecodeEncode(n / 128, rest, limit - 1);
      FirstByte(n % 128 + 128, Encode(n / 128), rest);
    }
  }

  /** A varint that was read is read again, the same, when more bytes follow. */
  lemma {:induction false} DecodeExtend(s: seq<Byte>, more: seq<Byte>, limit: nat)
    requires Decode(s, limit).Some?
    ensures Decode(s + more, limit) == Decode(s, limit)
  {
    if s[0] >= 128 {
      DecodeExtend(s[1..], more, limit - 1);
      assert (s + more)[1..] == s[1..] + more;
    }
  }

  lemma Size32(n: nat)
    requires n < TWO_32
    ensures Size(n) <= MAX_VARINT32
  {
    var a, b, c, d := n / 128, n / 128 / 128, n / 128 / 128 / 128, n / 128 / 128 / 128 / 128;
    assert d < 128;
    assert Size(d) == 1 && Size(c) <= 2 && Size(b) <= 3 && Size(a) <= 4;
  }

  lemma Size64(n: nat)
    requires n < TWO_64
    ensures Size(n) <= MAX_VARINT
  {
    Size32Tail(n / 128 / 128 / 128 / 128 / 128);
    var a, b, c, d, e := n / 128, n / 128 / 128, n / 128 / 128 / 128, n / 128 / 128 / 128 / 128, n / 128 / 128 / 128 / 128 / 128;
    assert Size(d) <= 6 && Size(c) <= 7 && Size(b) <= 8 && Size(a) <= 9;
  }

  lemma Size32Tail(n: nat)
    requires n < 0x2000_0000
    ensures Size(n) <= MAX_VARINT32
  {
    Size32(n);
  }

  lemma DecodeEncode32(n: nat, rest: seq<Byte>)
    requires n < TWO_32
    ensures Decode32(Encode(n) + rest) == Some(Read(n, Size(n)))
  {
    Size32(n);
    DecodeEncode(n, rest, MAX_VARINT);
  }

  /** Groups of seven bits, least significant first, each but the last marked: the example of the Encoding guide. */
  lemma GuideExample()
    ensures Encode(1) == [1] && Encode(150) == [0x96, 0x01] && Encode(300) == [0xac, 0x02]
  {
    assert Encode(150 / 128) == [1] && Encode(300 / 128) == [2];
  }
}
