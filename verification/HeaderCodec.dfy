/**
  Wire format of RpcHeader: what the generated serialiser writes, what the
  generated parser accepts, and why one undoes the other.
 */
module HeaderCodec {
  import opened Common
  import Varint

  type UInt32 = n: nat | n < TWO_32
  type UInt64 = n: nat | n < TWO_64
  type Int32 = n: int | -0x8000_0000 <= n < 0x8000_0000

  datatype Header = Header(
    magic: UInt32, version: UInt32, msgType: Int32, requestId: UInt64,
    bodySize: UInt32, compressType: Int32, serviceName: seq<Byte>, methodName: seq<Byte>)

  const EMPTY := Header(0, 0, 0, 0, 0, 0, [], [])

  /** The parser refuses longer length-delimited fields: INT_MAX less its 16 bytes of slop. */
  const MAX_FIELD: nat := INT32_MAX - 16
  /** Nesting of unknown groups that the parser accepts. */
  const MAX_DEPTH: nat := 100

  // ---------------------------------------------------------------- writing

  /** An enum goes out as its sign-extended 64-bit value. */
  function SignExtend(v: Int32): UInt64 {
    if v < 0 then v + TWO_64 else v
  }

  function TruncateToInt32(v: UInt64): Int32 {
    var low := v % TWO_32;
    if low < 0x8000_0000 then low else low - TWO_32
  }

  function VarintField(tag: Byte, v: UInt64): seq<Byte> {
    if v == 0 then [] else [tag] + Varint.Encode(v)
  }

  function BytesField(tag: Byte, v: seq<Byte>): seq<Byte> {
    if v == [] then [] else [tag] + Varint.Encode(|v|) + v
  }

  function Serialize(h: Header): seq<Byte> {
    VarintField(8, h.magic) + (VarintField(16, h.version) + (VarintField(24, SignExtend(h.msgType))
    + (VarintField(32, h.requestId) + (VarintField(40, h.bodySize) + (VarintField(48, SignExtend(h.compressType))
    + (BytesField(58, h.serviceName) + BytesField(66, h.methodName)))))))
  }

  /** Merging: each field of `from` that is not the default wins. */
  function Merge(h: Header, from: Header): Header {
    Header(
      if from.magic != 0 then from.magic else h.magic,
      if from.version != 0 then from.version else h.version,
      if from.msgType != 0 then from.msgType else h.msgType,
      if from.requestId != 0 then from.requestId else h.requestId,
      if from.bodySize != 0 then from.bodySize else h.bodySize,
      if from.compressType != 0 then from.compressType else h.compressType,
      if from.serviceName != [] then from.serviceName else h.serviceName,
      if from.methodName != [] then from.methodName else h.methodName)
  }

  // ---------------------------------------------------------------- reading

  function ReadTag(s: seq<Byte>): (r: Option<Varint.Read>)
    ensures r.Some? ==> 0 < r.value.size <= |s|
  {
    match Varint.Decode(s, Varint.MAX_VARINT32)
    case None => None
    case Some(r) => Some(Varint.Read(r.value % TWO_32, r.size))
  }

  /** A length followed by that many bytes; value is the number of bytes after the length. */
  function ReadLength(s: seq<Byte>): (r: Option<Varint.Read>)
    ensures r.Some? ==> 0 < r.value.size && r.value.size + r.value.value <= |s|
  {
    match Varint.Decode(s, Varint.MAX_VARINT32)
    case None => None
    case Some(r) => if r.value <= MAX_FIELD && r.size + r.value <= |s| then Some(r) else None
  }

  /** Bytes taken by the value of an unknown field whose tag was just read. */
  function Skip(tag: nat, s: seq<Byte>, depth: nat): (r: Option<nat>)
    ensures r.Some? ==> r.value <= |s|
    decreases |s|, 1
  {
    if tag / 8 == 0 then None
    else match tag % 8
      case 0 => (match Varint.Decode(s, Varint.MAX_VARINT) case None => None case Some(r) => Some(r.size))
      case 1 => if |s| >= 8 then Some(8) else None
      case 2 => (match ReadLength(s) case None => None case Some(r) => Some(r.size + r.value))
      case 3 => if depth == 0 then None else SkipGroup(tag, s, depth - 1)
      case 5 => if |s| >= 4 then Some(4) else None
      case _ => None
  }

  /** An end-group tag, or the zero that stops the parser the same way. */
  predicate EndsGroup(tag: nat) {
    tag == 0 || tag % 8 == 4
  }

  /** Bytes up to and including the end tag that matches `start`. */
  function SkipGroup(start: nat, s: seq<Byte>, depth: nat): (r: Option<nat>)
    ensures r.Some? ==> r.value <= |s|
    decreases |s|, 0
  {
    match ReadTag(s)
    case None => None
    case Some(t) =>
      if EndsGroup(t.value) then (if t.value == start + 1 then Some(t.size) else None)
      else match Skip(t.value, s[t.size..], depth)
        case None => None
        case Some(k) =>
          match SkipGroup(start, s[t.size + k..], depth)
          case None => None
          case Some(m) => Some(t.size + k + m)
  }

  /** One turn of the parser's loop: the header after the field and the bytes it took. */
  datatype Turn = Failure | Parsed(header: Header, size: nat)

  /** Assigning a varint read for a known tag, cut to the width of the field. */
  function WithVarint(h: Header, tag: nat, v: nat): Header
    requires tag in {8, 16, 24, 32, 40, 48}
  {
    if tag == 8 then h.(magic := v % TWO_32)
    else if tag == 16 then h.(version := v % TWO_32)
    else if tag == 24 then h.(msgType := TruncateToInt32(v % TWO_64))
    else if tag == 32 then h.(requestId := v % TWO_64)
    else if tag == 40 then h.(bodySize := v % TWO_32)
    else h.(compressType := TruncateToInt32(v % TWO_64))
  }

  function VarintTurn(h: Header, tag: nat, s: seq<Byte>, used: nat): (t: Turn)
    requires tag in {8, 16, 24, 32, 40, 48}
    ensures t.Parsed? ==> used < t.size <= used + |s|
  {
    match Varint.Decode(s, Varint.MAX_VARINT)
    case None => Failure
    case Some(r) => Parsed(WithVarint(h, tag, r.value), used + r.size)
  }

  function WithBytes(h: Header, tag: nat, v: seq<Byte>): Header {
    if tag == 58 then h.(serviceName := v) else h.(methodName := v)
  }

  function BytesTurn(h: Header, tag: nat, s: seq<Byte>, used: nat): (t: Turn)
    ensures t.Parsed? ==> used < t.size <= used + |s|
  {
    match ReadLength(s)
    case None => Failure
    case Some(r) =>
      var v := s[r.size..r.size + r.value];
      Parsed(WithBytes(h, tag, v), used + r.size + r.value)
  }

  function FieldTurn(h: Header, s: seq<Byte>): (t: Turn)
    ensures t.Parsed? ==> 0 < t.size <= |s|
  {
    match ReadTag(s)
    case None => Failure
    case Some(t) =>
      var rest := s[t.size..];
      if t.value in {8, 16, 24, 32, 40, 48} then VarintTurn(h, t.value, rest, t.size)
      else if t.value == 58 || t.value == 66 then BytesTurn(h, t.value, rest, t.size)
      else if EndsGroup(t.value) then Failure
      else match Skip(t.value, rest, MAX_DEPTH)
        case None => Failure
        case Some(k) => Parsed(h, t.size + k)
  }

  /** The whole parse: fields are read until the bytes end exactly. */
  function Parse(h: Header, s: seq<Byte>): Option<Header>
    decreases |s|
  {
    if s == [] then Some(h)
    else match FieldTurn(h, s)
      case Failure => None
      case Parsed(h', k) => Parse(h', s[k..])
  }

  // ---------------------------------------------------------------- more bytes do not change what was read

  lemma {:induction false} SkipExtend(tag: nat, s: seq<Byte>, depth: nat, more: seq<Byte>)
    requires Skip(tag, s, depth).Some?
    ensures Skip(tag, s + more, depth) == Skip(tag, s, depth)
    decreases |s|, 1
  {
    match tag % 8
    case 0 => Varint.DecodeExtend(s, more, Varint.MAX_VARINT);
    case 2 => Varint.DecodeExtend(s, more, Varint.MAX_VARINT32);
    case 3 => SkipGroupExtend(tag, s, depth - 1, more);
    case _ =>
  }

  lemma TagExtend(s: seq<Byte>, more: seq<Byte>)
    requires ReadTag(s).Some?
    ensures ReadTag(s + more) == ReadTag(s)
  {
    hide Varint.Decode;
    Varint.DecodeExtend(s, more, Varint.MAX_VARINT32);
  }

  /** The two ways in which a group is skipped: its end tag, or a field and then the rest. */
  lemma SkipGroupEnd(start: nat, s: seq<Byte>, depth: nat, t: Varint.Read)
    requires ReadTag(s) == Some(t) && EndsGroup(t.value)
    ensures SkipGroup(start, s, depth) == if t.value == start + 1 then Some(t.size) else None
  {
  }

  lemma SkipGroupField(start: nat, s: seq<Byte>, depth: nat, t: Varint.Read, k: nat)
    requires ReadTag(s) == Some(t) && !EndsGroup(t.value) && t.size <= |s|
    requires Skip(t.value, s[t.size..], depth) == Some(k) && t.size + k <= |s|
    ensures SkipGroup(start, s, depth) ==
      match SkipGroup(start, s[t.size + k..], depth) case None => None case Some(m) => Some(t.size + k + m)
  {
    hide Skip, ReadTag;
  }

  lemma SkipGroupReads(start: nat, s: seq<Byte>, depth: nat) returns (t: Varint.Read)
    requires SkipGroup(start, s, depth).Some?
    ensures ReadTag(s) == Some(t) && t.size <= |s|
    ensures !EndsGroup(t.value) ==> Skip(t.value, s[t.size..], depth).Some?
  {
    hide Skip;
    t := ReadTag(s).value;
  }

  lemma {:induction false} SkipGroupExtend(start: nat, s: seq<Byte>, depth: nat, more: seq<Byte>)
    requires SkipGroup(start, s, depth).Some?
    ensures SkipGroup(start, s + more, depth) == SkipGroup(start, s, depth)
    decreases |s|, 0
  {
    hide Skip, SkipGroup, ReadTag, EndsGroup;
    var t := SkipGroupReads(start, s, depth);
    TagExtend(s, more);
    if EndsGroup(t.value) {
      SkipGroupEnd(start, s, depth, t);
      SkipGroupEnd(start, s + more, depth, t);
    } else {
      var k := Skip(t.value, s[t.size..], depth).value;
      DropAppend(s, more, t.size);
      DropAppend(s, more, t.size + k);
      SkipExtend(t.value, s[t.size..], depth, more);
      SkipGroupField(start, s, depth, t, k);
      SkipGroupField(start, s + more, depth, t, k);
      SkipGroupExtend(start, s[t.size + k..], depth, more);
    }
  }

  lemma LengthExtend(s: seq<Byte>, more: seq<Byte>)
    requires ReadLength(s).Some?
    ensures ReadLength(s + more) == ReadLength(s)
  {
    hide Varint.Decode;
    Varint.DecodeExtend(s, more, Varint.MAX_VARINT32);
  }

  lemma BytesTurnExtend(h: Header, tag: nat, s: seq<Byte>, used: nat, more: seq<Byte>)
    requires BytesTurn(h, tag, s, used).Parsed?
    ensures BytesTurn(h, tag, s + more, used) == BytesTurn(h, tag, s, used)
  {
    hide ReadLength;
    LengthExtend(s, more);
    var r := ReadLength(s).value;
    SliceAppend(s, more, r.size, r.size + r.value);
  }

  lemma FieldTurnExtend(h: Header, s: seq<Byte>, more: seq<Byte>)
    requires FieldTurn(h, s).Parsed?
    ensures FieldTurn(h, s + more) == FieldTurn(h, s)
  {
    hide Skip, Varint.Decode, ReadTag, BytesTurn;
    TagExtend(s, more);
    var t := ReadTag(s).value;
    var rest := s[t.size..];
    DropAppend(s, more, t.size);
    if t.value in {8, 16, 24, 32, 40, 48} {
      Varint.DecodeExtend(rest, more, Varint.MAX_VARINT);
    } else if t.value == 58 || t.value == 66 {
      BytesTurnExtend(h, t.value, rest, t.size, more);
    } else {
      SkipExtend(t.value, rest, MAX_DEPTH, more);
    }
  }

  /**
    Parsing a concatenation is parsing the second part into the result of the
    first, for any two byte strings of which the first parses: unknown fields,
    repeated fields and non-canonical varints included.
   */
  lemma {:induction false} ParseConcat(h: Header, a: seq<Byte>, b: seq<Byte>)
    requires Parse(h, a).Some?
    ensures Parse(h, a + b) == Parse(Parse(h, a).value, b)
    decreases |a|
  {
    hide FieldTurn, Parse;
    if a == [] {
      assert a + b == b;
      ParseNothing(h);
    } else {
      ParseTurn(h, a);
      FieldTurnExtend(h, a, b);
      ParseTurn(h, a + b);
      var t := FieldTurn(h, a);
      DropAppend(a, b, t.size);
      ParseConcat(t.header, a[t.size..], b);
    }
  }

  lemma ParseNothing(h: Header)
    ensures Parse(h, []) == Some(h)
  {
  }

  lemma ParseTurn(h: Header, s: seq<Byte>)
    requires s != []
    ensures Parse(h, s) ==
      match FieldTurn(h, s)
      case Failure => None
      case Parsed(h', k) => Parse(h', s[k..])
  {
  }

  // ---------------------------------------------------------------- what was written is read back

  lemma TagRead(tag: Byte, rest: seq<Byte>)
    requires tag < 128
    ensures ReadTag([tag] + rest) == Some(Varint.Read(tag, 1)) && ([tag] + rest)[1..] == rest
  {
  }

  lemma SignExtendRoundTrip(v: Int32)
    ensures TruncateToInt32(SignExtend(v)) == v && (SignExtend(v) == 0 <==> v == 0)
  {
  }

  lemma VarintTurnRead(h: Header, tag: Byte, v: UInt64, rest: seq<Byte>)
    requires tag in {8, 16, 24, 32, 40, 48}
    ensures FieldTurn(h, [tag] + (Varint.Encode(v) + rest)) == Parsed(WithVarint(h, tag, v), 1 + Varint.Size(v))
  {
    TagRead(tag, Varint.Encode(v) + rest);
    Varint.Size64(v);
    Varint.DecodeEncode(v, rest, Varint.MAX_VARINT);
  }

  lemma VarintFieldRead(h: Header, tag: Byte, v: UInt64, rest: seq<Byte>)
    requires tag in {8, 16, 24, 32, 40, 48}
    ensures Parse(h, VarintField(tag, v) + rest) == Parse(if v == 0 then h else WithVarint(h, tag, v), rest)
  {
    var field := VarintField(tag, v);
    if v == 0 {
      assert field + rest == rest;
    } else {
      assert field + rest == [tag] + (Varint.Encode(v) + rest);
      VarintTurnRead(h, tag, v, rest);
      assert (field + rest)[1 + Varint.Size(v)..] == rest;
    }
  }

  lemma BytesTurnRead(h: Header, tag: Byte, v: seq<Byte>, rest: seq<Byte>)
    requires tag == 58 || tag == 66
    requires |v| < TWO_32
    ensures FieldTurn(h, [tag] + (Varint.Encode(|v|) + (v + rest)))
         == if |v| > MAX_FIELD then Failure else Parsed(WithBytes(h, tag, v), 1 + Varint.Size(|v|) + |v|)
  {
    hide Varint.Encode, Varint.Decode, Skip, ReadTag, BytesTurn;
    var tail := Varint.Encode(|v|) + (v + rest);
    TagRead(tag, tail);
    LengthTurn(h, tag, v, rest);
  }

  lemma LengthTurn(h: Header, tag: Byte, v: seq<Byte>, rest: seq<Byte>)
    requires |v| < TWO_32
    ensures BytesTurn(h, tag, Varint.Encode(|v|) + (v + rest), 1)
         == if |v| > MAX_FIELD then Failure else Parsed(WithBytes(h, tag, v), 1 + Varint.Size(|v|) + |v|)
  {
    hide Varint.Encode, ReadLength, BytesTurn;
    LengthRead(v, rest);
    BytesTurnOf(h, tag, Varint.Encode(|v|) + (v + rest), v);
  }

  lemma BytesTurnOf(h: Header, tag: Byte, s: seq<Byte>, v: seq<Byte>)
    requires var r := ReadLength(s); r.Some? ==> s[r.value.size..r.value.size + r.value.value] == v
    ensures BytesTurn(h, tag, s, 1) == match ReadLength(s)
      case None => Failure
      case Some(r) => Parsed(WithBytes(h, tag, v), 1 + r.size + r.value)
  {
    hide ReadLength;
  }

  lemma LengthRead(v: seq<Byte>, rest: seq<Byte>)
    requires |v| < TWO_32
    ensures var s, k := Varint.Encode(|v|) + (v + rest), Varint.Size(|v|);
      && ReadLength(s) == (if |v| <= MAX_FIELD then Some(Varint.Read(|v|, k)) else None)
      && s[k..k + |v|] == v
  {
    hide Varint.Encode, Varint.Decode;
    Varint.Size32(|v|);
    Varint.DecodeEncode(|v|, v + rest, Varint.MAX_VARINT32);
    Middle(Varint.Encode(|v|), v, rest);
  }

  lemma BytesFieldRead(h: Header, tag: Byte, v: seq<Byte>, rest: seq<Byte>)
    requires tag == 58 || tag == 66
    requires |v| < TWO_32
    ensures Parse(h, BytesField(tag, v) + rest)
         == if v == [] then Parse(h, rest)
            else if |v| > MAX_FIELD then None
            else Parse(WithBytes(h, tag, v), rest)
  {
    var field := BytesField(tag, v);
    if v == [] {
      assert field + rest == rest;
    } else {
      assert field + rest == [tag] + (Varint.Encode(|v|) + (v + rest));
      BytesTurnRead(h, tag, v, rest);
      if |v| <= MAX_FIELD {
        assert (field + rest)[1 + Varint.Size(|v|) + |v|..] == rest;
      }
    }
  }

  lemma ParseNames(h: Header, from: Header)
    requires |from.serviceName| < TWO_32 && |from.methodName| < TWO_32
    ensures Parse(h, BytesField(58, from.serviceName) + BytesField(66, from.methodName))
         == if |from.serviceName| <= MAX_FIELD && |from.methodName| <= MAX_FIELD
            then Some(h.(serviceName := if from.serviceName != [] then from.serviceName else h.serviceName,
                         methodName := if from.methodName != [] then from.methodName else h.methodName))
            else None
  {
    var f8 := BytesField(66, from.methodName);
    BytesFieldRead(h, 58, from.serviceName, f8);
    BytesFieldRead(if from.serviceName != [] then h.(serviceName := from.serviceName) else h, 66, from.methodName, []);
    assert f8 + [] == f8;
  }

  lemma ParseEnumField(h: Header, tag: Byte, v: Int32, rest: seq<Byte>)
    requires tag == 24 || tag == 48
    ensures Parse(h, VarintField(tag, SignExtend(v)) + rest)
         == Parse(if v == 0 then h else if tag == 24 then h.(msgType := v) else h.(compressType := v), rest)
  {
    hide Parse, FieldTurn, VarintField;
    SignExtendRoundTrip(v);
    VarintFieldRead(h, tag, SignExtend(v), rest);
  }

  /** The first three fields, then the next three, read in front of anything. */
  lemma ParseFirst(h: Header, from: Header, rest: seq<Byte>)
    ensures Parse(h, VarintField(8, from.magic) + (VarintField(16, from.version) + (VarintField(24, SignExtend(from.msgType)) + rest)))
         == Parse(h.(magic := if from.magic != 0 then from.magic else h.magic,
                     version := if from.version != 0 then from.version else h.version,
                     msgType := if from.msgType != 0 then from.msgType else h.msgType), rest)
  {
    hide Parse, FieldTurn, VarintField;
    var f3 := VarintField(24, SignExtend(from.msgType)) + rest;
    VarintFieldRead(h, 8, from.magic, VarintField(16, from.version) + f3);
    var h1 := if from.magic != 0 then h.(magic := from.magic) else h;
    VarintFieldRead(h1, 16, from.version, f3);
    ParseEnumField(if from.version != 0 then h1.(version := from.version) else h1, 24, from.msgType, rest);
  }

  lemma ParseSecond(h: Header, from: Header, rest: seq<Byte>)
    ensures Parse(h, VarintField(32, from.requestId) + (VarintField(40, from.bodySize) + (VarintField(48, SignExtend(from.compressType)) + rest)))
         == Parse(h.(requestId := if from.requestId != 0 then from.requestId else h.requestId,
                     bodySize := if from.bodySize != 0 then from.bodySize else h.bodySize,
                     compressType := if from.compressType != 0 then from.compressType else h.compressType), rest)
  {
    hide Parse, FieldTurn, VarintField;
    var f6 := VarintField(48, SignExtend(from.compressType)) + rest;
    VarintFieldRead(h, 32, from.requestId, VarintField(40, from.bodySize) + f6);
    var h4 := if from.requestId != 0 then h.(requestId := from.requestId) else h;
    VarintFieldRead(h4, 40, from.bodySize, f6);
    ParseEnumField(if from.bodySize != 0 then h4.(bodySize := from.bodySize) else h4, 48, from.compressType, rest);
  }

  /** Parsing a serialised header into `h` is MergeFrom, unless a name is longer than the parser takes. */
  lemma {:induction false} ParseSerialized(h: Header, from: Header)
    requires |from.serviceName| < TWO_32 && |from.methodName| < TWO_32
    ensures Parse(h, Serialize(from))
         == if |from.serviceName| <= MAX_FIELD && |from.methodName| <= MAX_FIELD then Some(Merge(h, from)) else None
  {
    var names := BytesField(58, from.serviceName) + BytesField(66, from.methodName);
    var second := VarintField(32, from.requestId) + (VarintField(40, from.bodySize) + (VarintField(48, SignExtend(from.compressType)) + names));
    ParseFirst(h, from, second);
    var h3 := h.(magic := if from.magic != 0 then from.magic else h.magic,
                 version := if from.version != 0 then from.version else h.version,
                 msgType := if from.msgType != 0 then from.msgType else h.msgType);
    ParseSecond(h3, from, names);
    ParseNames(h3.(requestId := if from.requestId != 0 then from.requestId else h.requestId,
                   bodySize := if from.bodySize != 0 then from.bodySize else h.bodySize,
                   compressType := if from.compressType != 0 then from.compressType else h.compressType), from);
  }

  /** A header comes back from its serialisation exactly when both names are short enough to be read. */
  lemma {:induction false} RoundTrip(h: Header)
    requires |Serialize(h)| <= INT32_MAX
    ensures Parse(EMPTY, Serialize(h)) == Some(h) <==> |h.serviceName| <= MAX_FIELD && |h.methodName| <= MAX_FIELD
  {
    ParseSerialized(EMPTY, h);
  }

  /** Reading two serialised headers one after the other merges them, the last one winning. */
  lemma {:induction false} ConcatIsMerge(a: Header, b: Header)
    requires |a.serviceName| <= MAX_FIELD && |a.methodName| <= MAX_FIELD
    requires |b.serviceName| <= MAX_FIELD && |b.methodName| <= MAX_FIELD
    ensures Parse(EMPTY, Serialize(a) + Serialize(b)) == Some(Merge(a, b))
  {
    ParseSerialized(EMPTY, a);
    ParseConcat(EMPTY, Serialize(a), Serialize(b));
    ParseSerialized(a, b);
  }

  /** Distinct headers never share a serialisation. */
  lemma {:induction false} SerializeInjective(a: Header, b: Header)
    requires |a.serviceName| <= MAX_FIELD && |a.methodName| <= MAX_FIELD
    requires |b.serviceName| <= MAX_FIELD && |b.methodName| <= MAX_FIELD
    requires Serialize(a) == Serialize(b)
    ensures a == b
  {
    ParseSerialized(EMPTY, a);
    ParseSerialized(EMPTY, b);
  }

  // ---------------------------------------------------------------- the format itself

  /** The field numbers and wire types of the message, each varint field alone. */
  lemma VarintTags(v: UInt32, id: UInt64)
    requires v != 0 && id != 0
    ensures Serialize(Header(v, 0, 0, 0, 0, 0, [], [])) == [1 * 8] + Varint.Encode(v)
    ensures Serialize(Header(0, v, 0, 0, 0, 0, [], [])) == [2 * 8] + Varint.Encode(v)
    ensures Serialize(Header(0, 0, 0, id, 0, 0, [], [])) == [4 * 8] + Varint.Encode(id)
    ensures Serialize(Header(0, 0, 0, 0, v, 0, [], [])) == [5 * 8] + Varint.Encode(v)
  {
    hide Varint.Encode;
  }

  /** Enums go out as 64-bit two's complement. */
  lemma EnumTags(e: Int32)
    requires e != 0
    ensures var wide := if e < 0 then 0x1_0000_0000_0000_0000 + e else e;
      && Serialize(Header(0, 0, e, 0, 0, 0, [], [])) == [3 * 8] + Varint.Encode(wide)
      && Serialize(Header(0, 0, 0, 0, 0, e, [], [])) == [6 * 8] + Varint.Encode(wide)
  {
    hide Varint.Encode;
  }

  /** Names carry their length. */
  lemma NameTags(name: seq<Byte>)
    requires name != []
    ensures Serialize(Header(0, 0, 0, 0, 0, 0, name, [])) == [7 * 8 + 2] + Varint.Encode(|name|) + name
    ensures Serialize(Header(0, 0, 0, 0, 0, 0, [], name)) == [8 * 8 + 2] + Varint.Encode(|name|) + name
  {
    OnlyNames(name, []);
    OnlyNames([], name);
    hide Serialize;
    assert BytesField(58, name) + [] == BytesField(58, name);
    assert [] + BytesField(66, name) == BytesField(66, name);
  }

  lemma OnlyNames(service: seq<Byte>, name: seq<Byte>)
    ensures Serialize(Header(0, 0, 0, 0, 0, 0, service, name)) == BytesField(58, service) + BytesField(66, name)
  {
    hide BytesField;
    var names := BytesField(58, service) + BytesField(66, name);
    assert [] + names == names;
  }

  /** A varint wider than its field is cut to the field's width, an enum to its low 32 bits as a signed number. */
  lemma WideVarintIsCut(h: Header, v: UInt64, rest: seq<Byte>)
    ensures Parse(h, [8] + (Varint.Encode(v) + rest)) == Parse(h.(magic := v % 0x1_0000_0000), rest)
    ensures Parse(h, [40] + (Varint.Encode(v) + rest)) == Parse(h.(bodySize := v % 0x1_0000_0000), rest)
    ensures Parse(h, [32] + (Varint.Encode(v) + rest)) == Parse(h.(requestId := v), rest)
    ensures var low := v % 0x1_0000_0000;
      Parse(h, [24] + (Varint.Encode(v) + rest))
        == Parse(h.(msgType := if low < 0x8000_0000 then low else low - 0x1_0000_0000), rest)
  {
    hide Parse, Varint.Encode, FieldTurn, WithVarint;
    CutToWidth(h, v);
    OneVarintField(h, 8, v, rest);
    OneVarintField(h, 40, v, rest);
    OneVarintField(h, 32, v, rest);
    OneVarintField(h, 24, v, rest);
  }

  lemma CutToWidth(h: Header, v: UInt64)
    ensures WithVarint(h, 8, v) == h.(magic := v % 0x1_0000_0000) && WithVarint(h, 40, v) == h.(bodySize := v % 0x1_0000_0000)
    ensures WithVarint(h, 32, v) == h.(requestId := v)
    ensures var low := v % 0x1_0000_0000;
      WithVarint(h, 24, v) == h.(msgType := if low < 0x8000_0000 then low else low - 0x1_0000_0000)
  {
  }

  lemma OneVarintField(h: Header, tag: Byte, v: UInt64, rest: seq<Byte>)
    requires tag in {8, 16, 24, 32, 40, 48}
    ensures Parse(h, [tag] + (Varint.Encode(v) + rest)) == Parse(WithVarint(h, tag, v), rest)
  {
    hide Parse, FieldTurn, WithVarint;
    var s := [tag] + (Varint.Encode(v) + rest);
    VarintTurnRead(h, tag, v, rest);
    ParseTurn(h, s);
    assert s[1 + Varint.Size(v)..] == rest;
  }

  /** An unknown field of any wire type, wherever it stands, leaves the header as it is. */
  lemma UnknownFieldSkipped(h: Header, number: nat, v: UInt64, bytes: seq<Byte>, rest: seq<Byte>)
    requires 8 < number < 0x2000_0000 && |bytes| <= MAX_FIELD
    ensures Parse(h, Varint.Encode(number * 8) + (Varint.Encode(v) + rest)) == Parse(h, rest)
    ensures |bytes| == 8 ==> Parse(h, Varint.Encode(number * 8 + 1) + (bytes + rest)) == Parse(h, rest)
    ensures Parse(h, Varint.Encode(number * 8 + 2) + (Varint.Encode(|bytes|) + (bytes + rest))) == Parse(h, rest)
    ensures |bytes| == 4 ==> Parse(h, Varint.Encode(number * 8 + 5) + (bytes + rest)) == Parse(h, rest)
  {
    hide Parse, Varint.Encode, Varint.Decode;
    Varint.Size64(v);
    Varint.DecodeEncode(v, rest, Varint.MAX_VARINT);
    UnknownTurn(h, number * 8, Varint.Encode(v), rest);
    LengthRead(bytes, rest);
    assert Varint.Encode(|bytes|) + (bytes + rest) == Varint.Encode(|bytes|) + bytes + rest;
    UnknownTurn(h, number * 8 + 2, Varint.Encode(|bytes|) + bytes, rest);
    if |bytes| == 8 { UnknownTurn(h, number * 8 + 1, bytes, rest); }
    if |bytes| == 4 { UnknownTurn(h, number * 8 + 5, bytes, rest); }
  }

  lemma UnknownTurn(h: Header, tag: nat, field: seq<Byte>, rest: seq<Byte>)
    requires 72 <= tag < TWO_32 && !EndsGroup(tag) && Skip(tag, field + rest, MAX_DEPTH) == Some(|field|)
    ensures Parse(h, Varint.Encode(tag) + (field + rest)) == Parse(h, rest)
  {
    hide Skip, Varint.Encode, Varint.Decode, Parse;
    var s := Varint.Encode(tag) + (field + rest);
    Varint.Size32(tag);
    Varint.DecodeEncode(tag, field + rest, Varint.MAX_VARINT32);
    assert s[Varint.Size(tag)..] == field + rest;
    ParseTurn(h, s);
    assert s[Varint.Size(tag) + |field|..] == rest;
  }

  /** An unknown group with groups of the same number nested in it, n deep. */
  function Nested(number: nat, n: nat): seq<Byte> {
    if n == 0 then []
    else Varint.Encode(number * 8 + 3) + (Nested(number, n - 1) + Varint.Encode(number * 8 + 4))
  }

  lemma AnyTagRead(tag: nat, rest: seq<Byte>)
    requires tag < TWO_32
    ensures ReadTag(Varint.Encode(tag) + rest) == Some(Varint.Read(tag, Varint.Size(tag)))
    ensures (Varint.Encode(tag) + rest)[Varint.Size(tag)..] == rest
  {
    hide Varint.Encode, Varint.Decode;
    Varint.Size32(tag);
    Varint.DecodeEncode(tag, rest, Varint.MAX_VARINT32);
  }

  lemma SkipGroupFails(start: nat, s: seq<Byte>, depth: nat, t: Varint.Read)
    requires ReadTag(s) == Some(t) && !EndsGroup(t.value) && t.size <= |s| && Skip(t.value, s[t.size..], depth).None?
    ensures SkipGroup(start, s, depth) == None
  {
    hide Skip, ReadTag;
  }

  lemma SkipNested(tag: nat, s: seq<Byte>, depth: nat)
    requires tag >= 8 && tag % 8 == 3
    ensures Skip(tag, s, depth) == if depth == 0 then None else SkipGroup(tag, s, depth - 1)
  {
    hide SkipGroup;
  }

  lemma {:induction false} GroupsSkipped(number: nat, n: nat, depth: nat, rest: seq<Byte>)
    requires 0 < number < 0x2000_0000
    ensures var end := Varint.Encode(number * 8 + 4);
      SkipGroup(number * 8 + 3, Nested(number, n) + (end + rest), depth)
        == if n <= depth then Some(|Nested(number, n)| + |end|) else None
  {
    hide Varint.Encode, Varint.Decode, Skip, SkipGroup, ReadTag, EndsGroup;
    var start, stop := number * 8 + 3, number * 8 + 4;
    var end := Varint.Encode(stop);
    var s := Nested(number, n) + (end + rest);
    EndTags(number);
    AnyTagRead(stop, rest);
    SkipGroupEnd(start, end + rest, depth, Varint.Read(stop, Varint.Size(stop)));
    if n == 0 {
      assert s == end + rest;
    } else {
      var inner := Nested(number, n - 1);
      var tail := inner + (end + (end + rest));
      assert s == Varint.Encode(start) + tail;
      var t := Varint.Read(start, Varint.Size(start));
      AnyTagRead(start, tail);
      SkipNested(start, tail, depth);
      if depth > 0 {
        GroupsSkipped(number, n - 1, depth - 1, end + rest);
      }
      if n <= depth {
        var k := |inner| + |end|;
        assert s[t.size + k..] == end + rest;
        SkipGroupField(start, s, depth, t, k);
      } else {
        SkipGroupFails(start, s, depth, t);
      }
    }
  }

  lemma EndTags(number: nat)
    ensures !EndsGroup(number * 8 + 3) && EndsGroup(number * 8 + 4)
  {
  }

  /** An unknown group leaves the header as it is if groups are nested at most 100 deep, and fails the parse otherwise. */
  lemma UnknownGroupSkipped(h: Header, number: nat, n: nat, rest: seq<Byte>)
    requires 8 < number < 0x2000_0000 && n > 0
    ensures Parse(h, Nested(number, n) + rest) == if n <= 100 then Parse(h, rest) else None
  {
    hide Varint.Encode, Skip, SkipGroup, ReadTag, EndsGroup, Parse;
    var start, end := number * 8 + 3, Varint.Encode(number * 8 + 4);
    var inner := Nested(number, n - 1);
    EndTags(number);
    GroupsSkipped(number, n - 1, MAX_DEPTH - 1, rest);
    SkipNested(start, inner + (end + rest), MAX_DEPTH);
    assert Nested(number, n) + rest == Varint.Encode(start) + (inner + (end + rest));
    if n <= 100 {
      assert inner + (end + rest) == (inner + end) + rest;
      UnknownTurn(h, start, inner + end, rest);
    } else {
      UnknownFails(h, start, inner + (end + rest));
    }
  }

  lemma UnknownFails(h: Header, tag: nat, rest: seq<Byte>)
    requires 72 <= tag < TWO_32 && !EndsGroup(tag) && Skip(tag, rest, MAX_DEPTH).None?
    ensures Parse(h, Varint.Encode(tag) + rest) == None
  {
    hide Skip, Varint.Encode, Parse, ReadTag;
    AnyTagRead(tag, rest);
    ParseTurn(h, Varint.Encode(tag) + rest);
  }
}
