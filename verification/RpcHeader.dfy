/** The generated RpcHeader message: its fields and the four generated methods that read or write them. */
module RpcHeader {
  import opened Common
  import opened HeaderCodec
  import Varint

  class RpcHeader {
    var magic: UInt32
    var version: UInt32
    var msgType: Int32
    var requestId: UInt64
    var bodySize: UInt32
    var compressType: Int32
    var serviceName: seq<Byte>
    var methodName: seq<Byte>

    function View(): Header
      reads this
    {
      Header(magic, version, msgType, requestId, bodySize, compressType, serviceName, methodName)
    }

    constructor ()
      ensures View() == EMPTY
    {
      magic, version, msgType, requestId := 0, 0, 0, 0;
      bodySize, compressType, serviceName, methodName := 0, 0, [], [];
    }

    /** Cases 1 to 6 of the parser's switch. */
    method ParseVarintField(tag: nat, rest: seq<Byte>) returns (used: Option<nat>)
      requires tag in {8, 16, 24, 32, 40, 48}
      modifies this
      ensures VarintTurn(old(View()), tag, rest, 0) == if used.Some? then Parsed(View(), used.value) else Failure
    {
      var value := Varint.Decode(rest, Varint.MAX_VARINT);
      if value.None? {
        return None;
      }
      var v, v32, v64 := value.value.value, value.value.value % TWO_32, value.value.value % TWO_64;
      match tag {
        case 8 => magic := v32;
        case 16 => version := v32;
        case 24 => msgType := TruncateToInt32(v64);
        case 32 => requestId := v64;
        case 40 => bodySize := v32;
        case _ => compressType := TruncateToInt32(v64);
      }
      used := Some(value.value.size);
    }

    /** Cases 7 and 8 of the parser's switch. */
    method ParseBytesField(tag: nat, rest: seq<Byte>) returns (used: Option<nat>)
      requires tag == 58 || tag == 66
      modifies this
      ensures BytesTurn(old(View()), tag, rest, 0) == if used.Some? then Parsed(View(), used.value) else Failure
    {
      var length := ReadLength(rest);
      if length.None? {
        return None;
      }
      var v := rest[length.value.size..length.value.size + length.value.value];
      if tag == 58 {
        serviceName := v;
      } else {
        methodName := v;
      }
      used := Some(length.value.size + length.value.value);
    }

    /** Reads the fields of s over the present ones; on failure some fields may have changed already. */
    method InternalParse(s: seq<Byte>) returns (ok: bool)
      modifies this
      ensures ok == Parse(old(View()), s).Some?
      ensures ok ==> View() == Parse(old(View()), s).value
    {
      hide VarintTurn, BytesTurn, Skip, ReadTag, FieldTurn;
      var ptr := 0;
      while ptr < |s|
        invariant ptr <= |s|
        invariant Parse(View(), s[ptr..]) == Parse(old(View()), s)
        decreases |s| - ptr
      {
        var tail := s[ptr..];
        ghost var before := View();
        var read := ReadTag(tail);
        if read.None? {
          FieldTurnCases(before, tail);
          return false;
        }
        var tag := read.value.value;
        var rest := tail[read.value.size..];
        var used: Option<nat>;
        if tag in {8, 16, 24, 32, 40, 48} {
          used := ParseVarintField(tag, rest);
        } else if tag == 58 || tag == 66 {
          used := ParseBytesField(tag, rest);
        } else if tag % 8 == 4 || tag == 0 {
          used := None;
        } else {
          used := Skip(tag, rest, MAX_DEPTH);
        }
        FieldTurnCases(before, tail);
        if used.None? {
          return false;
        }
        assert tail[read.value.size + used.value..] == s[ptr + read.value.size + used.value..];
        ptr := ptr + read.value.size + used.value;
      }
      assert s[ptr..] == [];
      ok := true;
    }

    static method AppendVarint(tag: Byte, v: UInt64, target: seq<Byte>) returns (out: seq<Byte>)
      ensures out == target + VarintField(tag, v)
    {
      out := target;
      if v != 0 {
        out := out + ([tag] + Varint.Encode(v));
      }
    }

    static method AppendBytes(tag: Byte, v: seq<Byte>, target: seq<Byte>) returns (out: seq<Byte>)
      ensures out == target + BytesField(tag, v)
    {
      out := target;
      if |v| > 0 {
        out := out + ([tag] + Varint.Encode(|v|) + v);
      }
    }

    /** Appends the encoded fields that differ from their defaults to target. */
    method InternalSerialize(target: seq<Byte>) returns (out: seq<Byte>)
      ensures out == target + Serialize(View())
    {
      hide VarintField, BytesField;
      out := AppendVarint(8, magic, target);
      out := AppendVarint(16, version, out);
      out := AppendVarint(24, SignExtend(msgType), out);
      out := AppendVarint(32, requestId, out);
      out := AppendVarint(40, bodySize, out);
      out := AppendVarint(48, SignExtend(compressType), out);
      out := AppendBytes(58, serviceName, out);
      out := AppendBytes(66, methodName, out);
      EightParts(target, VarintField(8, magic), VarintField(16, version), VarintField(24, SignExtend(msgType)),
                 VarintField(32, requestId), VarintField(40, bodySize), VarintField(48, SignExtend(compressType)),
                 BytesField(58, serviceName), BytesField(66, methodName));
    }

    /** The size that the writer reserves is the number of bytes it writes. */
    method ByteSizeLong() returns (total: nat)
      ensures total == |Serialize(View())|
    {
      hide Varint.Size, Varint.Encode, EnumSize, SignExtend, Serialize;
      total := 0;
      if |serviceName| > 0 {
        total := total + 1 + Varint.Size(|serviceName|) + |serviceName|;
      }
      assert total == BytesFieldSize(serviceName);
      if |methodName| > 0 {
        total := total + 1 + Varint.Size(|methodName|) + |methodName|;
      }
      ghost var names := BytesFieldSize(serviceName) + BytesFieldSize(methodName);
      assert total == names;
      if magic != 0 {
        total := total + 1 + Varint.Size(magic);
      }
      assert total == names + VarintFieldSize(magic);
      if version != 0 {
        total := total + 1 + Varint.Size(version);
      }
      ghost var t2 := names + VarintFieldSize(magic) + VarintFieldSize(version);
      assert total == t2;
      if requestId != 0 {
        total := total + 1 + Varint.Size(requestId);
      }
      assert total == t2 + VarintFieldSize(requestId);
      if msgType != 0 {
        total := total + 1 + EnumSize(msgType);
      }
      ghost var t4 := t2 + VarintFieldSize(requestId) + EnumFieldSize(msgType);
      assert total == t4;
      if bodySize != 0 {
        total := total + 1 + Varint.Size(bodySize);
      }
      assert total == t4 + VarintFieldSize(bodySize);
      if compressType != 0 {
        total := total + 1 + EnumSize(compressType);
      }
      assert total == t4 + VarintFieldSize(bodySize) + EnumFieldSize(compressType);
      SizeOfFields(View());
    }

    /** The first four fields that MergeFrom looks at. */
    method MergeNamesAndVersion(f: Header)
      modifies this
      ensures var h := old(View());
        View() == h.(serviceName := if |f.serviceName| > 0 then f.serviceName else h.serviceName,
                     methodName := if |f.methodName| > 0 then f.methodName else h.methodName,
                     magic := if f.magic != 0 then f.magic else h.magic,
                     version := if f.version != 0 then f.version else h.version)
    {
      if |f.serviceName| > 0 {
        serviceName := f.serviceName;
      }
      if |f.methodName| > 0 {
        methodName := f.methodName;
      }
      if f.magic != 0 {
        magic := f.magic;
      }
      if f.version != 0 {
        version := f.version;
      }
    }

    /** The last four. */
    method MergeIdsAndSizes(f: Header)
      modifies this
      ensures var h := old(View());
        View() == h.(requestId := if f.requestId != 0 then f.requestId else h.requestId,
                     msgType := if f.msgType != 0 then f.msgType else h.msgType,
                     bodySize := if f.bodySize != 0 then f.bodySize else h.bodySize,
                     compressType := if f.compressType != 0 then f.compressType else h.compressType)
    {
      if f.requestId != 0 {
        requestId := f.requestId;
      }
      if f.msgType != 0 {
        msgType := f.msgType;
      }
      if f.bodySize != 0 {
        bodySize := f.bodySize;
      }
      if f.compressType != 0 {
        compressType := f.compressType;
      }
    }

    method MergeFrom(from: RpcHeader)
      requires from != this
      modifies this
      ensures View() == Merge(old(View()), from.View())
    {
      var f := from.View();
      MergeNamesAndVersion(f);
      MergeIdsAndSizes(f);
    }
  }

  lemma FieldTurnCases(h: Header, s: seq<Byte>)
    ensures FieldTurn(h, s) ==
      match ReadTag(s)
      case None => Failure
      case Some(t) =>
        var rest := s[t.size..];
        var turn :=
          if t.value in {8, 16, 24, 32, 40, 48} then VarintTurn(h, t.value, rest, 0)
          else if t.value == 58 || t.value == 66 then BytesTurn(h, t.value, rest, 0)
          else if t.value % 8 == 4 || t.value == 0 then Failure
          else match Skip(t.value, rest, MAX_DEPTH) case None => Failure case Some(k) => Parsed(h, k);
        match turn case Failure => Failure case Parsed(h', k) => Parsed(h', t.size + k)
  {
    hide Skip, ReadTag;
  }

  lemma EightParts(t: seq<Byte>, a: seq<Byte>, b: seq<Byte>, c: seq<Byte>, d: seq<Byte>,
                   e: seq<Byte>, f: seq<Byte>, g: seq<Byte>, h: seq<Byte>)
    ensures t + a + b + c + d + e + f + g + h == t + (a + (b + (c + (d + (e + (f + (g + h)))))))
  {
  }

  function VarintFieldSize(v: UInt64): nat {
    if v != 0 then 1 + Varint.Size(v) else 0
  }

  function EnumFieldSize(v: Int32): nat {
    if v != 0 then 1 + EnumSize(v) else 0
  }

  function BytesFieldSize(v: seq<Byte>): nat {
    if |v| > 0 then 1 + Varint.Size(|v|) + |v| else 0
  }

  lemma SizeOfFields(h: Header)
    ensures |Serialize(h)| ==
      VarintFieldSize(h.magic) + VarintFieldSize(h.version) + EnumFieldSize(h.msgType) + VarintFieldSize(h.requestId)
      + VarintFieldSize(h.bodySize) + EnumFieldSize(h.compressType) + BytesFieldSize(h.serviceName) + BytesFieldSize(h.methodName)
  {
    hide VarintField, BytesField, VarintFieldSize, EnumFieldSize, BytesFieldSize, SignExtend;
    SizeOfField(8, h.magic);
    SizeOfField(16, h.version);
    SizeOfEnumField(24, h.msgType);
    SizeOfField(32, h.requestId);
    SizeOfField(40, h.bodySize);
    SizeOfEnumField(48, h.compressType);
    SizeOfBytesField(58, h.serviceName);
    SizeOfBytesField(66, h.methodName);
  }

  lemma SizeOfField(tag: Byte, v: UInt64)
    ensures |VarintField(tag, v)| == VarintFieldSize(v)
  {
  }

  lemma SizeOfEnumField(tag: Byte, v: Int32)
    ensures |VarintField(tag, SignExtend(v))| == EnumFieldSize(v)
  {
    EnumSizeIsSize(v);
    SignExtendRoundTrip(v);
  }

  lemma SizeOfBytesField(tag: Byte, v: seq<Byte>)
    ensures |BytesField(tag, v)| == BytesFieldSize(v)
  {
  }

  /** The writer's shortcut for enums: a negative value always takes ten bytes. */
  function EnumSize(v: Int32): nat {
    if v < 0 then 10 else Varint.Size(v)
  }

  lemma EnumSizeIsSize(v: Int32)
    ensures EnumSize(v) == Varint.Size(SignExtend(v))
  {
    if v < 0 {
      NegativeIsTen(SignExtend(v));
    }
  }

  lemma NegativeIsTen(n: nat)
    requires 0x8000_0000_0000_0000 <= n < TWO_64
    ensures Varint.Size(n) == 10
  {
    var a, b, c, d := n / 128, n / 128 / 128, n / 128 / 128 / 128, n / 128 / 128 / 128 / 128;
    var e, f, g, h := d / 128, d / 128 / 128, d / 128 / 128 / 128, d / 128 / 128 / 128 / 128;
    assert h / 128 == 1;
    assert Varint.Size(h) == 2 && Varint.Size(g) == 3 && Varint.Size(f) == 4 && Varint.Size(e) == 5;
    assert Varint.Size(d) == 6 && Varint.Size(c) == 7 && Varint.Size(b) == 8 && Varint.Size(a) == 9;
  }
}
