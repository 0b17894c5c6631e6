/** Endpoints as text: `host:port`, comma-separated lists, and the keys built from them. */
module EndpointText {
  import opened Common

  type Port = p: nat | p < 0x1_0000

  datatype Endpoint = Endpoint(host: string, port: Port)

  const COLON: char := ':'
  const COMMA: char := ','

  // ---------------------------------------------------------------- numbers

  predicate IsDigit(c: char) {
    '0' <= c <= '9'
  }

  function Digit(d: nat): (c: char)
    requires d < 10
    ensures IsDigit(c) && DigitValue(c) == d
  {
    "0123456789"[d]
  }

  function DigitValue(c: char): (d: nat)
    requires IsDigit(c)
    ensures d < 10
  {
    c as int - '0' as int
  }

  /** std::to_string of a number that is not negative. */
  function ToString(n: nat): (s: string)
    ensures s != [] && forall i :: 0 <= i < |s| ==> IsDigit(s[i])
  {
    if n < 10 then [Digit(n)] else ToString(n / 10) + [Digit(n % 10)]
  }

  function LeadingDigits(s: string): (k: nat)
    ensures k <= |s| && forall i :: 0 <= i < k ==> IsDigit(s[i])
  {
    if s != [] && IsDigit(s[0]) then 1 + LeadingDigits(s[1..]) else 0
  }

  function ValueOf(s: string): nat
    requires forall i :: 0 <= i < |s| ==> IsDigit(s[i])
  {
    if s == [] then 0 else ValueOf(s[..|s| - 1]) * 10 + DigitValue(s[|s| - 1])
  }

  predicate IsSpace(c: char) {
    c == ' ' || '\t' <= c <= '\r'
  }

  function SkipSpaces(s: string): string {
    if s != [] && IsSpace(s[0]) then SkipSpaces(s[1..]) else s
  }

  /** std::stoi: spaces, a sign, digits, anything; nothing for no digits or a value beyond 32 bits. */
  function Stoi(s: string): Option<int> {
    var t := SkipSpaces(s);
    var negative := t != [] && t[0] == '-';
    var u := if t != [] && (t[0] == '-' || t[0] == '+') then t[1..] else t;
    var k := LeadingDigits(u);
    if k == 0 then None
    else
      var v := ValueOf(u[..k]) * (if negative then -1 else 1);
      if -0x8000_0000 <= v <= 0x7fff_ffff then Some(v) else None
  }

  // ---------------------------------------------------------------- endpoints

  function Find(s: string, c: char): (r: Option<nat>)
    ensures r.Some? ==> r.value < |s| && s[r.value] == c && c !in s[..r.value]
    ensures r.None? <==> c !in s
  {
    if s == [] then None
    else if s[0] == c then Some(0)
    else match Find(s[1..], c)
      case None => None
      case Some(k) => assert s[..k + 1] == [s[0]] + s[1..][..k]; Some(k + 1)
  }

  /** The key of pool and cooldown entries. */
  function KeyOf(ep: Endpoint): string {
    ep.host + [COLON] + ToString(ep.port)
  }

  function ParseEndpoint(s: string): Option<Endpoint> {
    match Find(s, COLON)
    case None => None
    case Some(pos) =>
      match Stoi(s[pos + 1..])
      case None => None
      case Some(v) => if v % 0x1_0000 == 0 then None else Some(Endpoint(s[..pos], v % 0x1_0000))
  }

  function OneOrNone(ep: Option<Endpoint>): seq<Endpoint> {
    if ep.Some? then [ep.value] else []
  }

  function ParseList(s: string): seq<Endpoint> {
    if s == [] then []
    else match Find(s, COMMA)
      case None => OneOrNone(ParseEndpoint(s))
      case Some(k) => OneOrNone(ParseEndpoint(s[..k])) + ParseList(s[k + 1..])
  }

  function PrintList(eps: seq<Endpoint>): string {
    if eps == [] then []
    else if |eps| == 1 then KeyOf(eps[0])
    else KeyOf(eps[0]) + [COMMA] + PrintList(eps[1..])
  }

  lemma ParseListStep(s: string)
    ensures ParseList(s) ==
      if s == [] then []
      else match Find(s, COMMA)
        case None => OneOrNone(ParseEndpoint(s)) + []
        case Some(k) => OneOrNone(ParseEndpoint(s[..k])) + ParseList(s[k + 1..])
  {
    hide ParseEndpoint, Find;
  }

  /** The splitting loop of InitStaticEndpoints. */
  method SplitEndpoints(list: string) returns (eps: seq<Endpoint>)
    ensures eps == ParseList(list)
  {
    hide ParseEndpoint, Find, ParseList;
    eps := [];
    var start := 0;
    assert list[0..] == list;
    while start < |list|
      invariant start <= |list|
      invariant eps + ParseList(list[start..]) == ParseList(list)
      decreases |list| - start
    {
      var tail := list[start..];
      var comma := Find(tail, COMMA);
      var token := if comma.None? then tail else tail[..comma.value];
      var ep := ParseEndpoint(token);
      ghost var before, rest := eps, if comma.None? then [] else ParseList(tail[comma.value + 1..]);
      ParseListStep(tail);
      if ep.Some? {
        eps := eps + [ep.value];
      }
      Assoc(before, OneOrNone(ep), rest);
      assert eps == before + OneOrNone(ep);
      if comma.None? {
        return;
      }
      assert tail[comma.value + 1..] == list[start + comma.value + 1..];
      start := start + comma.value + 1;
    }
    assert list[start..] == [];
    ParseListStep([]);
  }

  // ---------------------------------------------------------------- round trips

  lemma {:induction false} ValueOfToString(n: nat)
    ensures ValueOf(ToString(n)) == n
  {
    if n >= 10 {
      ValueOfToString(n / 10);
      var s := ToString(n);
      assert s[..|s| - 1] == ToString(n / 10);
    }
  }

  lemma {:induction false} AllLeading(s: string)
    requires forall i :: 0 <= i < |s| ==> IsDigit(s[i])
    ensures LeadingDigits(s) == |s|
  {
    if s != [] {
      AllLeading(s[1..]);
    }
  }

  lemma NoSpaces(s: string)
    requires s != [] && IsDigit(s[0])
    ensures SkipSpaces(s) == s
  {
  }

  lemma StoiToString(n: nat)
    ensures Stoi(ToString(n)) == if n <= 0x7fff_ffff then Some(n) else None
  {
    hide SkipSpaces, ValueOf, LeadingDigits;
    var s := ToString(n);
    NoSpaces(s);
    AllLeading(s);
    ValueOfToString(n);
    assert IsDigit(s[0]);
    assert s[..|s|] == s;
  }

  lemma {:induction false} FindAfter(a: string, c: char, b: string)
    requires c !in a
    ensures Find(a + [c] + b, c) == Some(|a|)
  {
    if a != [] {
      FindAfter(a[1..], c, b);
      assert (a + [c] + b)[1..] == a[1..] + [c] + b;
      assert a[0] != c;
    }
  }

  lemma {:induction false} SpacesSkipped(spaces: string, t: string)
    requires forall i :: 0 <= i < |spaces| ==> IsSpace(spaces[i])
    requires t != [] && !IsSpace(t[0])
    ensures SkipSpaces(spaces + t) == t
  {
    if spaces == [] {
      assert spaces + t == t;
    } else {
      SpacesSkipped(spaces[1..], t);
      assert (spaces + t)[1..] == spaces[1..] + t;
    }
  }

  lemma {:induction false} DigitsUpToJunk(digits: string, junk: string)
    requires forall i :: 0 <= i < |digits| ==> IsDigit(digits[i])
    requires junk == [] || !IsDigit(junk[0])
    ensures LeadingDigits(digits + junk) == |digits|
  {
    if digits == [] {
      assert digits + junk == junk;
    } else {
      DigitsUpToJunk(digits[1..], junk);
      assert (digits + junk)[1..] == digits[1..] + junk;
    }
  }

  function Signed(sign: string, n: nat): int {
    if sign == "-" then 0 - n else n
  }

  /** Spaces and a sign in front of a number and anything but a digit behind it do not keep std::stoi from reading it. */
  lemma StoiReads(spaces: string, sign: string, n: nat, junk: string)
    requires forall i :: 0 <= i < |spaces| ==> IsSpace(spaces[i])
    requires sign in {"", "+", "-"} && (junk == [] || !IsDigit(junk[0]))
    ensures var v := Signed(sign, n);
      Stoi(spaces + (sign + (ToString(n) + junk))) == if -0x8000_0000 <= v <= 0x7fff_ffff then Some(v) else None
  {
    hide SkipSpaces, ValueOf, LeadingDigits, ToString;
    var digits := ToString(n);
    var u := digits + junk;
    assert IsDigit(digits[0]) && u[0] == digits[0] && u[..|digits|] == digits;
    assert sign + u != [] && !IsSpace((sign + u)[0]);
    SpacesSkipped(spaces, sign + u);
    DigitsUpToJunk(digits, junk);
    ValueOfToString(n);
    SignRemoved(sign, u);
  }

  lemma SignRemoved(sign: string, u: string)
    requires sign in {"", "+", "-"} && u != [] && IsDigit(u[0])
    ensures var t := sign + u;
      && (if t[0] == '-' || t[0] == '+' then t[1..] else t) == u
      && (t[0] == '-' <==> sign == "-")
  {
    if sign == "" {
      assert sign + u == u;
    } else {
      assert (sign + u)[1..] == u;
    }
  }

  /**
    What parsing makes of a host, a colon and a number: numbers beyond 32 bits and
    multiples of 65536 are refused and others silently reduced to 16 bits, whatever
    spaces, sign and trailing text come with them.
   */
  lemma ParseNumber(host: string, spaces: string, sign: string, n: nat, junk: string)
    requires COLON !in host && forall i :: 0 <= i < |spaces| ==> IsSpace(spaces[i])
    requires sign in {"", "+", "-"} && (junk == [] || !IsDigit(junk[0]))
    ensures var v := Signed(sign, n);
      ParseEndpoint(host + [COLON] + (spaces + (sign + (ToString(n) + junk))))
        == if v < -0x8000_0000 || v > 0x7fff_ffff || v % 0x1_0000 == 0 then None else Some(Endpoint(host, v % 0x1_0000))
  {
    var number := spaces + (sign + (ToString(n) + junk));
    var s := host + [COLON] + number;
    FindAfter(host, COLON, number);
    assert s[|host| + 1..] == number && s[..|host|] == host;
    hide Stoi, ToString;
    StoiReads(spaces, sign, n, junk);
  }

  /** Without a colon, or without a digit where the number should begin, nothing is parsed. */
  lemma ParseRefuses(host: string, spaces: string, rest: string)
    requires COLON !in host && forall i :: 0 <= i < |spaces| ==> IsSpace(spaces[i])
    requires rest != [] && !IsSpace(rest[0]) && !IsDigit(rest[0]) && rest[0] != '+' && rest[0] != '-'
    ensures ParseEndpoint(host) == None && ParseEndpoint(host + [COLON] + (spaces + rest)) == None
  {
    var s := host + [COLON] + (spaces + rest);
    FindAfter(host, COLON, spaces + rest);
    assert s[|host| + 1..] == spaces + rest;
    SpacesSkipped(spaces, rest);
  }

  /**
    A printed endpoint comes back exactly when its port is from 1 to 65535; larger
    ports come back reduced, or not at all.
   */
  lemma ParsePrinted(host: string, n: nat)
    requires COLON !in host
    ensures ParseEndpoint(host + [COLON] + ToString(n))
         == if n > 0x7fff_ffff || n % 0x1_0000 == 0 then None else Some(Endpoint(host, n % 0x1_0000))
  {
    ParseNumber(host, "", "", n, "");
    assert "" + ("" + (ToString(n) + "")) == ToString(n);
  }

  /** Decimal text: the last digit is the remainder by ten, and what stands before it is the quotient. */
  lemma DecimalText(n: nat)
    ensures var s := ToString(n); var last := |s| - 1;
      s[last] as int == '0' as int + n % 10 && s[..last] == if n < 10 then "" else ToString(n / 10)
  {
  }

  predicate Printable(ep: Endpoint) {
    COLON !in ep.host && COMMA !in ep.host && ep.port > 0
  }

  lemma NoCommaInKey(ep: Endpoint)
    requires COMMA !in ep.host
    ensures COMMA !in KeyOf(ep)
  {
    forall i | 0 <= i < |KeyOf(ep)| ensures KeyOf(ep)[i] != COMMA {
      if i < |ep.host| {
        assert KeyOf(ep)[i] == ep.host[i];
      } else if i > |ep.host| {
        assert IsDigit(ToString(ep.port)[i - |ep.host| - 1]);
      }
    }
  }

  lemma ParseOne(token: string)
    requires COMMA !in token && token != []
    ensures ParseList(token) == OneOrNone(ParseEndpoint(token))
  {
    hide ParseEndpoint;
  }

  lemma ParseFirst(token: string, rest: string)
    requires COMMA !in token
    ensures ParseList(token + [COMMA] + rest) == OneOrNone(ParseEndpoint(token)) + ParseList(rest)
  {
    hide ParseEndpoint;
    var s := token + [COMMA] + rest;
    FindAfter(token, COMMA, rest);
    assert s[..|token|] == token && s[|token| + 1..] == rest;
  }

  lemma KeyParses(ep: Endpoint)
    requires Printable(ep)
    ensures KeyOf(ep) != [] && COMMA !in KeyOf(ep) && ParseEndpoint(KeyOf(ep)) == Some(ep)
  {
    hide ParseEndpoint, ToString;
    NoCommaInKey(ep);
    ParsePrinted(ep.host, ep.port);
    assert KeyOf(ep)[|ep.host|] == COLON;
  }

  /** Printing endpoints and splitting the list again gives the same endpoints in the same order. */
  lemma {:induction false} ListRoundTrip(eps: seq<Endpoint>)
    requires forall i :: 0 <= i < |eps| ==> Printable(eps[i])
    ensures ParseList(PrintList(eps)) == eps
  {
    hide ParseEndpoint, KeyOf, ParseList, Printable;
    if eps == [] {
      ParseListStep([]);
    } else {
      KeyParses(eps[0]);
      if |eps| == 1 {
        ParseOne(KeyOf(eps[0]));
      } else {
        ParseFirst(KeyOf(eps[0]), PrintList(eps[1..]));
        ListRoundTrip(eps[1..]);
      }
    }
  }

  lemma LastColon(ep: Endpoint)
    ensures var k := KeyOf(ep);
      k[|ep.host|] == COLON && forall i :: |ep.host| < i < |k| ==> k[i] != COLON
  {
    forall i | |ep.host| < i < |KeyOf(ep)| ensures KeyOf(ep)[i] != COLON {
      assert KeyOf(ep)[i] == ToString(ep.port)[i - |ep.host| - 1];
    }
  }

  /** Keys never mix endpoints, whatever the hosts contain. */
  lemma KeyInjective(a: Endpoint, b: Endpoint)
    requires KeyOf(a) == KeyOf(b)
    ensures a == b
  {
    var k := KeyOf(a);
    LastColon(a);
    LastColon(b);
    assert |a.host| == |b.host|;
    assert k[..|a.host|] == a.host && k[..|b.host|] == b.host;
    assert k[|a.host| + 1..] == ToString(a.port) && k[|b.host| + 1..] == ToString(b.port);
    ValueOfToString(a.port);
    ValueOfToString(b.port);
  }
}
