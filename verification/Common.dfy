/** Types shared by the whole model: bytes, optional values and 32/64-bit widths. */
module Common {

  type Byte = b: nat | b < 256

  datatype Option<+T> = None | Some(value: T)

  const TWO_32: nat := 0x1_0000_0000
  const TWO_64: nat := 0x1_0000_0000_0000_0000
  const INT32_MAX: nat := 0x7fff_ffff

  /** Concatenation of a sequence of byte strings, first one first. */
  function Concat(parts: seq<seq<Byte>>): seq<Byte> {
    if parts == [] then [] else parts[0] + Concat(parts[1..])
  }

  lemma {:induction false} ConcatAppend(xs: seq<seq<Byte>>, ys: seq<seq<Byte>>)
    ensures Concat(xs + ys) == Concat(xs) + Concat(ys)
  {
    if xs == [] {
      assert xs + ys == ys;
    } else {
      ConcatAppend(xs[1..], ys);
      assert (xs + ys)[1..] == xs[1..] + ys;
      assert xs[0] + (Concat(xs[1..]) + Concat(ys)) == xs[0] + Concat(xs[1..]) + Concat(ys);
    }
  }

  lemma ConcatOne(a: seq<Byte>)
    ensures Concat([a]) == a
  {
  }

  lemma ConcatTwo(a: seq<Byte>, b: seq<Byte>)
    ensures Concat([a, b]) == a + b
  {
    assert [a, b][1..] == [b];
    ConcatOne(b);
  }

  lemma Assoc<T>(a: seq<T>, b: seq<T>, c: seq<T>)
    ensures a + (b + c) == a + b + c
  {
  }

  lemma PrefixNext<T>(s: seq<T>, i: nat)
    requires i < |s|
    ensures s[..i] + [s[i]] == s[..i + 1]
  {
  }

  lemma HeadTail<T>(s: seq<T>)
    requires s != []
    ensures [s[0]] + s[1..] == s
  {
  }

  /** What lies beyond k bytes lies there still when more bytes follow. */
  lemma DropAppend<T>(s: seq<T>, more: seq<T>, k: nat)
    requires k <= |s|
    ensures (s + more)[k..] == s[k..] + more
  {
  }

  lemma SliceAppend<T>(s: seq<T>, more: seq<T>, i: nat, j: nat)
    requires i <= j <= |s|
    ensures (s + more)[i..j] == s[i..j]
  {
  }

  /** Having written k elements and then n more of the remainder is having written k + n. */
  lemma WriteMore<T>(before: seq<T>, all: seq<T>, k: nat, n: nat)
    requires k + n <= |all|
    ensures before + all[..k] + all[k..][..n] == before + all[..k + n]
  {
    assert all[..k] + all[k..][..n] == all[..k + n];
  }

  lemma WrittenPrefix<T>(before: seq<T>, all: seq<T>, k: nat)
    requires k <= |all|
    ensures before <= before + all[..k] <= before + all
    ensures before + all[..k] == before + all <==> k == |all|
  {
    assert all == all[..k] + all[k..];
    assert before + all == (before + all[..k]) + all[k..];
    if k == |all| {
      assert all[..k] == all;
    } else {
      assert |before + all[..k]| < |before + all|;
    }
  }

  /** A partial write of b after before + a stays inside a stream that goes on with b and c. */
  lemma PrefixInside<T>(before: seq<T>, a: seq<T>, b: seq<T>, c: seq<T>, sent: seq<T>)
    requires before + a <= sent <= before + a + b
    ensures before <= sent <= before + (a + (b + c))
  {
    assert before + (a + (b + c)) == (before + a + b) + c;
    assert before <= before + a;
  }

  lemma Middle<T>(a: seq<T>, v: seq<T>, rest: seq<T>)
    ensures (a + (v + rest))[|a|..|a| + |v|] == v
  {
    assert a + (v + rest) == (a + v) + rest;
  }

  lemma DivModUnique(a: int, n: nat, q: int, r: nat)
    requires n > 0 && r < n && a == q * n + r
    ensures a / n == q && a % n == r
  {
    var d := a / n - q;
    assert d * n == r - a % n;
    MultipleGap(d, n);
  }

  lemma NonNegative(a: nat, b: nat)
    ensures a * b >= 0
  {
  }

  lemma MultipleGap(d: int, n: nat)
    ensures d > 0 ==> d * n >= n
    ensures d < 0 ==> d * n + n <= 0
  {
    if d > 0 {
      NonNegative(d - 1, n);
      assert d * n == (d - 1) * n + n;
    } else if d < 0 {
      NonNegative(-d - 1, n);
      assert d * n == -((-d - 1) * n) - n;
    }
  }
}
