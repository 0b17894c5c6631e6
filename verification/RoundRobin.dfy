/** Round-robin selection over a counter that all channels share. */
module RoundRobin {
  import opened Common
  import opened EndpointText

  class GlobalIndex {
    var next: nat

    constructor ()
      ensures next == 0
    {
      next := 0;
    }
  }

  class RoundRobinLoadBalancer {
    const index: GlobalIndex
    var nodes: seq<Endpoint>

    constructor (index: GlobalIndex)
      ensures this.index == index && nodes == []
    {
      this.index, this.nodes := index, [];
    }

    method UpdateNodes(nodes: seq<Endpoint>)
      modifies this
      ensures this.nodes == nodes
    {
      this.nodes := nodes;
    }

    method Select() returns (picked: Option<Endpoint>)
      modifies index
      ensures picked.None? <==> nodes == []
      ensures nodes == [] ==> index.next == old(index.next)
      ensures nodes != [] ==> index.next == old(index.next) + 1 && picked == Some(nodes[old(index.next) % |nodes|])
    {
      if nodes == [] {
        return None;
      }
      var i := index.next % |nodes|;
      index.next := index.next + 1;
      picked := Some(nodes[i]);
    }
  }

  /** How often node j is picked by k selections in a row when the counter stands at start. */
  function Picks(start: nat, k: nat, n: nat, j: nat): nat
    requires n > 0
  {
    if k == 0 then 0 else Picks(start, k - 1, n, j) + if (start + k - 1) % n == j then 1 else 0
  }

  /** Steps from the counter to its next value that picks node j. */
  function FirstPick(start: nat, n: nat, j: nat): (f: nat)
    requires j < n
    ensures f < n
  {
    (j + n - start % n) % n
  }

  lemma PickedWhen(start: nat, k: nat, n: nat, j: nat)
    requires j < n
    ensures (start + k) % n == j <==> k % n == FirstPick(start, n, j)
  {
    var s, t := start % n, k % n;
    var qs, qk := start / n, k / n;
    if s + t < n {
      assert start + k == (qs + qk) * n + (s + t);
      DivModUnique(start + k, n, qs + qk, s + t);
    } else {
      assert start + k == (qs + qk + 1) * n + (s + t - n);
      DivModUnique(start + k, n, qs + qk + 1, s + t - n);
    }
    if s <= j {
      DivModUnique(j + n - s, n, 1, j - s);
    } else {
      DivModUnique(j + n - s, n, 0, j + n - s);
    }
  }

  lemma {:induction false} PicksFormula(start: nat, k: nat, n: nat, j: nat)
    requires j < n
    ensures Picks(start, k, n, j) == (k + n - 1 - FirstPick(start, n, j)) / n
  {
    var f := FirstPick(start, n, j);
    if k == 0 {
      DivModUnique(n - 1 - f, n, 0, n - 1 - f);
    } else {
      PicksFormula(start, k - 1, n, j);
      PickedWhen(start, k - 1, n, j);
      var q, t := (k - 1) / n, (k - 1) % n;
      assert k - 1 == q * n + t;
      if t < f {
        DivModUnique(k - 1 + n - 1 - f, n, q, t + n - 1 - f);
        DivModUnique(k + n - 1 - f, n, q, t + n - f);
      } else if t == f {
        DivModUnique(k - 1 + n - 1 - f, n, q, n - 1);
        assert k + n - 1 - f == (q + 1) * n + 0;
        DivModUnique(k + n - 1 - f, n, q + 1, 0);
      } else {
        assert k - 1 + n - 1 - f == (q + 1) * n + (t - 1 - f);
        DivModUnique(k - 1 + n - 1 - f, n, q + 1, t - 1 - f);
        assert k + n - 1 - f == (q + 1) * n + (t - f);
        DivModUnique(k + n - 1 - f, n, q + 1, t - f);
      }
    }
  }

  /** Any k selections in a row pick each of n nodes floor(k/n) or ceil(k/n) times, wherever the counter stands. */
  lemma Balanced(start: nat, k: nat, n: nat, j: nat)
    requires j < n
    ensures k / n <= Picks(start, k, n, j) <= (k + n - 1) / n
  {
    PicksFormula(start, k, n, j);
    var f := FirstPick(start, n, j);
    DivMonotone(k, k + n - 1 - f, n);
    DivMonotone(k + n - 1 - f, k + n - 1, n);
  }

  lemma DivMonotone(a: nat, b: nat, n: nat)
    requires n > 0 && a <= b
    ensures a / n <= b / n
  {
    var d := a / n - b / n;
    assert d * n == (a - a % n) - (b - b % n);
    MultipleGap(d, n);
  }
}
