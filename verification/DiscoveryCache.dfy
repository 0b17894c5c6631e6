/**
  The cache of discovered endpoint lists against what it stands for: the most
  recent non-empty list stored for a key, while it is younger than the TTL. Clock
  reading and locked part of an operation are one step, and the clock never goes
  back.
 */
module DiscoveryCache {
  import opened Common
  import EndpointText

  type Endpoints = seq<EndpointText.Endpoint>

  const TTL_MS := 5000

  datatype Entry = Entry(endpoints: Endpoints, expireAt: int)
  datatype Operation = Store(key: string, endpoints: Endpoints, now: int) | Lookup(key: string, now: int)
  type Cache = map<string, Entry>

  function Apply(c: Cache, op: Operation): Cache {
    match op
    case Store(key, endpoints, now) => if endpoints == [] then c else c[key := Entry(endpoints, now + TTL_MS)]
    case Lookup(key, now) => if key in c && now >= c[key].expireAt then c - {key} else c
  }

  function Run(history: seq<Operation>): Cache {
    if history == [] then map[] else Apply(Run(history[..|history| - 1]), history[|history| - 1])
  }

  function Find(c: Cache, key: string, now: int): Option<Endpoints> {
    if key in c && now < c[key].expireAt then Some(c[key].endpoints) else None
  }

  // ---------------------------------------------------------------- what a lookup is for

  predicate Monotone(history: seq<Operation>) {
    forall i, j :: 0 <= i < j < |history| ==> history[i].now <= history[j].now
  }

  predicate Stores(op: Operation, key: string) {
    op.Store? && op.key == key && op.endpoints != []
  }

  /** Operation i is the most recent non-empty store for the key. */
  predicate Latest(history: seq<Operation>, key: string, i: nat) {
    i < |history| && Stores(history[i], key) && forall j :: i < j < |history| ==> !Stores(history[j], key)
  }

  /** The cached entry is the latest store's; when there is none, either nothing was stored or it is too old by now. */
  ghost predicate KeyOk(history: seq<Operation>, c: Cache, key: string) {
    && (key in c ==> exists i: nat :: Latest(history, key, i) && c[key] == Entry(history[i].endpoints, history[i].now + TTL_MS))
    && (key !in c ==> forall i: nat :: Latest(history, key, i) ==> history[|history| - 1].now >= history[i].now + TTL_MS)
  }

  lemma LatestUnique(history: seq<Operation>, key: string, i: nat, j: nat)
    requires Latest(history, key, i) && Latest(history, key, j)
    ensures i == j
  {
  }

  lemma LatestExtends(history: seq<Operation>, op: Operation, key: string, i: nat)
    requires !Stores(op, key)
    ensures Latest(history + [op], key, i) <==> Latest(history, key, i)
  {
    if Latest(history, key, i) {
      forall j | i < j < |history| + 1 ensures !Stores((history + [op])[j], key) {}
    }
    if Latest(history + [op], key, i) {
      forall j | i < j < |history| ensures !Stores(history[j], key) { assert (history + [op])[j] == history[j]; }
    }
  }

  lemma KeyStep(history: seq<Operation>, op: Operation, key: string)
    requires KeyOk(history, Run(history), key) && Monotone(history + [op])
    ensures KeyOk(history + [op], Apply(Run(history), op), key)
  {
    hide Run;
    var c, c' := Run(history), Apply(Run(history), op);
    var history' := history + [op];
    if Stores(op, key) {
      assert Latest(history', key, |history|);
    } else {
      forall i: nat ensures Latest(history', key, i) <==> Latest(history, key, i) {
        LatestExtends(history, op, key, i);
      }
      if key in c {
        var i: nat :| Latest(history, key, i) && c[key] == Entry(history[i].endpoints, history[i].now + TTL_MS);
        assert Latest(history', key, i) && history'[i] == history[i];
        forall j: nat | Latest(history', key, j) ensures j == i { LatestUnique(history, key, i, j); }
      } else {
        forall i: nat | Latest(history', key, i) ensures op.now >= history'[i].now + TTL_MS {
          assert Latest(history, key, i) && history'[i] == history[i];
          assert history'[|history| - 1].now <= history'[|history|].now;
        }
      }
    }
  }

  lemma {:induction false} RunOk(history: seq<Operation>, key: string)
    requires Monotone(history)
    ensures KeyOk(history, Run(history), key)
  {
    if history != [] {
      var front, last := history[..|history| - 1], history[|history| - 1];
      assert history == front + [last];
      RunOk(front, key);
      KeyStep(front, last, key);
    }
  }

  /**
    After any history a lookup hits if and only if some non-empty list was stored
    for the key and the latest of them is younger than the TTL, and then returns it.
   */
  lemma {:induction false} LookupRefines(history: seq<Operation>, key: string, now: int)
    requires Monotone(history + [Lookup(key, now)])
    ensures Find(Run(history), key, now).Some? <==> exists i: nat :: Latest(history, key, i) && now < history[i].now + TTL_MS
    ensures forall i: nat :: Latest(history, key, i) && now < history[i].now + TTL_MS ==>
      Find(Run(history), key, now) == Some(history[i].endpoints)
  {
    var history' := history + [Lookup(key, now)];
    assert Monotone(history) by {
      forall i, j | 0 <= i < j < |history| ensures history[i].now <= history[j].now {
        assert history'[i].now <= history'[j].now;
      }
    }
    RunOk(history, key);
    var c := Run(history);
    hide Run;
    if key in c {
      var i: nat :| Latest(history, key, i) && c[key] == Entry(history[i].endpoints, history[i].now + TTL_MS);
      forall j: nat | Latest(history, key, j) ensures j == i { LatestUnique(history, key, i, j); }
    } else {
      forall i: nat | Latest(history, key, i) ensures now >= history[i].now + TTL_MS {
        assert history'[|history| - 1].now <= history'[|history|].now;
      }
    }
  }

  // ---------------------------------------------------------------- the code

  class EndpointCache {
    var entries: Cache
    ghost var history: seq<Operation>

    ghost predicate Valid()
      reads this
    {
      entries == Run(history) && Monotone(history)
    }

    /** The clock has not gone back since the last operation. */
    ghost predicate Now(now: int)
      reads this
    {
      history != [] ==> history[|history| - 1].now <= now
    }

    constructor ()
      ensures Valid() && history == []
    {
      entries, history := map[], [];
    }

    method TryGetCachedEndpoints(key: string, now: int) returns (found: Option<Endpoints>)
      requires Valid() && Now(now)
      modifies this
      ensures Valid() && history == old(history) + [Lookup(key, now)]
      ensures found.Some? <==> exists i: nat :: Latest(old(history), key, i) && now < old(history)[i].now + TTL_MS
      ensures forall i: nat :: Latest(old(history), key, i) && now < old(history)[i].now + TTL_MS ==>
        found == Some(old(history)[i].endpoints)
    {
      Extend(Lookup(key, now));
      LookupRefines(history, key, now);
      history := history + [Lookup(key, now)];
      if key !in entries {
        return None;
      }
      if now >= entries[key].expireAt {
        entries := entries - {key};
        return None;
      }
      found := Some(entries[key].endpoints);
    }

    /** An empty list is not stored. */
    method StoreCachedEndpoints(key: string, endpoints: Endpoints, now: int)
      requires Valid() && Now(now)
      modifies this
      ensures Valid() && history == old(history) + [Store(key, endpoints, now)]
    {
      hide Run, Monotone;
      Extend(Store(key, endpoints, now));
      history := history + [Store(key, endpoints, now)];
      if endpoints == [] {
        return;
      }
      entries := entries[key := Entry(endpoints, now + TTL_MS)];
    }

    lemma Extend(op: Operation)
      requires Valid() && Now(op.now)
      ensures Monotone(history + [op]) && Run(history + [op]) == Apply(Run(history), op)
    {
      assert (history + [op])[..|history|] == history;
      forall i, j | 0 <= i < j < |history| + 1 ensures (history + [op])[i].now <= (history + [op])[j].now {
        if j == |history| && i < |history| - 1 {
          assert history[i].now <= history[|history| - 1].now;
        }
      }
    }
  }
}
