/** The order in which the object cache forgets: what was used least recently leaves first. */
module CacheOrder {
  import opened Bytes
  import opened Cache

  // ----- Uses -----

  /** Operation `i` of a run uses the key: it writes an entry that the cache takes, or it reads one that is there. */
  predicate UseAt(c: Config, ops: seq<Op>, i: nat, key: string)
    requires c.capacity > 0
  {
    i < |ops| &&
    match ops[i]
    case Get(k, now) => k == key && GetOf(Run(c, ops[..i]), k, now).1.Some?
    case Put(k, e) => k == key && c.enabled && 2 * |e.data| <= c.maxSize
  }

  /** The number of the last operation that uses the key, or -1. */
  function LastUse(c: Config, ops: seq<Op>, key: string): (n: int)
    requires c.capacity > 0
    ensures -1 <= n < |ops|
  {
    if ops == [] then -1
    else if UseAt(c, ops, |ops| - 1, key) then |ops| - 1
    else LastUse(c, ops[..|ops| - 1], key)
  }

  lemma {:induction false} UseBefore(c: Config, ops: seq<Op>, op: Op, i: nat, key: string)
    requires c.capacity > 0 && i < |ops|
    ensures UseAt(c, ops + [op], i, key) <==> UseAt(c, ops, i, key)
  {
    assert (ops + [op])[..i] == ops[..i] && (ops + [op])[i] == ops[i];
  }

  lemma {:induction false} LastUseMeans(c: Config, ops: seq<Op>, key: string)
    requires c.capacity > 0
    ensures var n := LastUse(c, ops, key);
      && (n >= 0 ==> UseAt(c, ops, n, key))
      && forall j: nat :: n < j < |ops| ==> !UseAt(c, ops, j, key)
  {
    if ops != [] {
      var past, op := ops[..|ops| - 1], ops[|ops| - 1];
      assert past + [op] == ops;
      LastUseMeans(c, past, key);
      forall j: nat | j < |past|
        ensures UseAt(c, ops, j, key) <==> UseAt(c, past, j, key)
      {
        UseBefore(c, past, op, j, key);
      }
    }
  }

  lemma {:induction false} LastUseNext(c: Config, ops: seq<Op>, op: Op, key: string)
    requires c.capacity > 0
    ensures LastUse(c, ops + [op], key) ==
      if UseAt(c, ops + [op], |ops|, key) then |ops| else LastUse(c, ops, key)
  {
    assert (ops + [op])[..|ops|] == ops;
  }

  // ----- The list is in the order of last uses -----

  /** All slots were last used before operation `n`. */
  predicate Older(c: Config, ops: seq<Op>, lru: seq<Slot>, n: int)
    requires c.capacity > 0
  {
    lru == [] || (LastUse(c, ops, lru[0].key) < n && Older(c, ops, lru[1..], n))
  }

  predicate Ordered(c: Config, ops: seq<Op>, lru: seq<Slot>)
    requires c.capacity > 0
  {
    lru == [] || (Older(c, ops, lru[1..], LastUse(c, ops, lru[0].key)) && Ordered(c, ops, lru[1..]))
  }

  lemma {:induction false} OlderWithout(c: Config, ops: seq<Op>, lru: seq<Slot>, key: string, n: int)
    requires c.capacity > 0 && Older(c, ops, lru, n)
    ensures Older(c, ops, Without(lru, key), n)
  {
    if lru != [] {
      OlderWithout(c, ops, lru[1..], key, n);
      assert ([lru[0]] + Without(lru[1..], key))[1..] == Without(lru[1..], key);
    }
  }

  lemma {:induction false} OrderedWithout(c: Config, ops: seq<Op>, lru: seq<Slot>, key: string)
    requires c.capacity > 0 && Ordered(c, ops, lru)
    ensures Ordered(c, ops, Without(lru, key))
  {
    if lru != [] {
      OrderedWithout(c, ops, lru[1..], key);
      OlderWithout(c, ops, lru[1..], key, LastUse(c, ops, lru[0].key));
      assert ([lru[0]] + Without(lru[1..], key))[1..] == Without(lru[1..], key);
    }
  }

  lemma {:induction false} OlderFirst(c: Config, ops: seq<Op>, lru: seq<Slot>, m: nat, n: int)
    requires c.capacity > 0 && m <= |lru| && Older(c, ops, lru, n)
    ensures Older(c, ops, lru[..m], n)
  {
    if m > 0 {
      OlderFirst(c, ops, lru[1..], m - 1, n);
      assert lru[..m][1..] == lru[1..][..m - 1];
    }
  }

  lemma {:induction false} OrderedFirst(c: Config, ops: seq<Op>, lru: seq<Slot>, m: nat)
    requires c.capacity > 0 && m <= |lru| && Ordered(c, ops, lru)
    ensures Ordered(c, ops, lru[..m])
  {
    if m > 0 {
      OrderedFirst(c, ops, lru[1..], m - 1);
      OlderFirst(c, ops, lru[1..], m - 1, LastUse(c, ops, lru[0].key));
      assert lru[..m][1..] == lru[1..][..m - 1];
    }
  }

  /** The operation does not use any of these. */
  predicate Unused(c: Config, ops: seq<Op>, op: Op, lru: seq<Slot>)
    requires c.capacity > 0
  {
    lru == [] || (!UseAt(c, ops + [op], |ops|, lru[0].key) && Unused(c, ops, op, lru[1..]))
  }

  lemma {:induction false} OlderNext(c: Config, ops: seq<Op>, op: Op, lru: seq<Slot>, n: int)
    requires c.capacity > 0 && Older(c, ops, lru, n) && Unused(c, ops, op, lru)
    ensures Older(c, ops + [op], lru, n)
  {
    if lru != [] {
      LastUseNext(c, ops, op, lru[0].key);
      OlderNext(c, ops, op, lru[1..], n);
    }
  }

  lemma {:induction false} OrderedNext(c: Config, ops: seq<Op>, op: Op, lru: seq<Slot>)
    requires c.capacity > 0 && Ordered(c, ops, lru) && Unused(c, ops, op, lru)
    ensures Ordered(c, ops + [op], lru)
  {
    if lru != [] {
      LastUseNext(c, ops, op, lru[0].key);
      OlderNext(c, ops, op, lru[1..], LastUse(c, ops, lru[0].key));
      OrderedNext(c, ops, op, lru[1..]);
    }
  }

  lemma {:induction false} AllOlder(c: Config, ops: seq<Op>, lru: seq<Slot>)
    requires c.capacity > 0
    ensures Older(c, ops, lru, |ops|)
  {
    if lru != [] {
      AllOlder(c, ops, lru[1..]);
    }
  }

  function KeyOf(op: Op): string {
    match op
    case Get(key, _) => key
    case Put(key, _) => key
  }

  lemma {:induction false} UnusedOthers(c: Config, ops: seq<Op>, op: Op, lru: seq<Slot>)
    requires c.capacity > 0 && Lookup(lru, KeyOf(op)).None?
    ensures Unused(c, ops, op, lru)
  {
    if lru != [] {
      assert (ops + [op])[|ops|] == op;
      UnusedOthers(c, ops, op, lru[1..]);
    }
  }

  lemma {:induction false} UnusedAny(c: Config, ops: seq<Op>, op: Op, lru: seq<Slot>)
    requires c.capacity > 0 && !UseAt(c, ops + [op], |ops|, KeyOf(op))
    ensures Unused(c, ops, op, lru)
  {
    if lru != [] {
      assert (ops + [op])[|ops|] == op;
      UnusedAny(c, ops, op, lru[1..]);
    }
  }

  /** A used key goes to the front of those that stay. */
  lemma {:induction false} OrderedFront(c: Config, ops: seq<Op>, op: Op, slot: Slot, rest: seq<Slot>)
    requires c.capacity > 0 && Ordered(c, ops, rest) && slot.key == KeyOf(op) && Lookup(rest, slot.key).None?
    requires UseAt(c, ops + [op], |ops|, slot.key)
    ensures Ordered(c, ops + [op], [slot] + rest)
  {
    UnusedOthers(c, ops, op, rest);
    OrderedNext(c, ops, op, rest);
    AllOlder(c, ops, rest);
    OlderNext(c, ops, op, rest, |ops|);
    LastUseNext(c, ops, op, slot.key);
    assert ([slot] + rest)[1..] == rest;
  }

  // ----- Operations -----

  lemma {:induction false} GetOrdered(c: Config, ops: seq<Op>, key: string, now: nat)
    requires c.capacity > 0 && Ordered(c, ops, Run(c, ops).lru)
    ensures Ordered(c, ops + [Get(key, now)], GetOf(Run(c, ops), key, now).0.lru)
  {
    var st, op := Run(c, ops), Get(key, now);
    var e := Lookup(st.lru, key);
    assert (ops + [op])[..|ops|] == ops && (ops + [op])[|ops|] == op;
    OrderedWithout(c, ops, st.lru, key);
    WithoutLookup(st.lru, key);
    if GetOf(st, key, now).1.Some? {
      OrderedFront(c, ops, op, Slot(key, e.value), Without(st.lru, key));
    } else {
      UnusedAny(c, ops, op, GetOf(st, key, now).0.lru);
      OrderedNext(c, ops, op, GetOf(st, key, now).0.lru);
    }
  }

  /** Eviction keeps a first part of the list. */
  lemma {:induction false} EvictedFirst(st: State, need: nat, maxSize: nat) returns (n: nat)
    ensures n <= |st.lru| && Evicted(st, need, maxSize).lru == st.lru[..n]
    decreases |st.lru|
  {
    n := |st.lru|;
    if st.currentSize + need > maxSize && st.lru != [] {
      var k := n - 1;
      n := EvictedFirst(State(st.lru[..k], SaturatingSub(st.currentSize, Size(st.lru[k].entry))), need, maxSize);
      assert st.lru[..k][..n] == st.lru[..n];
    }
  }

  /** What an accepted write leaves of the list behind its own slot. */
  lemma {:induction false} PutParts(c: Config, st: State, key: string, e: Entry) returns (n: nat, m: nat)
    requires c.capacity > 0 && Accepts(c, e)
    ensures n <= |st.lru| && m <= |Without(st.lru[..n], key)|
    ensures PutOf(c, st, key, e).lru == [Slot(key, e)] + Without(st.lru[..n], key)[..m]
  {
    n := EvictedFirst(st, Size(e), c.maxSize);
    var rest := Without(st.lru[..n], key);
    m := if |rest| >= c.capacity then |rest| - 1 else |rest|;
  }

  lemma {:induction false} LookupFirst(lru: seq<Slot>, m: nat, key: string)
    requires m <= |lru| && Lookup(lru, key).None?
    ensures Lookup(lru[..m], key).None?
  {
    if m > 0 {
      LookupFirst(lru[1..], m - 1, key);
      assert lru[..m][1..] == lru[1..][..m - 1];
    }
  }

  lemma {:induction false} PutOrdered(c: Config, ops: seq<Op>, key: string, e: Entry)
    requires c.capacity > 0 && Ordered(c, ops, Run(c, ops).lru)
    ensures Ordered(c, ops + [Put(key, e)], PutOf(c, Run(c, ops), key, e).lru)
  {
    var st, op := Run(c, ops), Put(key, e);
    assert (ops + [op])[|ops|] == op;
    if Accepts(c, e) {
      var n, m := PutParts(c, st, key, e);
      var rest := Without(st.lru[..n], key);
      OrderedFirst(c, ops, st.lru, n);
      OrderedWithout(c, ops, st.lru[..n], key);
      WithoutLookup(st.lru[..n], key);
      OrderedFirst(c, ops, rest, m);
      LookupFirst(rest, m, key);
      OrderedFront(c, ops, op, Slot(key, e), rest[..m]);
    } else {
      UnusedAny(c, ops, op, st.lru);
      OrderedNext(c, ops, op, st.lru);
    }
  }

  lemma {:induction false} RunOrdered(c: Config, ops: seq<Op>)
    requires c.capacity > 0
    ensures Ordered(c, ops, Run(c, ops).lru)
  {
    if ops != [] {
      var past, op := ops[..|ops| - 1], ops[|ops| - 1];
      RunOrdered(c, past);
      assert past + [op] == ops;
      match op
      case Get(key, now) => GetOrdered(c, past, key, now);
      case Put(key, e) => PutOrdered(c, past, key, e);
    }
  }

  lemma {:induction false} OlderAt(c: Config, ops: seq<Op>, lru: seq<Slot>, n: int, y: nat)
    requires c.capacity > 0 && Older(c, ops, lru, n) && y < |lru|
    ensures LastUse(c, ops, lru[y].key) < n
  {
    if y > 0 {
      OlderAt(c, ops, lru[1..], n, y - 1);
    }
  }

  lemma {:induction false} OrderedAt(c: Config, ops: seq<Op>, lru: seq<Slot>, x: nat, y: nat)
    requires c.capacity > 0 && Ordered(c, ops, lru) && x < y < |lru|
    ensures LastUse(c, ops, lru[y].key) < LastUse(c, ops, lru[x].key)
  {
    if x == 0 {
      OlderAt(c, ops, lru[1..], LastUse(c, ops, lru[0].key), y - 1);
    } else {
      OrderedAt(c, ops, lru[1..], x - 1, y - 1);
    }
  }

  /** After any run, of two entries held the one in front was used after the last use of the other. */
  lemma {:induction false} RecentInFront(c: Config, ops: seq<Op>, x: nat, y: nat) returns (i: nat)
    requires c.capacity > 0 && x < y < |Run(c, ops).lru|
    ensures UseAt(c, ops, i, Run(c, ops).lru[x].key)
    ensures forall j: nat :: i <= j < |ops| ==> !UseAt(c, ops, j, Run(c, ops).lru[y].key)
  {
    var lru := Run(c, ops).lru;
    RunOrdered(c, ops);
    OrderedAt(c, ops, lru, x, y);
    LastUseMeans(c, ops, lru[x].key);
    LastUseMeans(c, ops, lru[y].key);
    i := LastUse(c, ops, lru[x].key);
  }

  // ----- What leaves -----

  predicate HasKey(lru: seq<Slot>, key: string) {
    Lookup(lru, key).Some?
  }

  /** If the slot at `y` is still there, so is any in front of it with another key than the one taken out. */
  lemma {:induction false} FrontStays(lru: seq<Slot>, key: string, m: nat, x: nat, y: nat)
    requires Distinct(lru) && x < y < |lru| && m <= |Without(lru, key)| && lru[x].key != key
    requires HasKey(Without(lru, key)[..m], lru[y].key)
    ensures HasKey(Without(lru, key)[..m], lru[x].key)
  {
    var rest := Without(lru[1..], key);
    if lru[0].key == key {
      FrontStays(lru[1..], key, m, x - 1, y - 1);
    } else {
      var kept := ([lru[0]] + rest)[..m];
      assert kept[1..] == rest[..m - 1] && kept[0] == lru[0];
      if x > 0 {
        KeysApart(lru[1..], lru[0].key, y - 1);
        FrontStays(lru[1..], key, m - 1, x - 1, y - 1);
      }
    }
  }

  lemma {:induction false} KeysApart(lru: seq<Slot>, key: string, y: nat)
    requires Lookup(lru, key).None? && y < |lru|
    ensures lru[y].key != key
  {
    if y > 0 {
      KeysApart(lru[1..], key, y - 1);
    }
  }

  /** A slot behind the part that is kept is not found in it. */
  lemma {:induction false} NotInFront(lru: seq<Slot>, n: nat, y: nat)
    requires Distinct(lru) && n <= y < |lru|
    ensures !HasKey(lru[..n], lru[y].key)
  {
    if n > 0 {
      assert lru[..n][1..] == lru[1..][..n - 1];
      KeysApart(lru[1..], lru[0].key, y - 1);
      NotInFront(lru[1..], n - 1, y - 1);
    }
  }

  lemma {:induction false} FirstHas(lru: seq<Slot>, m: nat, key: string)
    requires m <= |lru| && HasKey(lru[..m], key)
    ensures HasKey(lru, key)
  {
    if Lookup(lru, key).None? {
      LookupFirst(lru, m, key);
    }
  }

  /** Whatever a write makes leave, by its size or by the number of entries: nothing leaves while an entry that was used
      less recently stays. */
  lemma {:induction false} LeastRecentLeaves(c: Config, ops: seq<Op>, key: string, e: Entry, x: nat, y: nat)
    requires c.capacity > 0 && x < y < |Run(c, ops).lru|
    requires Run(c, ops).lru[x].key != key && Run(c, ops).lru[y].key != key
    requires HasKey(PutOf(c, Run(c, ops), key, e).lru, Run(c, ops).lru[y].key)
    ensures HasKey(PutOf(c, Run(c, ops), key, e).lru, Run(c, ops).lru[x].key)
  {
    var st := Run(c, ops);
    var kx, ky := st.lru[x].key, st.lru[y].key;
    if Accepts(c, e) {
      RunSound(c, ops);
      var n, m := PutParts(c, st, key, e);
      PartStays(st.lru, key, e, n, m, x, y);
    } else {
      HeldAt(st.lru, x);
    }
  }

  lemma {:induction false} HeldAt(lru: seq<Slot>, x: nat)
    requires x < |lru|
    ensures HasKey(lru, lru[x].key)
  {
    if Lookup(lru, lru[x].key).None? {
      KeysApart(lru, lru[x].key, x);
    }
  }

  lemma {:induction false} PartStays(lru: seq<Slot>, key: string, e: Entry, n: nat, m: nat, x: nat, y: nat)
    requires Distinct(lru) && x < y < |lru| && lru[x].key != key && lru[y].key != key
    requires n <= |lru| && m <= |Without(lru[..n], key)|
    requires HasKey([Slot(key, e)] + Without(lru[..n], key)[..m], lru[y].key)
    ensures HasKey([Slot(key, e)] + Without(lru[..n], key)[..m], lru[x].key)
  {
    var first := lru[..n];
    var rest := Without(first, key)[..m];
    ConsParts(Slot(key, e), rest);
    FirstHas(Without(first, key), m, lru[y].key);
    WithoutLookup(first, key);
    if n <= y {
      NotInFront(lru, n, y);
      assert false;
    }
    DistinctFirst(lru, n);
    FrontStays(first, key, m, x, y);
  }

  lemma {:induction false} DistinctFirst(lru: seq<Slot>, n: nat)
    requires Distinct(lru) && n <= |lru|
    ensures Distinct(lru[..n])
  {
    if n > 0 {
      DistinctFirst(lru[1..], n - 1);
      assert lru[..n][1..] == lru[1..][..n - 1];
      LookupFirst(lru[1..], n - 1, lru[0].key);
    }
  }
}
