/** The object cache: an LRU list bounded by bytes, inside an LRU list bounded by entries. */
module Cache {
  import opened Bytes
  import Playlist

  /** Times are nanoseconds; the lifetimes in the configuration are seconds. */
  datatype Entry = Entry(data: seq<byte>, contentType: string, etag: string, insertedAt: nat, ttl: nat)

  function Size(e: Entry): nat {
    |e.data|
  }

  datatype Slot = Slot(key: string, entry: Entry)

  datatype Config = Config(enabled: bool, maxSize: nat, ttl: nat, segmentTtl: nat, capacity: nat)

  /** Slots from the most to the least recently used, and the size the cache believes they have. */
  datatype State = State(lru: seq<Slot>, currentSize: nat)

  const EMPTY := State([], 0)

  /** The capacity the original gives its LRU list. */
  const CAPACITY: nat := 100_000

  function SaturatingSub(a: nat, b: nat): nat {
    if a >= b then a - b else 0
  }

  // ----- Lists of slots -----

  function Without(lru: seq<Slot>, key: string): seq<Slot> {
    if lru == [] then []
    else if lru[0].key == key then Without(lru[1..], key)
    else [lru[0]] + Without(lru[1..], key)
  }

  function Lookup(lru: seq<Slot>, key: string): Option<Entry> {
    if lru == [] then None
    else if lru[0].key == key then Some(lru[0].entry)
    else Lookup(lru[1..], key)
  }

  function Total(lru: seq<Slot>): nat {
    if lru == [] then 0 else Size(lru[0].entry) + Total(lru[1..])
  }

  /** No key has two slots. */
  predicate Distinct(lru: seq<Slot>) {
    lru == [] || (Lookup(lru[1..], lru[0].key).None? && Distinct(lru[1..]))
  }

  // ----- Reading and writing -----

  function Minus(st: State, e: Option<Entry>): nat {
    if e.None? then st.currentSize else SaturatingSub(st.currentSize, Size(e.value))
  }

  /** Takes `key` out of the list. */
  function Popped(st: State, key: string): State {
    State(Without(st.lru, key), Minus(st, Lookup(st.lru, key)))
  }

  /** A lookup moves its slot to the front, unless the slot has expired, which removes it. */
  function GetOf(st: State, key: string, now: nat): (State, Option<Entry>) {
    match Lookup(st.lru, key)
    case None => (st, None)
    case Some(e) =>
      if now - e.insertedAt > e.ttl then (Popped(st, key), None)
      else (st.(lru := [Slot(key, e)] + Without(st.lru, key)), Some(e))
  }

  /** Drops least recently used slots until `need` more bytes fit, or none is left. */
  function Evicted(st: State, need: nat, maxSize: nat): State
    decreases |st.lru|
  {
    if st.currentSize + need <= maxSize || st.lru == [] then st
    else
      var n := |st.lru| - 1;
      Evicted(State(st.lru[..n], SaturatingSub(st.currentSize, Size(st.lru[n].entry))), need, maxSize)
  }

  /** The list's own insertion: at capacity it drops its last slot without telling the cache. */
  function Inserted(lru: seq<Slot>, slot: Slot, capacity: nat): seq<Slot>
    requires capacity > 0
  {
    if |lru| >= capacity then [slot] + lru[..|lru| - 1] else [slot] + lru
  }

  predicate Accepts(c: Config, e: Entry) {
    c.enabled && Size(e) <= c.maxSize / 2
  }

  function PutOf(c: Config, st: State, key: string, e: Entry): State
    requires c.capacity > 0
  {
    if !Accepts(c, e) then st
    else
      var st' := Popped(Evicted(st, Size(e), c.maxSize), key);
      State(Inserted(st'.lru, Slot(key, e), c.capacity), st'.currentSize + Size(e))
  }

  predicate EndsWith(s: string, suffix: string) {
    |s| >= |suffix| && s[|s| - |suffix|..] == suffix
  }

  const SECOND: nat := 1_000_000_000

  /** `ttl_for_key`. */
  function TtlFor(c: Config, key: string): nat {
    if EndsWith(key, ".m4s") || EndsWith(key, "init.mp4") then c.segmentTtl * SECOND
    else if EndsWith(key, "master.m3u8") then c.ttl * SECOND
    else if EndsWith(key, "media.m3u8") then SECOND
    else c.ttl * SECOND
  }

  class ObjectCache {
    const config: Config
    var lru: seq<Slot>
    var currentSize: nat

    function View(): State
      reads this
    {
      State(lru, currentSize)
    }

    constructor (config: Config)
      ensures this.config == config && View() == EMPTY
    {
      this.config := config;
      lru, currentSize := [], 0;
    }

    method Pop(key: string) returns (r: Option<Entry>)
      modifies this`lru
      ensures lru == Without(old(lru), key) && r == Lookup(old(lru), key)
    {
      r := Lookup(lru, key);
      lru := Without(lru, key);
    }

    method Get(key: string, now: nat) returns (r: Option<Entry>)
      modifies this
      ensures (View(), r) == GetOf(old(View()), key, now)
    {
      var entry := Lookup(lru, key);
      if entry.None? {
        return None;
      }
      if now - entry.value.insertedAt > entry.value.ttl {
        var popped := Pop(key);
        if popped.Some? {
          currentSize := SaturatingSub(currentSize, Size(popped.value));
        }
        return None;
      }
      lru := [Slot(key, entry.value)] + Without(lru, key);
      return entry;
    }

    method Put(key: string, data: seq<byte>, contentType: string, etag: string, now: nat)
      requires config.capacity > 0
      modifies this
      ensures View() == PutOf(config, old(View()), key, Entry(data, contentType, etag, now, TtlFor(config, key)))
    {
      if !config.enabled {
        return;
      }
      var entry := Entry(data, contentType, etag, now, TtlFor(config, key));
      if |data| > config.maxSize / 2 {
        return;
      }
      ghost var before := View();
      while currentSize + |data| > config.maxSize
        invariant Evicted(View(), |data|, config.maxSize) == Evicted(before, |data|, config.maxSize)
        decreases |lru|
      {
        if lru == [] {
          break;
        }
        var n := |lru| - 1;
        currentSize := SaturatingSub(currentSize, Size(lru[n].entry));
        lru := lru[..n];
      }
      var old' := Pop(key);
      if old'.Some? {
        currentSize := SaturatingSub(currentSize, Size(old'.value));
      }
      lru := Inserted(lru, Slot(key, entry), config.capacity);
      currentSize := currentSize + |data|;
    }
  }

  // ----- Accounting -----

  /** How far the believed size is above the true one. */
  function Drift(st: State): int {
    st.currentSize - Total(st.lru)
  }

  lemma {:induction false} TotalWithout(lru: seq<Slot>, key: string)
    requires Distinct(lru)
    ensures Total(Without(lru, key))
         == Total(lru) - (if Lookup(lru, key).None? then 0 else Size(Lookup(lru, key).value))
  {
    if lru != [] {
      TotalWithout(lru[1..], key);
      if lru[0].key == key {
        WithoutAbsent(lru[1..], key);
      } else {
        ConsParts(lru[0], Without(lru[1..], key));
      }
    }
  }

  lemma {:induction false} WithoutAbsent(lru: seq<Slot>, key: string)
    requires Lookup(lru, key).None?
    ensures Without(lru, key) == lru
  {
    if lru != [] {
      WithoutAbsent(lru[1..], key);
    }
  }

  lemma {:induction false} ConsParts(s: Slot, rest: seq<Slot>)
    ensures Total([s] + rest) == Size(s.entry) + Total(rest)
    ensures forall k :: Lookup([s] + rest, k) == if s.key == k then Some(s.entry) else Lookup(rest, k)
    ensures Distinct([s] + rest) <==> Lookup(rest, s.key).None? && Distinct(rest)
  {
    assert ([s] + rest)[1..] == rest;
  }

  lemma {:induction false} WithoutLookup(lru: seq<Slot>, key: string)
    ensures forall k :: Lookup(Without(lru, key), k) == if k == key then None else Lookup(lru, k)
    ensures Distinct(lru) ==> Distinct(Without(lru, key))
    ensures |Without(lru, key)| <= |lru|
  {
    if lru != [] {
      WithoutLookup(lru[1..], key);
      ConsParts(lru[0], Without(lru[1..], key));
    }
  }

  lemma {:induction false} WithoutLast(lru: seq<Slot>)
    requires lru != [] && Distinct(lru)
    ensures Total(lru[..|lru| - 1]) == Total(lru) - Size(lru[|lru| - 1].entry)
    ensures Distinct(lru[..|lru| - 1])
    ensures forall k :: Lookup(lru[..|lru| - 1], k).Some? ==> Lookup(lru[..|lru| - 1], k) == Lookup(lru, k)
  {
    if |lru| > 1 {
      WithoutLast(lru[1..]);
      var front := lru[..|lru| - 1];
      assert front == [lru[0]] + lru[1..][..|lru| - 2];
      ConsParts(lru[0], lru[1..][..|lru| - 2]);
    } else {
      assert lru[..0] == [] && lru[1..] == [];
    }
  }

  /** What holds of the cache in every reachable state. */
  ghost predicate Sound(c: Config, st: State) {
    && Distinct(st.lru)
    && |st.lru| <= c.capacity
    && 0 <= Drift(st) <= c.maxSize
    && Total(st.lru) <= c.maxSize
    && 2 * st.currentSize <= 3 * c.maxSize
  }

  lemma {:induction false} PoppedSound(c: Config, st: State, key: string)
    requires Sound(c, st)
    ensures Sound(c, Popped(st, key)) && Drift(Popped(st, key)) == Drift(st)
  {
    TotalWithout(st.lru, key);
    WithoutLookup(st.lru, key);
  }

  lemma {:induction false} GetSound(c: Config, st: State, key: string, now: nat)
    requires Sound(c, st)
    ensures Sound(c, GetOf(st, key, now).0) && Drift(GetOf(st, key, now).0) == Drift(st)
  {
    PoppedSound(c, st, key);
    var e := Lookup(st.lru, key);
    if e.Some? {
      TotalWithout(st.lru, key);
      WithoutLookup(st.lru, key);
      ConsParts(Slot(key, e.value), Without(st.lru, key));
      LookupShortens(st.lru, key);
    }
  }

  lemma {:induction false} LookupShortens(lru: seq<Slot>, key: string)
    requires Lookup(lru, key).Some?
    ensures |Without(lru, key)| < |lru|
  {
    if lru[0].key == key {
      WithoutLookup(lru[1..], key);
    } else {
      LookupShortens(lru[1..], key);
    }
  }

  /** Eviction makes room, or leaves nothing. */
  lemma {:induction false} EvictedSound(c: Config, st: State, need: nat)
    requires Sound(c, st)
    ensures var st' := Evicted(st, need, c.maxSize);
      && Sound(c, st') && Drift(st') == Drift(st)
      && (st'.currentSize + need <= c.maxSize || st'.lru == [])
    decreases |st.lru|
  {
    if st.currentSize + need > c.maxSize && st.lru != [] {
      var n := |st.lru| - 1;
      WithoutLast(st.lru);
      EvictedSound(c, State(st.lru[..n], SaturatingSub(st.currentSize, Size(st.lru[n].entry))), need);
    }
  }

  /** The bytes that an insertion drops behind the cache's back. */
  function SilentlyDropped(c: Config, st: State, key: string, e: Entry): nat {
    if !Accepts(c, e) then 0
    else
      var lru := Popped(Evicted(st, Size(e), c.maxSize), key).lru;
      if |lru| >= c.capacity && lru != [] then Size(lru[|lru| - 1].entry) else 0
  }

  /** A write adds to the drift exactly what the list's own bound drops silently. */
  lemma {:induction false} PutSound(c: Config, st: State, key: string, e: Entry)
    requires Sound(c, st) && c.capacity > 0
    ensures Sound(c, PutOf(c, st, key, e))
    ensures Drift(PutOf(c, st, key, e)) == Drift(st) + SilentlyDropped(c, st, key, e)
  {
    if Accepts(c, e) {
      var st1 := Evicted(st, Size(e), c.maxSize);
      EvictedSound(c, st, Size(e));
      PoppedSound(c, st1, key);
      WithoutLookup(st1.lru, key);
      EntryPutSound(c, st1, Popped(st1, key), key, e);
    }
  }

  /** Inserting an entry for which eviction has made room. */
  lemma {:induction false} EntryPutSound(c: Config, st1: State, st2: State, key: string, e: Entry)
    requires Sound(c, st2) && c.capacity > 0 && Accepts(c, e) && Lookup(st2.lru, key).None?
    requires st1.currentSize + Size(e) <= c.maxSize || st1.lru == []
    requires st2.currentSize <= st1.currentSize && (st1.lru == [] ==> st2.lru == [])
    ensures var st' := State(Inserted(st2.lru, Slot(key, e), c.capacity), st2.currentSize + Size(e));
      && Sound(c, st')
      && Drift(st') == Drift(st2)
        + (if |st2.lru| >= c.capacity && st2.lru != [] then Size(st2.lru[|st2.lru| - 1].entry) else 0)
  {
    InsertedSound(st2.lru, Slot(key, e), c.capacity);
  }

  lemma {:induction false} InsertedSound(lru: seq<Slot>, slot: Slot, capacity: nat)
    requires Distinct(lru) && Lookup(lru, slot.key).None? && |lru| <= capacity && capacity > 0
    ensures var lru' := Inserted(lru, slot, capacity);
      && Distinct(lru') && |lru'| <= capacity
      && Total(lru') == Total(lru) + Size(slot.entry)
                        - (if |lru| >= capacity then Size(lru[|lru| - 1].entry) else 0)
  {
    if |lru| >= capacity {
      WithoutLast(lru);
      ConsParts(slot, lru[..|lru| - 1]);
    } else {
      ConsParts(slot, lru);
    }
  }

  /** Eviction is minimal: keeping one more slot would not have left room. */
  lemma {:induction false} EvictionMinimal(c: Config, st: State, need: nat)
    requires Sound(c, st)
    ensures var st' := Evicted(st, need, c.maxSize); var n := |st'.lru|;
      && n <= |st.lru| && st'.lru == st.lru[..n]
      && (n < |st.lru| ==> st'.currentSize + Size(st.lru[n].entry) + need > c.maxSize)
    decreases |st.lru|
  {
    if st.currentSize + need > c.maxSize && st.lru != [] {
      var n := |st.lru| - 1;
      var st1 := State(st.lru[..n], SaturatingSub(st.currentSize, Size(st.lru[n].entry)));
      EvictionMinimalStep(c, st, st1, need);
      EvictionMinimal(c, st1, need);
      var st' := Evicted(st1, need, c.maxSize);
      var m := |st'.lru|;
      assert st.lru[..n][..m] == st.lru[..m];
      if m == n {
        assert st'.lru == st1.lru;
        NothingEvicted(st1, need, c.maxSize);
      } else {
        assert st1.lru[m] == st.lru[m];
      }
    }
  }

  lemma {:induction false} NothingEvicted(st: State, need: nat, maxSize: nat)
    requires |Evicted(st, need, maxSize).lru| == |st.lru|
    ensures Evicted(st, need, maxSize) == st
  {
    if st.currentSize + need > maxSize && st.lru != [] {
      var n := |st.lru| - 1;
      EvictedShortens(State(st.lru[..n], SaturatingSub(st.currentSize, Size(st.lru[n].entry))), need, maxSize);
    }
  }

  lemma {:induction false} EvictedShortens(st: State, need: nat, maxSize: nat)
    ensures |Evicted(st, need, maxSize).lru| <= |st.lru|
    decreases |st.lru|
  {
    if st.currentSize + need > maxSize && st.lru != [] {
      var n := |st.lru| - 1;
      EvictedShortens(State(st.lru[..n], SaturatingSub(st.currentSize, Size(st.lru[n].entry))), need, maxSize);
    }
  }

  lemma {:induction false} EvictionMinimalStep(c: Config, st: State, st1: State, need: nat)
    requires Sound(c, st) && st.lru != []
    requires st1 == State(st.lru[..|st.lru| - 1], SaturatingSub(st.currentSize, Size(st.lru[|st.lru| - 1].entry)))
    ensures Sound(c, st1) && st1.currentSize + Size(st.lru[|st.lru| - 1].entry) == st.currentSize
  {
    WithoutLast(st.lru);
  }

  // ----- Whole runs -----

  datatype Op = Get(key: string, now: nat) | Put(key: string, entry: Entry)

  function Apply(c: Config, st: State, op: Op): State
    requires c.capacity > 0
  {
    match op
    case Get(key, now) => GetOf(st, key, now).0
    case Put(key, entry) => PutOf(c, st, key, entry)
  }

  function Run(c: Config, ops: seq<Op>): State
    requires c.capacity > 0
  {
    if ops == [] then EMPTY else Apply(c, Run(c, ops[..|ops| - 1]), ops[|ops| - 1])
  }

  /** The bytes that a whole run drops silently. */
  function Dropped(c: Config, ops: seq<Op>): nat
    requires c.capacity > 0
  {
    if ops == [] then 0
    else
      var before, op := ops[..|ops| - 1], ops[|ops| - 1];
      Dropped(c, before) + if op.Get? then 0 else SilentlyDropped(c, Run(c, before), op.key, op.entry)
  }

  /** In every reachable state the resident entries fit the byte bound, the believed size is at least theirs and at
      most three halves of the bound, and what it is above theirs is exactly what the entry bound dropped. In
      particular no subtraction of a size ever saturates. */
  lemma {:induction false} RunSound(c: Config, ops: seq<Op>)
    requires c.capacity > 0
    ensures Sound(c, Run(c, ops)) && Drift(Run(c, ops)) == Dropped(c, ops)
  {
    if ops != [] {
      var before, op := Run(c, ops[..|ops| - 1]), ops[|ops| - 1];
      RunSound(c, ops[..|ops| - 1]);
      match op
      case Get(key, now) => GetSound(c, before, key, now);
      case Put(key, entry) => PutSound(c, before, key, entry);
    }
  }

  /** The believed size is the true size in every run that stays below the entry bound, and only as long as nothing
      with bytes was dropped by it. */
  lemma {:induction false} ExactSize(c: Config, ops: seq<Op>)
    requires c.capacity > 0
    ensures Run(c, ops).currentSize == Total(Run(c, ops).lru) <==> Dropped(c, ops) == 0
  {
    RunSound(c, ops);
  }

  /** Writes the same entry under each of these keys. */
  function WriteAll(keys: seq<string>, e: Entry): seq<Op> {
    if keys == [] then [] else WriteAll(keys[..|keys| - 1], e) + [Put(keys[|keys| - 1], e)]
  }

  lemma {:induction false} WrittenLast(c: Config, keys: seq<string>, e: Entry)
    requires c.capacity > 0 && keys != []
    ensures var n := |keys| - 1;
      Run(c, WriteAll(keys, e)) == PutOf(c, Run(c, WriteAll(keys[..n], e)), keys[n], e)
  {
    var n := |keys| - 1;
    var before := WriteAll(keys[..n], e);
    assert (before + [Put(keys[n], e)])[..|before|] == before;
  }

  predicate AllHold(lru: seq<Slot>, e: Entry, keys: seq<string>) {
    forall i :: 0 <= i < |lru| ==> lru[i].entry == e && lru[i].key in keys
  }

  lemma {:induction false} NotAmong(lru: seq<Slot>, e: Entry, keys: seq<string>, key: string)
    requires AllHold(lru, e, keys) && key !in keys
    ensures Lookup(lru, key).None?
  {
    if lru != [] {
      assert lru[0].key in keys;
      NotAmong(lru[1..], e, keys, key);
    }
  }

  /** What one more write under a new key does to a list that has room for its byte. */
  lemma {:induction false} WrittenNew(c: Config, st: State, e: Entry, keys: seq<string>, key: string)
    requires c.capacity > 0 && Accepts(c, e) && Size(e) == 1 && st.currentSize < c.maxSize
    requires AllHold(st.lru, e, keys) && key !in keys
    ensures PutOf(c, st, key, e) == State(Inserted(st.lru, Slot(key, e), c.capacity), st.currentSize + 1)
  {
    NotAmong(st.lru, e, keys, key);
    WithoutAbsent(st.lru, key);
  }

  /** As many distinct keys as there are slots fill the list and keep the books right. */
  lemma {:induction false} Filled(c: Config, keys: seq<string>, e: Entry)
    requires c.enabled && 0 < c.capacity < c.maxSize && Size(e) == 1 && |keys| <= c.capacity
    requires forall i, j :: 0 <= i < j < |keys| ==> keys[i] != keys[j]
    ensures var st := Run(c, WriteAll(keys, e));
      |st.lru| == |keys| && st.currentSize == |keys| && AllHold(st.lru, e, keys)
  {
    if keys != [] {
      var n := |keys| - 1;
      var st := Run(c, WriteAll(keys[..n], e));
      Filled(c, keys[..n], e);
      WrittenLast(c, keys, e);
      WrittenNew(c, st, e, keys[..n], keys[n]);
      assert keys[n] in keys;
    }
  }

  /** The believed size does come apart from the true one, whatever the capacity: one key of one byte more than there
      are slots drops the first behind the cache's back. */
  lemma {:induction false} DriftHappens(c: Config, keys: seq<string>, e: Entry)
    requires c.enabled && 0 < c.capacity < c.maxSize && Size(e) == 1 && |keys| == c.capacity + 1
    requires forall i, j :: 0 <= i < j < |keys| ==> keys[i] != keys[j]
    ensures var st := Run(c, WriteAll(keys, e));
      Total(st.lru) == c.capacity && st.currentSize == c.capacity + 1
  {
    var n := |keys| - 1;
    var st := Run(c, WriteAll(keys[..n], e));
    Filled(c, keys[..n], e);
    WrittenLast(c, keys, e);
    WrittenNew(c, st, e, keys[..n], keys[n]);
    RunSound(c, WriteAll(keys, e));
    AllOnes(Run(c, WriteAll(keys, e)).lru, e);
  }

  lemma {:induction false} AllOnes(lru: seq<Slot>, e: Entry)
    requires forall i :: 0 <= i < |lru| ==> lru[i].entry == e
    requires Size(e) == 1
    ensures Total(lru) == |lru|
  {
    if lru != [] {
      AllOnes(lru[1..], e);
    }
  }

  /** `n` distinct keys, which differ in their lengths. */
  function Keys(n: nat): (keys: seq<string>)
    ensures |keys| == n && forall i :: 0 <= i < n ==> |keys[i]| == i
  {
    if n == 0 then [] else Keys(n - 1) + [Letters(n - 1)]
  }

  function Letters(n: nat): (s: string)
    ensures |s| == n
  {
    if n == 0 then "" else Letters(n - 1) + "k"
  }

  /** So it is at the capacity that the code has. */
  lemma {:induction false} DriftAtCapacity(c: Config, e: Entry)
    requires c.enabled && c.capacity == CAPACITY && c.maxSize > CAPACITY && Size(e) == 1
    ensures var st := Run(c, WriteAll(Keys(c.capacity + 1), e));
      Total(st.lru) == 100_000 && st.currentSize == 100_001
  {
    var keys := Keys(c.capacity + 1);
    forall i, j | 0 <= i < j < |keys|
      ensures keys[i] != keys[j]
    {
      assert |keys[i]| == i && |keys[j]| == j;
    }
    DriftHappens(c, keys, e);
  }

  /** A run in which the list is never full drops nothing, so its recorded size is exact throughout. */
  lemma {:induction false} NeverFullIsExact(c: Config, ops: seq<Op>)
    requires c.capacity > 0
    requires forall k :: 0 <= k <= |ops| ==> |Run(c, ops[..k]).lru| < c.capacity
    ensures Dropped(c, ops) == 0 && Run(c, ops).currentSize == Total(Run(c, ops).lru)
  {
    ExactSize(c, ops);
    if ops != [] {
      var before, op := ops[..|ops| - 1], ops[|ops| - 1];
      forall k | 0 <= k <= |before|
        ensures |Run(c, before[..k]).lru| < c.capacity
      {
        assert before[..k] == ops[..k];
      }
      NeverFullIsExact(c, before);
      if op.Put? {
        assert before[..|before|] == before;
        RunSound(c, before);
        EvictionMinimal(c, Run(c, before), Size(op.entry));
        WithoutLookup(Evicted(Run(c, before), Size(op.entry), c.maxSize).lru, op.key);
      }
    }
  }

  lemma {:induction false} SlotWithinTotal(lru: seq<Slot>, i: nat)
    requires i < |lru|
    ensures Size(lru[i].entry) <= Total(lru)
  {
    if i > 0 {
      SlotWithinTotal(lru[1..], i - 1);
    }
  }

  /** Whichever entry leaves, by eviction, replacement or expiry, its size can be taken off the recorded size. */
  lemma {:induction false} NothingSaturates(c: Config, st: State, i: nat)
    requires Sound(c, st) && i < |st.lru|
    ensures SaturatingSub(st.currentSize, Size(st.lru[i].entry)) == st.currentSize - Size(st.lru[i].entry)
  {
    SlotWithinTotal(st.lru, i);
  }

  lemma {:induction false} FewKeysDropNothing(c: Config, ops: seq<Op>)
    requires |ops| < c.capacity
    ensures Dropped(c, ops) == 0 && |Run(c, ops).lru| <= |ops|
  {
    if ops != [] {
      var before, op := Run(c, ops[..|ops| - 1]), ops[|ops| - 1];
      FewKeysDropNothing(c, ops[..|ops| - 1]);
      match op
      case Get(key, now) =>
        WithoutLookup(before.lru, key);
        if Lookup(before.lru, key).Some? {
          LookupShortens(before.lru, key);
        }
      case Put(key, entry) =>
        RunSound(c, ops[..|ops| - 1]);
        EvictionMinimal(c, before, Size(entry));
        WithoutLookup(Evicted(before, Size(entry), c.maxSize).lru, key);
    }
  }

  /** The entry that the latest accepted write of `key` stored. */
  function Latest(c: Config, ops: seq<Op>, key: string): Option<Entry> {
    if ops == [] then None
    else
      var op := ops[|ops| - 1];
      if op.Put? && op.key == key && Accepts(c, op.entry) then Some(op.entry)
      else Latest(c, ops[..|ops| - 1], key)
  }

  ghost predicate Truthful(c: Config, ops: seq<Op>, lru: seq<Slot>) {
    forall k :: Lookup(lru, k).Some? ==> Lookup(lru, k) == Latest(c, ops, k)
  }

  lemma {:induction false} EvictedLookup(c: Config, st: State, need: nat)
    requires Sound(c, st)
    ensures var lru := Evicted(st, need, c.maxSize).lru;
      forall k :: Lookup(lru, k).Some? ==> Lookup(lru, k) == Lookup(st.lru, k)
    decreases |st.lru|
  {
    if st.currentSize + need > c.maxSize && st.lru != [] {
      var n := |st.lru| - 1;
      var st1 := State(st.lru[..n], SaturatingSub(st.currentSize, Size(st.lru[n].entry)));
      WithoutLast(st.lru);
      EvictionMinimalStep(c, st, st1, need);
      EvictedLookup(c, st1, need);
    }
  }

  /** A hit is never older than the latest accepted write of its key: whatever the cache holds, it is what that
      write stored. A write that is not accepted, being too large, leaves the entry before it in place. */
  lemma {:induction false} HitsAreTruthful(c: Config, ops: seq<Op>)
    requires c.capacity > 0
    ensures Truthful(c, ops, Run(c, ops).lru)
  {
    if ops != [] {
      var past, op := ops[..|ops| - 1], ops[|ops| - 1];
      var st := Run(c, past);
      HitsAreTruthful(c, past);
      RunSound(c, past);
      match op
      case Get(key, now) =>
        GetLookup(st, key, now);
      case Put(key, entry) =>
        PutLookup(c, st, key, entry);
    }
  }

  lemma {:induction false} GetLookup(st: State, key: string, now: nat)
    ensures var lru := GetOf(st, key, now).0.lru;
      forall k :: Lookup(lru, k).Some? ==> Lookup(lru, k) == Lookup(st.lru, k)
  {
    WithoutLookup(st.lru, key);
    var e := Lookup(st.lru, key);
    if e.Some? {
      ConsParts(Slot(key, e.value), Without(st.lru, key));
    }
  }

  lemma {:induction false} PutLookup(c: Config, st: State, key: string, e: Entry)
    requires Sound(c, st) && c.capacity > 0
    ensures var lru := PutOf(c, st, key, e).lru;
      forall k :: Lookup(lru, k).Some? ==>
        Lookup(lru, k) == if k == key && Accepts(c, e) then Some(e) else Lookup(st.lru, k)
  {
    if Accepts(c, e) {
      var st1 := Evicted(st, Size(e), c.maxSize);
      EvictedLookup(c, st, Size(e));
      EvictedSound(c, st, Size(e));
      WithoutLookup(st1.lru, key);
      var lru := Without(st1.lru, key);
      ConsParts(Slot(key, e), lru);
      if |lru| >= c.capacity {
        WithoutLast(lru);
        ConsParts(Slot(key, e), lru[..|lru| - 1]);
      }
    }
  }

  // ----- How long an entry stays -----

  /** The bytes, and the slots, that are used more recently than `key`. */
  function BytesAhead(lru: seq<Slot>, key: string): nat {
    if lru == [] || lru[0].key == key then 0 else Size(lru[0].entry) + BytesAhead(lru[1..], key)
  }

  function SlotsAhead(lru: seq<Slot>, key: string): nat {
    if lru == [] || lru[0].key == key then 0 else 1 + SlotsAhead(lru[1..], key)
  }

  /** `key` has its entry, behind at most so many bytes and slots. */
  predicate Held(lru: seq<Slot>, key: string, e: Entry, bytes: nat, slots: nat) {
    Lookup(lru, key) == Some(e) && BytesAhead(lru, key) <= bytes && SlotsAhead(lru, key) <= slots
  }

  lemma {:induction false} HeldCons(s: Slot, lru: seq<Slot>, key: string, e: Entry, bytes: nat, slots: nat)
    requires s.key != key && Held(lru, key, e, bytes, slots)
    ensures Held([s] + lru, key, e, bytes + Size(s.entry), slots + 1)
  {
    assert ([s] + lru)[1..] == lru;
  }

  lemma {:induction false} HeldWithout(lru: seq<Slot>, k: string, key: string, e: Entry, bytes: nat, slots: nat)
    requires k != key && Held(lru, key, e, bytes, slots)
    ensures Held(Without(lru, k), key, e, bytes, slots)
  {
    if lru[0].key == key {
      assert Without(lru, k)[0] == lru[0];
    } else if lru[0].key == k {
      HeldWithout(lru[1..], k, key, e, bytes, slots);
    } else {
      var rest := Without(lru[1..], k);
      HeldWithout(lru[1..], k, key, e, bytes - Size(lru[0].entry), slots - 1);
      HeldCons(lru[0], rest, key, e, bytes - Size(lru[0].entry), slots - 1);
    }
  }

  /** Dropping the last slot keeps an entry with a slot behind it. */
  lemma {:induction false} HeldFront(lru: seq<Slot>, key: string, e: Entry, bytes: nat, slots: nat)
    requires Held(lru, key, e, bytes, slots) && SlotsAhead(lru, key) < |lru| - 1
    ensures Held(lru[..|lru| - 1], key, e, bytes, slots)
  {
    var n := |lru| - 1;
    if lru[0].key == key {
      assert lru[..n][0] == lru[0];
    } else {
      HeldFront(lru[1..], key, e, bytes - Size(lru[0].entry), slots - 1);
      assert lru[..n] == [lru[0]] + lru[1..][..n - 1];
      HeldCons(lru[0], lru[1..][..n - 1], key, e, bytes - Size(lru[0].entry), slots - 1);
    }
  }

  /** What is ahead of the last slot is everything but that slot. */
  lemma {:induction false} AheadOfLast(lru: seq<Slot>, key: string)
    requires Lookup(lru, key).Some?
    ensures SlotsAhead(lru, key) < |lru|
    ensures SlotsAhead(lru, key) == |lru| - 1 ==>
      Total(lru) == BytesAhead(lru, key) + Size(Lookup(lru, key).value)
  {
    if lru[0].key != key {
      AheadOfLast(lru[1..], key);
    } else if |lru| == 1 {
      assert lru[1..] == [];
    }
  }

  /** Eviction spares an entry if it fits together with what is ahead of it, the drift and the new entry. */
  lemma {:induction false} HeldEvicted(
    c: Config, st: State, need: nat, key: string, e: Entry, bytes: nat, slots: nat)
    requires Sound(c, st) && Held(st.lru, key, e, bytes, slots)
    requires Drift(st) + bytes + Size(e) + need <= c.maxSize
    ensures Held(Evicted(st, need, c.maxSize).lru, key, e, bytes, slots)
    decreases |st.lru|
  {
    AheadOfLast(st.lru, key);
    if st.currentSize + need > c.maxSize {
      var n := |st.lru| - 1;
      var st1 := State(st.lru[..n], SaturatingSub(st.currentSize, Size(st.lru[n].entry)));
      HeldFront(st.lru, key, e, bytes, slots);
      WithoutLast(st.lru);
      EvictionMinimalStep(c, st, st1, need);
      HeldEvicted(c, st1, need, key, e, bytes, slots);
    }
  }

  /** The bytes an operation uses: those of the entry it finds or writes. */
  function Touched(c: Config, st: State, op: Op): nat {
    match op
    case Get(key, now) => var e := GetOf(st, key, now).1; if e.None? then 0 else Size(e.value)
    case Put(_, entry) => if Accepts(c, entry) then Size(entry) else 0
  }

  /** The bytes that operations after the first `n` use. */
  function UsedSince(c: Config, ops: seq<Op>, n: nat): nat
    requires c.capacity > 0
  {
    if |ops| <= n then 0
    else
      var before := ops[..|ops| - 1];
      UsedSince(c, before, n) + Touched(c, Run(c, before), ops[|ops| - 1])
  }

  /** The operation neither replaces the entry nor comes for it too late. */
  predicate Leaves(c: Config, op: Op, key: string, e: Entry) {
    match op
    case Get(k, now) => k == key ==> now - e.insertedAt <= e.ttl
    case Put(k, entry) => k == key ==> !Accepts(c, entry)
  }

  lemma {:induction false} HeldGet(
    st: State, k: string, now: nat, key: string, e: Entry, bytes: nat, slots: nat)
    requires Held(st.lru, key, e, bytes, slots) && (k == key ==> now - e.insertedAt <= e.ttl)
    ensures var (st', found) := GetOf(st, k, now);
      Held(st'.lru, key, e, bytes + (if found.None? then 0 else Size(found.value)), slots + 1)
  {
    if k != key {
      var found := Lookup(st.lru, k);
      HeldWithout(st.lru, k, key, e, bytes, slots);
      if found.Some? {
        HeldCons(Slot(k, found.value), Without(st.lru, k), key, e, bytes, slots);
      }
    }
  }

  lemma {:induction false} HeldPut(
    c: Config, st: State, k: string, entry: Entry, key: string, e: Entry, bytes: nat, slots: nat)
    requires Sound(c, st) && c.capacity > 0 && Accepts(c, entry) && k != key
    requires Held(st.lru, key, e, bytes, slots) && slots + 1 < c.capacity
    requires Drift(st) + bytes + Size(e) + Size(entry) <= c.maxSize
    ensures Held(PutOf(c, st, k, entry).lru, key, e, bytes + Size(entry), slots + 1)
  {
    var st1 := Evicted(st, Size(entry), c.maxSize);
    HeldEvicted(c, st, Size(entry), key, e, bytes, slots);
    var lru := Without(st1.lru, k);
    HeldWithout(st1.lru, k, key, e, bytes, slots);
    HeldInserted(lru, Slot(k, entry), c.capacity, key, e, bytes, slots);
  }

  lemma {:induction false} HeldInserted(
    lru: seq<Slot>, s: Slot, capacity: nat, key: string, e: Entry, bytes: nat, slots: nat)
    requires s.key != key && Held(lru, key, e, bytes, slots) && slots + 1 < capacity
    ensures Held(Inserted(lru, s, capacity), key, e, bytes + Size(s.entry), slots + 1)
  {
    if |lru| >= capacity {
      HeldFront(lru, key, e, bytes, slots);
      HeldCons(s, lru[..|lru| - 1], key, e, bytes, slots);
    } else {
      HeldCons(s, lru, key, e, bytes, slots);
    }
  }

  /** An entry written stays where it can be found, whatever the operations after it, until as many bytes have been
      used since as the cache has left beside it, or as many operations have passed as the list has slots. */
  lemma {:induction false} EntryStays(c: Config, ops: seq<Op>, i: nat, key: string, e: Entry)
    requires c.capacity > 0 && i < |ops| && ops[i] == Put(key, e) && Accepts(c, e)
    requires forall j :: i < j < |ops| ==> Leaves(c, ops[j], key, e)
    requires Size(e) + UsedSince(c, ops, i + 1) + Dropped(c, ops) <= c.maxSize && |ops| - i - 1 < c.capacity
    ensures Held(Run(c, ops).lru, key, e, UsedSince(c, ops, i + 1), |ops| - i - 1)
    decreases |ops|
  {
    var past, op := ops[..|ops| - 1], ops[|ops| - 1];
    var st := Run(c, past);
    if i < |past| {
      var bytes, slots := UsedSince(c, past, i + 1), |past| - i - 1;
      EntryStays(c, past, i, key, e);
      RunSound(c, past);
      match op
      case Get(k, now) =>
        HeldGet(st, k, now, key, e, bytes, slots);
      case Put(k, entry) =>
        if Accepts(c, entry) {
          HeldPut(c, st, k, entry, key, e, bytes, slots);
        }
    }
  }

  /** In particular a write is read back until it expires, with other reads and writes in between. */
  lemma {:induction false} PutThenGet(c: Config, ops: seq<Op>, i: nat, key: string, e: Entry, now: nat)
    requires c.capacity > 0 && i < |ops| && ops[i] == Put(key, e) && Accepts(c, e) && now - e.insertedAt <= e.ttl
    requires forall j :: i < j < |ops| ==> Leaves(c, ops[j], key, e)
    requires Size(e) + UsedSince(c, ops, i + 1) + Dropped(c, ops) <= c.maxSize && |ops| - i - 1 < c.capacity
    ensures GetOf(Run(c, ops), key, now).1 == Some(e)
  {
    EntryStays(c, ops, i, key, e);
  }

  // ----- How long each kind of object is served -----

  lemma {:induction false} Suffix(a: string, b: string)
    ensures EndsWith(a + b, b)
  {
    assert (a + b)[|a|..] == b;
  }

  /** The lifetimes by the paths of stored objects. */
  lemma {:induction false} PathLifetimes(c: Config, stream: string, r: string, n: nat)
    ensures TtlFor(c, Playlist.SegmentPath(stream, r, n)) == c.segmentTtl * 1_000_000_000
    ensures TtlFor(c, Playlist.InitSegmentPath(stream, r)) == c.segmentTtl * 1_000_000_000
    ensures TtlFor(c, Playlist.MediaPlaylistPath(stream, r)) == 1_000_000_000
    ensures TtlFor(c, Playlist.MasterPlaylistPath(stream)) == c.ttl * 1_000_000_000
  {
    var dir := stream + "/" + r + "/";
    var segment, init := Playlist.SegmentPath(stream, r, n), Playlist.InitSegmentPath(stream, r);
    var list, master := Playlist.MediaPlaylistPath(stream, r), Playlist.MasterPlaylistPath(stream);
    assert EndsWith(segment, ".m4s") by {
      assert segment == (dir + Playlist.Padded(n, 6)) + ".m4s";
      Suffix(dir + Playlist.Padded(n, 6), ".m4s");
    }
    Suffix(dir, "init.mp4");
    Suffix(dir, "media.m3u8");
    Suffix(stream + "/", "master.m3u8");
    PlaylistEnd(list, 'a');
    PlaylistEnd(master, 'r');
    assert list[|list| - 6] == 'a' && master[|master| - 6] == 'r';
  }

  /** A key that ends like a playlist is not taken for a segment, and master and media playlists are told apart. */
  lemma {:induction false} PlaylistEnd(key: string, c: char)
    requires |key| >= 6 && key[|key| - 1] == '8' && key[|key| - 6] == c
    ensures !EndsWith(key, ".m4s") && !EndsWith(key, "init.mp4")
    ensures c == 'a' ==> !EndsWith(key, "master.m3u8")
  {
    if EndsWith(key, "master.m3u8") {
      assert key[|key| - 11..][5] == 'r';
    }
  }

  /** What is written is read back until its lifetime is over, and not afterwards. */
  lemma {:induction false} ServedExactly(c: Config, st: State, key: string, e: Entry, now: nat)
    requires c.capacity > 0 && Accepts(c, e)
    ensures GetOf(PutOf(c, st, key, e), key, now).1 == if now - e.insertedAt <= e.ttl then Some(e) else None
  {
    var st' := Popped(Evicted(st, Size(e), c.maxSize), key);
    var lru := Inserted(st'.lru, Slot(key, e), c.capacity);
    assert PutOf(c, st, key, e).lru == lru && lru[0] == Slot(key, e);
  }

  /** A media playlist is served from the cache for one second and no longer, a segment for the configured lifetime of
      segments and no longer; this goes for recorded uploads as well. */
  lemma {:induction false} ServedByKind(
    c: Config, st: State, stream: string, r: string, n: nat, data: seq<byte>, contentType: string, etag: string,
    written: nat, now: nat)
    requires c.capacity > 0 && c.enabled && 2 * |data| <= c.maxSize
    ensures var list := Playlist.MediaPlaylistPath(stream, r);
      GetOf(PutOf(c, st, list, Entry(data, contentType, etag, written, TtlFor(c, list))), list, now).1.Some?
      <==> now - written <= 1_000_000_000
    ensures var segment := Playlist.SegmentPath(stream, r, n);
      GetOf(PutOf(c, st, segment, Entry(data, contentType, etag, written, TtlFor(c, segment))), segment, now).1.Some?
      <==> now - written <= c.segmentTtl * 1_000_000_000
  {
    var list, segment := Playlist.MediaPlaylistPath(stream, r), Playlist.SegmentPath(stream, r, n);
    PathLifetimes(c, stream, r, n);
    ServedExactly(c, st, list, Entry(data, contentType, etag, written, TtlFor(c, list)), now);
    ServedExactly(c, st, segment, Entry(data, contentType, etag, written, TtlFor(c, segment)), now);
  }

  lemma {:induction false} LatestAccepted(c: Config, ops: seq<Op>, key: string)
    ensures var e := Latest(c, ops, key); e.Some? ==> c.enabled && 2 * |e.value.data| <= c.maxSize
  {
    if ops != [] {
      LatestAccepted(c, ops[..|ops| - 1], key);
    }
  }

  /** A disabled cache never holds anything, and an enabled one nothing larger than half its bound. */
  lemma {:induction false} HeldAreSmall(c: Config, ops: seq<Op>, key: string)
    requires c.capacity > 0
    ensures var e := Lookup(Run(c, ops).lru, key); e.Some? ==> c.enabled && 2 * |e.value.data| <= c.maxSize
  {
    HitsAreTruthful(c, ops);
    LatestAccepted(c, ops, key);
  }
}
