/** The ingest key store: records of hashed stream keys and a fast index over them. The slow, salted hash keeps the
    plaintext it was made from, which is all that verification asks of it; the fast hash is arbitrary. */
module KeyStore {
  import opened Bytes

  type Key = string
  type StreamId = nat

  datatype SlowHash = SlowHash(plaintext: Key, salt: nat)

  /** `bcrypt::verify`, for keys within its length limit. */
  predicate Verify(key: Key, h: SlowHash) {
    key == h.plaintext
  }

  datatype Record = Record(hash: SlowHash, fastIndex: int, streamId: Option<StreamId>)

  datatype Store = Store(keys: seq<Record>, index: map<int, nat>)

  const EMPTY := Store([], map[])

  // ----- Operations -----

  function MakeRecord(fast: Key -> int, key: Key, salt: nat, stream: Option<StreamId>): Record {
    Record(SlowHash(key, salt), fast(key), stream)
  }

  function PushOf(s: Store, r: Record): Store {
    Store(s.keys + [r], s.index[r.fastIndex := |s.keys|])
  }

  function PushAll(s: Store, fast: Key -> int, plain: seq<(Key, nat)>): Store
    decreases |plain|
  {
    if plain == [] then s
    else PushAll(PushOf(s, MakeRecord(fast, plain[0].0, plain[0].1, None)), fast, plain[1..])
  }

  /** The index of the first `n` records, built one after the other. */
  function IndexOf(keys: seq<Record>, n: nat): map<int, nat>
    requires n <= |keys|
  {
    if n == 0 then map[] else IndexOf(keys, n - 1)[keys[n - 1].fastIndex := n - 1]
  }

  /** The records that `drop` does not hit, in their order. */
  function Retain(keys: seq<Record>, drop: Record -> bool): seq<Record> {
    if keys == [] then []
    else if drop(keys[0]) then Retain(keys[1..], drop)
    else [keys[0]] + Retain(keys[1..], drop)
  }

  function RetainOf(s: Store, drop: Record -> bool): Store {
    var keys := Retain(s.keys, drop);
    Store(keys, IndexOf(keys, |keys|))
  }

  function Bound(stream: StreamId): Record -> bool {
    (r: Record) => r.streamId == Some(stream)
  }

  function HashIs(h: SlowHash): Record -> bool {
    (r: Record) => r.hash == h
  }

  /** The first record that verifies the key and, for `bound`, is bound to a stream. */
  function ScanFor(keys: seq<Record>, key: Key, bound: bool): Option<Record> {
    if keys == [] then None
    else if Verify(key, keys[0].hash) && (bound ==> keys[0].streamId.Some?) then Some(keys[0])
    else ScanFor(keys[1..], key, bound)
  }

  function StreamOf(r: Option<Record>): Option<StreamId> {
    if r.None? then None else r.value.streamId
  }

  /** The indexed lookup with its fallback scan. */
  predicate ValidatesOf(s: Store, fast: Key -> int, key: Key) {
    var fh := fast(key);
    if fh !in s.index then false
    else if s.index[fh] < |s.keys| && Verify(key, s.keys[s.index[fh]].hash) then true
    else ScanFor(s.keys, key, false).Some?
  }

  /** `validate_stream_key`: a store without records accepts every key. */
  predicate AcceptsOf(s: Store, fast: Key -> int, key: Key) {
    s.keys == [] || ValidatesOf(s, fast, key)
  }

  function ResolvesOf(s: Store, fast: Key -> int, key: Key): Option<StreamId> {
    var fh := fast(key);
    if fh !in s.index then None
    else if s.index[fh] < |s.keys| && Verify(key, s.keys[s.index[fh]].hash) then s.keys[s.index[fh]].streamId
    else StreamOf(ScanFor(s.keys, key, true))
  }

  class IngestKeyStore {
    const fast: Key -> int
    var keys: seq<Record>
    var index: map<int, nat>

    function View(): Store
      reads this
    {
      Store(keys, index)
    }

    constructor (fast: Key -> int)
      ensures this.fast == fast && View() == EMPTY
    {
      this.fast := fast;
      keys, index := [], map[];
    }

    method RebuildIndex()
      modifies this`index
      ensures index == IndexOf(keys, |keys|)
    {
      index := map[];
      for i := 0 to |keys|
        invariant index == IndexOf(keys, i)
      {
        index := index[keys[i].fastIndex := i];
      }
    }

    method Push(r: Record)
      modifies this
      ensures View() == PushOf(old(View()), r)
    {
      index := index[r.fastIndex := |keys|];
      keys := keys + [r];
    }

    method GenerateForStream(key: Key, salt: nat, stream: Option<StreamId>)
      modifies this
      ensures View() == PushOf(old(View()), MakeRecord(fast, key, salt, stream))
    {
      Push(MakeRecord(fast, key, salt, stream));
    }

    /** The first lock section of a stream's rotation: drops every key bound to it. */
    method DropForStream(stream: StreamId)
      modifies this
      ensures View() == RetainOf(old(View()), Bound(stream))
    {
      keys := Retain(keys, Bound(stream));
      RebuildIndex();
    }

    /** The first lock section of the rotation of one key: drops it by its hash. */
    method DropHashed(oldHash: SlowHash)
      modifies this
      ensures View() == RetainOf(old(View()), HashIs(oldHash))
    {
      keys := Retain(keys, HashIs(oldHash));
      RebuildIndex();
    }

    /** Both lock sections, with nothing in between; the fresh key is bound to the stream. */
    method RotateForStream(stream: StreamId, key: Key, salt: nat)
      modifies this
      ensures View() == PushOf(RetainOf(old(View()), Bound(stream)), MakeRecord(fast, key, salt, Some(stream)))
    {
      DropForStream(stream);
      GenerateForStream(key, salt, Some(stream));
    }

    /** Both lock sections, with nothing in between; the fresh key is bound to no stream. */
    method Rotate(oldHash: SlowHash, key: Key, salt: nat)
      modifies this
      ensures View() == PushOf(RetainOf(old(View()), HashIs(oldHash)), MakeRecord(fast, key, salt, None))
    {
      DropHashed(oldHash);
      GenerateForStream(key, salt, None);
    }

    /** Replaces the whole store by configured keys, which are bound to no stream; each comes with the salt of its
        slow hash. */
    method UpdateStreamKeys(plain: seq<(Key, nat)>)
      modifies this
      ensures View() == PushAll(EMPTY, fast, plain)
    {
      keys, index := [], map[];
      for i := 0 to |plain|
        invariant PushAll(View(), fast, plain[i..]) == PushAll(EMPTY, fast, plain)
      {
        assert plain[i..][1..] == plain[i + 1..];
        Push(MakeRecord(fast, plain[i].0, plain[i].1, None));
      }
    }

    /** An empty store accepts every key. */
    method ValidateStreamKey(key: Key) returns (ok: bool)
      ensures ok == AcceptsOf(View(), fast, key)
    {
      if keys == [] {
        return true;
      }
      var fh := fast(key);
      if fh !in index {
        return false;
      }
      if index[fh] < |keys| && Verify(key, keys[index[fh]].hash) {
        return true;
      }
      return ScanFor(keys, key, false).Some?;
    }

    method ResolveStreamIdForKey(key: Key) returns (stream: Option<StreamId>)
      ensures stream == ResolvesOf(View(), fast, key)
    {
      var fh := fast(key);
      if fh !in index {
        return None;
      }
      if index[fh] < |keys| && Verify(key, keys[index[fh]].hash) {
        return keys[index[fh]].streamId;
      }
      return StreamOf(ScanFor(keys, key, true));
    }
  }

  // ----- The index is right in every reachable state -----

  /** The index leads every fast hash in the store to its last record, and knows no other hash. */
  ghost predicate Indexed(s: Store) {
    && (forall h :: h in s.index ==> s.index[h] < |s.keys| && s.keys[s.index[h]].fastIndex == h)
    && (forall i :: 0 <= i < |s.keys| ==> s.keys[i].fastIndex in s.index && i <= s.index[s.keys[i].fastIndex])
  }

  ghost predicate FastHashed(keys: seq<Record>, fast: Key -> int) {
    forall i :: 0 <= i < |keys| ==> keys[i].fastIndex == fast(keys[i].hash.plaintext)
  }

  ghost predicate Sound(s: Store, fast: Key -> int) {
    Indexed(s) && FastHashed(s.keys, fast)
  }

  lemma {:induction false} PushSound(s: Store, fast: Key -> int, key: Key, salt: nat, stream: Option<StreamId>)
    requires Sound(s, fast)
    ensures Sound(PushOf(s, MakeRecord(fast, key, salt, stream)), fast)
  {
  }

  lemma {:induction false} RebuiltIndexed(keys: seq<Record>, n: nat)
    requires n <= |keys|
    ensures Indexed(Store(keys[..n], IndexOf(keys, n)))
  {
    if n > 0 {
      RebuiltIndexed(keys, n - 1);
      assert keys[..n] == keys[..n - 1] + [keys[n - 1]];
    }
  }

  lemma {:induction false} RetainHashed(keys: seq<Record>, drop: Record -> bool, fast: Key -> int)
    requires FastHashed(keys, fast)
    ensures FastHashed(Retain(keys, drop), fast)
  {
    if keys != [] {
      RetainHashed(keys[1..], drop, fast);
    }
  }

  lemma {:induction false} RetainSound(s: Store, drop: Record -> bool, fast: Key -> int)
    requires Sound(s, fast)
    ensures Sound(RetainOf(s, drop), fast)
  {
    var keys := Retain(s.keys, drop);
    RetainHashed(s.keys, drop, fast);
    RebuiltIndexed(keys, |keys|);
    assert keys[..|keys|] == keys;
  }

  /** What one lock section does to the store. A rotation is two of them: it drops keys, hashes the fresh one with the
      store unlocked, and then adds it; the sections of other threads can come in between. A key that is generated is
      added in one. */
  datatype Step =
    | DropStream(stream: StreamId)
    | DropHash(hash: SlowHash)
    | Add(key: Key, salt: nat, binding: Option<StreamId>)
    | Replace(plain: seq<(Key, nat)>)

  function Apply(s: Store, fast: Key -> int, step: Step): Store {
    match step
    case DropStream(stream) => RetainOf(s, Bound(stream))
    case DropHash(h) => RetainOf(s, HashIs(h))
    case Add(key, salt, binding) => PushOf(s, MakeRecord(fast, key, salt, binding))
    case Replace(plain) => PushAll(EMPTY, fast, plain)
  }

  /** The store after the lock sections of any number of threads, in the order in which they got the lock. */
  function Run(fast: Key -> int, steps: seq<Step>): Store {
    if steps == [] then EMPTY else Apply(Run(fast, steps[..|steps| - 1]), fast, steps[|steps| - 1])
  }

  lemma {:induction false} PushAllSound(s: Store, fast: Key -> int, keys: seq<(Key, nat)>)
    requires Sound(s, fast)
    ensures Sound(PushAll(s, fast, keys), fast)
    decreases |keys|
  {
    if keys != [] {
      PushSound(s, fast, keys[0].0, keys[0].1, None);
      PushAllSound(PushOf(s, MakeRecord(fast, keys[0].0, keys[0].1, None)), fast, keys[1..]);
    }
  }

  lemma {:induction false} RunSound(fast: Key -> int, steps: seq<Step>)
    ensures Sound(Run(fast, steps), fast)
  {
    if steps != [] {
      var s := Run(fast, steps[..|steps| - 1]);
      RunSound(fast, steps[..|steps| - 1]);
      match steps[|steps| - 1]
      case DropStream(stream) => RetainSound(s, Bound(stream), fast);
      case DropHash(h) => RetainSound(s, HashIs(h), fast);
      case Add(key, salt, binding) => PushSound(s, fast, key, salt, binding);
      case Replace(plain) => PushAllSound(EMPTY, fast, plain);
    }
  }

  // ----- The index agrees with a linear scan -----

  lemma {:induction false} ScanFinds(keys: seq<Record>, key: Key, bound: bool)
    ensures ScanFor(keys, key, bound).Some? <==>
      exists i :: 0 <= i < |keys| && Verify(key, keys[i].hash) && (bound ==> keys[i].streamId.Some?)
    ensures var found := ScanFor(keys, key, bound);
      found.Some? ==> found.value in keys && Verify(key, found.value.hash)
  {
    if keys != [] {
      ScanFinds(keys[1..], key, bound);
      if i :| 0 <= i < |keys| && Verify(key, keys[i].hash) && (bound ==> keys[i].streamId.Some?) {
        if i > 0 {
          assert keys[1..][i - 1] == keys[i];
        }
      }
    }
  }

  /** After any lock sections, and whatever the fast hash, a key is accepted by a store with records exactly
      when some record verifies it. */
  lemma {:induction false} ValidatesLikeScan(fast: Key -> int, steps: seq<Step>, key: Key)
    ensures var s := Run(fast, steps);
      ValidatesOf(s, fast, key) <==> exists i :: 0 <= i < |s.keys| && Verify(key, s.keys[i].hash)
  {
    var s := Run(fast, steps);
    RunSound(fast, steps);
    ScanFinds(s.keys, key, false);
  }

  /** The last record with a fast hash. */
  function LastUnder(keys: seq<Record>, fastHash: int): Option<Record> {
    if keys == [] then None
    else if keys[|keys| - 1].fastIndex == fastHash then Some(keys[|keys| - 1])
    else LastUnder(keys[..|keys| - 1], fastHash)
  }

  lemma {:induction false} LastIs(keys: seq<Record>, fastHash: int, i: nat)
    requires i < |keys| && keys[i].fastIndex == fastHash
    requires forall j :: i < j < |keys| ==> keys[j].fastIndex != fastHash
    ensures LastUnder(keys, fastHash) == Some(keys[i])
  {
    if i < |keys| - 1 {
      LastIs(keys[..|keys| - 1], fastHash, i);
    }
  }

  lemma {:induction false} NoneUnder(keys: seq<Record>, fastHash: int)
    requires forall j :: 0 <= j < |keys| ==> keys[j].fastIndex != fastHash
    ensures LastUnder(keys, fastHash) == None
  {
    if keys != [] {
      NoneUnder(keys[..|keys| - 1], fastHash);
    }
  }

  /** The index leads a fast hash to its last record. */
  lemma {:induction false} IndexLeads(s: Store, fastHash: int)
    requires Indexed(s)
    ensures LastUnder(s.keys, fastHash) ==
      if fastHash in s.index then Some(s.keys[s.index[fastHash]]) else None
  {
    if fastHash in s.index {
      LastIs(s.keys, fastHash, s.index[fastHash]);
    } else {
      NoneUnder(s.keys, fastHash);
    }
  }

  /** Resolving a key agrees with a scan for its first bound record if and only if the last record under the key's fast
      hash, if it is one of that key, is bound to the same stream as the first bound record of the key. */
  lemma {:induction false} ResolvesExactly(fast: Key -> int, steps: seq<Step>, key: Key)
    ensures var s := Run(fast, steps);
      var last, scanned := LastUnder(s.keys, fast(key)), StreamOf(ScanFor(s.keys, key, true));
      ResolvesOf(s, fast, key) == scanned <==>
        (last.Some? && last.value.hash.plaintext == key ==> last.value.streamId == scanned)
  {
    var s := Run(fast, steps);
    RunSound(fast, steps);
    IndexLeads(s, fast(key));
    ScanFinds(s.keys, key, true);
  }

  /** Records made from one plaintext agree on the stream they are bound to. */
  ghost predicate Consistent(keys: seq<Record>) {
    forall i, j :: 0 <= i < |keys| && 0 <= j < |keys| && keys[i].hash.plaintext == keys[j].hash.plaintext ==>
      keys[i].streamId == keys[j].streamId
  }

  /** In particular they agree for every key as long as no plaintext is recorded with two different bindings. */
  lemma {:induction false} ResolvesLikeScan(fast: Key -> int, steps: seq<Step>, key: Key)
    requires Consistent(Run(fast, steps).keys)
    ensures var s := Run(fast, steps); ResolvesOf(s, fast, key) == StreamOf(ScanFor(s.keys, key, true))
  {
    var s := Run(fast, steps);
    ResolvesExactly(fast, steps, key);
    RunSound(fast, steps);
    IndexLeads(s, fast(key));
    ScanFinds(s.keys, key, true);
    var found := ScanFor(s.keys, key, true);
    if fast(key) in s.index && found.Some? {
      var i :| 0 <= i < |s.keys| && s.keys[i] == found.value;
      assert s.keys[s.index[fast(key)]].hash.plaintext == key ==>
        s.keys[i].hash.plaintext == s.keys[s.index[fast(key)]].hash.plaintext;
    }
  }

  /** They can disagree: a key bound to a stream and then recorded once more without a stream resolves to none, where
      the scan finds the stream. As keys are drawn at random, it takes a key configured in advance, or a draw that
      repeats one. */
  lemma {:induction false} DuplicateKeyResolvesByLast(fast: Key -> int, key: Key, stream: StreamId)
    ensures var s := Run(fast, [Add(key, 0, Some(stream)), Add(key, 1, None)]);
      ResolvesOf(s, fast, key) == None && StreamOf(ScanFor(s.keys, key, true)) == Some(stream)
  {
    var a, b := Add(key, 0, Some(stream)), Add(key, 1, None);
    var ra, rb := MakeRecord(fast, key, 0, Some(stream)), MakeRecord(fast, key, 1, None);
    assert [a, b][..1] == [a] && [a][..0] == [];
    assert Run(fast, [a]) == PushOf(EMPTY, ra);
    assert Run(fast, [a, b]) == PushOf(PushOf(EMPTY, ra), rb);
    assert Run(fast, [a, b]).keys == [ra, rb];
  }

  // ----- Rotation -----

  function BoundKeys(keys: seq<Record>, stream: StreamId): seq<Record> {
    if keys == [] then []
    else (if keys[0].streamId == Some(stream) then [keys[0]] else []) + BoundKeys(keys[1..], stream)
  }

  /** The records not bound to `stream`, in order. */
  function OtherKeys(keys: seq<Record>, stream: StreamId): seq<Record> {
    if keys == [] then []
    else (if keys[0].streamId == Some(stream) then [] else [keys[0]]) + OtherKeys(keys[1..], stream)
  }

  lemma {:induction false} ConsSplits(r: Record, rest: seq<Record>, stream: StreamId)
    ensures BoundKeys([r] + rest, stream) == (if r.streamId == Some(stream) then [r] else []) + BoundKeys(rest, stream)
    ensures OtherKeys([r] + rest, stream) == (if r.streamId == Some(stream) then [] else [r]) + OtherKeys(rest, stream)
  {
    assert ([r] + rest)[1..] == rest;
  }

  lemma {:induction false} RetainSplits(keys: seq<Record>, stream: StreamId)
    ensures BoundKeys(Retain(keys, Bound(stream)), stream) == []
    ensures OtherKeys(Retain(keys, Bound(stream)), stream) == OtherKeys(keys, stream)
  {
    if keys != [] {
      RetainSplits(keys[1..], stream);
      ConsSplits(keys[0], Retain(keys[1..], Bound(stream)), stream);
    }
  }

  lemma {:induction false} AppendSplits(keys: seq<Record>, r: Record, stream: StreamId)
    requires r.streamId == Some(stream)
    ensures BoundKeys(keys + [r], stream) == BoundKeys(keys, stream) + [r]
    ensures OtherKeys(keys + [r], stream) == OtherKeys(keys, stream)
  {
    if keys == [] {
      assert [] + [r] == [r] && [r][1..] == [];
    } else {
      var first, rest := keys[0], keys[1..];
      AppendSplits(rest, r, stream);
      ConsSplits(first, rest, stream);
      ConsSplits(first, rest + [r], stream);
      assert [first] + rest == keys && [first] + (rest + [r]) == keys + [r];
      var mine := if first.streamId == Some(stream) then [first] else [];
      assert mine + (BoundKeys(rest, stream) + [r]) == (mine + BoundKeys(rest, stream)) + [r];
    }
  }

  lemma {:induction false} RetainMembers(keys: seq<Record>, drop: Record -> bool, r: Record)
    ensures r in Retain(keys, drop) <==> r in keys && !drop(r)
  {
    if keys != [] {
      RetainMembers(keys[1..], drop, r);
    }
  }

  lemma {:induction false} BoundMembers(keys: seq<Record>, stream: StreamId)
    ensures BoundKeys(keys, stream) == [] <==> forall r :: r in keys ==> r.streamId != Some(stream)
  {
    if keys != [] {
      BoundMembers(keys[1..], stream);
      assert forall r :: r in keys <==> r == keys[0] || r in keys[1..];
    }
  }

  // ----- What is in the store after any interleaving -----

  /** The step takes the record out of the store, if it is there. */
  predicate Removes(step: Step, r: Record) {
    match step
    case DropStream(stream) => r.streamId == Some(stream)
    case DropHash(h) => r.hash == h
    case Add(_, _, _) => false
    case Replace(_) => true
  }

  /** The step puts the record into the store. */
  predicate Puts(fast: Key -> int, step: Step, r: Record) {
    match step
    case DropStream(_) => false
    case DropHash(_) => false
    case Add(key, salt, binding) => r == MakeRecord(fast, key, salt, binding)
    case Replace(plain) => exists i :: 0 <= i < |plain| && r == MakeRecord(fast, plain[i].0, plain[i].1, None)
  }

  /** No step from `from` on takes the record out. */
  predicate KeptFrom(steps: seq<Step>, from: nat, r: Record) {
    forall j :: from <= j < |steps| ==> !Removes(steps[j], r)
  }

  /** Some step from `from` on puts the record in, and none after that takes it out. */
  predicate PutFrom(fast: Key -> int, steps: seq<Step>, from: nat, r: Record) {
    exists i: nat :: from <= i < |steps| && Puts(fast, steps[i], r) && KeptFrom(steps, i + 1, r)
  }

  lemma {:induction false} PushAllMembers(s: Store, fast: Key -> int, plain: seq<(Key, nat)>, r: Record)
    ensures r in PushAll(s, fast, plain).keys <==> r in s.keys || Puts(fast, Replace(plain), r)
    decreases |plain|
  {
    if plain != [] {
      var first := MakeRecord(fast, plain[0].0, plain[0].1, None);
      PushAllMembers(PushOf(s, first), fast, plain[1..], r);
      if i :| 0 <= i < |plain| && r == MakeRecord(fast, plain[i].0, plain[i].1, None) {
        if i > 0 {
          assert plain[1..][i - 1] == plain[i];
        }
      }
    }
  }

  lemma {:induction false} StepMembers(s: Store, fast: Key -> int, step: Step, r: Record)
    ensures r in Apply(s, fast, step).keys <==> Puts(fast, step, r) || (r in s.keys && !Removes(step, r))
  {
    match step
    case DropStream(stream) => RetainMembers(s.keys, Bound(stream), r);
    case DropHash(h) => RetainMembers(s.keys, HashIs(h), r);
    case Add(_, _, _) =>
    case Replace(plain) => PushAllMembers(EMPTY, fast, plain, r);
  }

  lemma {:induction false} KeptOneMore(steps: seq<Step>, step: Step, from: nat, r: Record)
    requires from <= |steps|
    ensures KeptFrom(steps + [step], from, r) <==> KeptFrom(steps, from, r) && !Removes(step, r)
  {
    var all := steps + [step];
    assert all[|steps|] == step && forall j :: from <= j < |steps| ==> all[j] == steps[j];
  }

  lemma {:induction false} PutOneMore(fast: Key -> int, steps: seq<Step>, step: Step, from: nat, r: Record)
    requires from <= |steps|
    ensures PutFrom(fast, steps + [step], from, r) <==>
      Puts(fast, step, r) || (PutFrom(fast, steps, from, r) && !Removes(step, r))
  {
    var all := steps + [step];
    forall i: nat | from <= i <= |steps|
      ensures Puts(fast, all[i], r) && KeptFrom(all, i + 1, r) <==>
        if i == |steps| then Puts(fast, step, r)
        else Puts(fast, steps[i], r) && KeptFrom(steps, i + 1, r) && !Removes(step, r)
    {
      if i < |steps| {
        KeptOneMore(steps, step, i + 1, r);
      }
    }
    if PutFrom(fast, steps, from, r) && !Removes(step, r) {
      var i: nat :| from <= i < |steps| && Puts(fast, steps[i], r) && KeptFrom(steps, i + 1, r);
      assert Puts(fast, all[i], r);
    }
    if Puts(fast, step, r) {
      assert Puts(fast, all[|steps|], r);
    }
  }

  /** Seen from any point of a run, a record is in the store in the end exactly if it was there and was kept, or was put
      in since and kept from then on. */
  lemma {:induction false} KeysFrom(fast: Key -> int, steps: seq<Step>, from: nat, r: Record)
    requires from <= |steps|
    ensures r in Run(fast, steps).keys <==>
      (r in Run(fast, steps[..from]).keys && KeptFrom(steps, from, r)) || PutFrom(fast, steps, from, r)
    decreases |steps|
  {
    if from == |steps| {
      assert steps[..from] == steps;
    } else {
      var before, step := steps[..|steps| - 1], steps[|steps| - 1];
      KeysFrom(fast, before, from, r);
      StepMembers(Run(fast, before), fast, step, r);
      assert before + [step] == steps && before[..from] == steps[..from];
      assert KeptFrom(steps, from, r) <==> KeptFrom(before, from, r) && !Removes(step, r) by {
        KeptOneMore(before, step, from, r);
      }
      PutOneMore(fast, before, step, from, r);
    }
  }

  /** Over the whole run: exactly if some step put it in and none after that took it out. */
  lemma {:induction false} KeysAre(fast: Key -> int, steps: seq<Step>, r: Record)
    ensures r in Run(fast, steps).keys <==> PutFrom(fast, steps, 0, r)
  {
    KeysFrom(fast, steps, 0, r);
    assert steps[..0] == [];
  }

  // ----- Rotations among other steps -----

  lemma {:induction false} AddedLast(fast: Key -> int, steps: seq<Step>, key: Key, salt: nat, binding: Option<StreamId>)
    ensures Run(fast, steps + [Add(key, salt, binding)])
         == PushOf(Run(fast, steps), MakeRecord(fast, key, salt, binding))
  {
    assert (steps + [Add(key, salt, binding)])[..|steps|] == steps;
  }

  /** A rotation of a stream's key drops at step `d` and adds the fresh key after all of `steps`. It leaves exactly its
      own key bound to the stream if and only if no other key was bound to the stream since its drop, other than one
      that was taken out again. The keys that are not bound to the stream it leaves as it finds them. */
  lemma {:induction false} RotationReplaces(
    fast: Key -> int, steps: seq<Step>, d: nat, stream: StreamId, key: Key, salt: nat)
    requires d < |steps| && steps[d] == DropStream(stream)
    ensures var s, s' := Run(fast, steps), Run(fast, steps + [Add(key, salt, Some(stream))]);
      && (BoundKeys(s'.keys, stream) == [MakeRecord(fast, key, salt, Some(stream))] <==>
          forall r: Record :: PutFrom(fast, steps, d + 1, r) ==> r.streamId != Some(stream))
      && OtherKeys(s'.keys, stream) == OtherKeys(s.keys, stream)
  {
    var s := Run(fast, steps);
    var own := MakeRecord(fast, key, salt, Some(stream));
    AddedLast(fast, steps, key, salt, Some(stream));
    AppendSplits(s.keys, own, stream);
    BoundMembers(s.keys, stream);
    forall r: Record | r.streamId == Some(stream)
      ensures r in s.keys <==> PutFrom(fast, steps, d + 1, r)
    {
      DroppedThenPut(fast, steps, d, r);
    }
    assert BoundKeys(s.keys, stream) + [own] == [own] <==> BoundKeys(s.keys, stream) == [];
  }

  /** What a step drops is in the store later only if it is put in again. */
  lemma {:induction false} DroppedThenPut(fast: Key -> int, steps: seq<Step>, d: nat, r: Record)
    requires d < |steps| && Removes(steps[d], r) && !Puts(fast, steps[d], r)
    ensures r in Run(fast, steps).keys <==> PutFrom(fast, steps, d + 1, r)
  {
    KeysFrom(fast, steps, d, r);
    assert !KeptFrom(steps, d, r);
    assert PutFrom(fast, steps, d + 1, r) ==> PutFrom(fast, steps, d, r);
    if PutFrom(fast, steps, d, r) {
      var i: nat :| d <= i < |steps| && Puts(fast, steps[i], r) && KeptFrom(steps, i + 1, r);
      assert i >= d + 1;
    }
  }

  /** In particular a rotation that nothing comes between leaves its own key alone bound to the stream, and all other
      keys as they were. */
  lemma {:induction false} RotationAlone(fast: Key -> int, steps: seq<Step>, stream: StreamId, key: Key, salt: nat)
    ensures var s, s' := Run(fast, steps), Run(fast, steps + [DropStream(stream)] + [Add(key, salt, Some(stream))]);
      && s' == PushOf(RetainOf(s, Bound(stream)), MakeRecord(fast, key, salt, Some(stream)))
      && BoundKeys(s'.keys, stream) == [MakeRecord(fast, key, salt, Some(stream))]
      && OtherKeys(s'.keys, stream) == OtherKeys(s.keys, stream)
  {
    var dropped := steps + [DropStream(stream)];
    assert dropped[..|steps|] == steps;
    assert Run(fast, dropped) == RetainOf(Run(fast, steps), Bound(stream));
    AddedLast(fast, dropped, key, salt, Some(stream));
    RetainSplits(Run(fast, steps).keys, stream);
    AppendSplits(Run(fast, dropped).keys, MakeRecord(fast, key, salt, Some(stream)), stream);
  }

  /** Two rotations of one stream that both drop before either adds leave both keys bound, accepted, and resolving to
      the stream. */
  lemma {:induction false} TwoRotations(fast: Key -> int, stream: StreamId, a: Key, b: Key)
    ensures var drop, addA, addB := DropStream(stream), Add(a, 0, Some(stream)), Add(b, 1, Some(stream));
      var s := Run(fast, [drop, drop, addA, addB]);
      && BoundKeys(s.keys, stream) == [MakeRecord(fast, a, 0, Some(stream)), MakeRecord(fast, b, 1, Some(stream))]
      && AcceptsOf(s, fast, a) && AcceptsOf(s, fast, b)
      && ResolvesOf(s, fast, a) == Some(stream) && ResolvesOf(s, fast, b) == Some(stream)
  {
    var drop, addA, addB := DropStream(stream), Add(a, 0, Some(stream)), Add(b, 1, Some(stream));
    var drops := [drop, drop];
    var ra, rb := MakeRecord(fast, a, 0, Some(stream)), MakeRecord(fast, b, 1, Some(stream));
    assert Run(fast, []) == EMPTY && Run(fast, [drop]) == EMPTY by {
      assert [drop][..0] == [];
    }
    assert drops[..1] == [drop] && Run(fast, drops) == EMPTY;
    AddedLast(fast, drops, a, 0, Some(stream));
    AddedLast(fast, drops + [addA], b, 1, Some(stream));
    assert drops + [addA] + [addB] == [drop, drop, addA, addB];
    TwoBound(fast, ra, rb, a, b, stream);
  }

  lemma {:induction false} TwoBound(fast: Key -> int, ra: Record, rb: Record, a: Key, b: Key, stream: StreamId)
    requires ra == MakeRecord(fast, a, 0, Some(stream)) && rb == MakeRecord(fast, b, 1, Some(stream))
    ensures var s := PushOf(PushOf(EMPTY, ra), rb);
      && BoundKeys(s.keys, stream) == [ra, rb]
      && AcceptsOf(s, fast, a) && AcceptsOf(s, fast, b)
      && ResolvesOf(s, fast, a) == Some(stream) && ResolvesOf(s, fast, b) == Some(stream)
  {
    var keys := [ra, rb];
    ConsSplits(rb, [], stream);
    ConsSplits(ra, [rb], stream);
    assert [rb] + [] == [rb] && [ra] + [rb] == keys;
    assert PushOf(PushOf(EMPTY, ra), rb).keys == keys;
  }

  // ----- Who is accepted -----

  /** After any interleaving a key is accepted exactly if some record that verifies it was put in and kept, or if no
      record at all was, in which case every key is. */
  lemma {:induction false} AcceptedExactly(fast: Key -> int, steps: seq<Step>, k: Key)
    ensures AcceptsOf(Run(fast, steps), fast, k) <==>
      || (exists r: Record :: PutFrom(fast, steps, 0, r) && Verify(k, r.hash))
      || (forall r: Record :: !PutFrom(fast, steps, 0, r))
  {
    var keys := Run(fast, steps).keys;
    ValidatesLikeScan(fast, steps, k);
    forall r: Record
      ensures r in keys <==> PutFrom(fast, steps, 0, r)
    {
      KeysAre(fast, steps, r);
    }
    if keys != [] {
      assert keys[0] in keys;
    }
    assert forall i :: 0 <= i < |keys| ==> keys[i] in keys;
  }

  /** A key that no record verifies is accepted exactly if no record was put in and kept. */
  lemma {:induction false} UnverifiedAccepted(fast: Key -> int, steps: seq<Step>, k: Key)
    requires forall r: Record :: PutFrom(fast, steps, 0, r) ==> !Verify(k, r.hash)
    ensures AcceptsOf(Run(fast, steps), fast, k) <==> forall r: Record :: !PutFrom(fast, steps, 0, r)
  {
    AcceptedExactly(fast, steps, k);
  }

  /** In between the two lock sections of a stream's rotation, a key is accepted exactly if a key of another stream, or
      of none, verifies it, or if there are no keys but those of this stream: then every key is, the dropped ones among
      them. */
  lemma {:induction false} AcceptedInBetween(fast: Key -> int, steps: seq<Step>, stream: StreamId, k: Key)
    ensures var keys := Run(fast, steps).keys;
      AcceptsOf(Run(fast, steps + [DropStream(stream)]), fast, k) <==>
        || (exists r :: r in keys && r.streamId != Some(stream) && Verify(k, r.hash))
        || (forall r :: r in keys ==> r.streamId == Some(stream))
  {
    var keys, kept := Run(fast, steps).keys, Retain(Run(fast, steps).keys, Bound(stream));
    var all := steps + [DropStream(stream)];
    assert all[..|steps|] == steps;
    assert Run(fast, all).keys == kept;
    ValidatesLikeScan(fast, all, k);
    forall r: Record
      ensures r in kept <==> r in keys && r.streamId != Some(stream)
    {
      RetainMembers(keys, Bound(stream), r);
    }
    if kept != [] {
      assert kept[0] in kept;
    }
    assert forall i :: 0 <= i < |kept| ==> kept[i] in kept;
  }

  /** So it is in the rotation of the only stream with a key: until the fresh key is added, every key is accepted. */
  lemma {:induction false} OpenInBetween(fast: Key -> int, stream: StreamId, key: Key, salt: nat, k: Key)
    ensures Run(fast, [Add(key, salt, Some(stream)), DropStream(stream)]) == EMPTY
    ensures AcceptsOf(Run(fast, [Add(key, salt, Some(stream)), DropStream(stream)]), fast, k)
  {
    var add := Add(key, salt, Some(stream));
    AddedLast(fast, [], key, salt, Some(stream));
    assert [] + [add] == [add] && [add, DropStream(stream)][..1] == [add];
    var keys := [MakeRecord(fast, key, salt, Some(stream))];
    assert Run(fast, [add]).keys == keys && keys[1..] == [];
    assert Retain(keys, Bound(stream)) == [];
  }

  /** Once a rotation has added its key, a key is accepted exactly if it is the fresh one, or is verified by a record
      that was not bound to the stream when its keys were dropped and has been kept since, or by one put in since and
      kept. The fresh key resolves to the stream. */
  lemma {:induction false} RotationRevokes(
    fast: Key -> int, steps: seq<Step>, d: nat, stream: StreamId, key: Key, salt: nat, k: Key)
    requires d < |steps| && steps[d] == DropStream(stream)
    ensures var s' := Run(fast, steps + [Add(key, salt, Some(stream))]);
      && (AcceptsOf(s', fast, k) <==>
          || k == key
          || (exists r :: r in Run(fast, steps[..d]).keys && r.streamId != Some(stream) && KeptFrom(steps, d + 1, r)
                && Verify(k, r.hash))
          || (exists r: Record :: PutFrom(fast, steps, d + 1, r) && Verify(k, r.hash)))
      && ResolvesOf(s', fast, key) == Some(stream)
  {
    var keys, own := Run(fast, steps).keys, MakeRecord(fast, key, salt, Some(stream));
    AddedLast(fast, steps, key, salt, Some(stream));
    ValidatesLikeScan(fast, steps + [Add(key, salt, Some(stream))], k);
    AddedVerifies(keys, own, k);
    forall r: Record
      ensures r in keys <==>
        || (r in Run(fast, steps[..d]).keys && r.streamId != Some(stream) && KeptFrom(steps, d + 1, r))
        || PutFrom(fast, steps, d + 1, r)
    {
      SinceDrop(fast, steps, d, stream, r);
    }
  }

  lemma {:induction false} AddedVerifies(keys: seq<Record>, own: Record, k: Key)
    ensures (exists i :: 0 <= i < |keys + [own]| && Verify(k, (keys + [own])[i].hash)) <==>
      Verify(k, own.hash) || exists r :: r in keys && Verify(k, r.hash)
  {
    var all := keys + [own];
    assert all[|keys|] == own;
    if r :| r in keys && Verify(k, r.hash) {
      var i :| 0 <= i < |keys| && keys[i] == r;
      assert all[i] == r;
    }
    if i :| 0 <= i < |all| && Verify(k, all[i].hash) {
      if i < |keys| {
        assert keys[i] in keys;
      }
    }
  }

  lemma {:induction false} SinceDrop(fast: Key -> int, steps: seq<Step>, d: nat, stream: StreamId, r: Record)
    requires d < |steps| && steps[d] == DropStream(stream)
    ensures r in Run(fast, steps).keys <==>
      || (r in Run(fast, steps[..d]).keys && r.streamId != Some(stream) && KeptFrom(steps, d + 1, r))
      || PutFrom(fast, steps, d + 1, r)
  {
    KeysFrom(fast, steps, d + 1, r);
    assert steps[..d + 1][..d] == steps[..d];
    StepMembers(Run(fast, steps[..d]), fast, steps[d], r);
  }
}
