/** Everything that runs against the stream state manager, interleaved in small steps: any number of tasks whose
    operations change the streams in one step and the counters in later ones, the one event handler, which decides in
    one step that a stream is ready and makes it ready in another (`src/control/state.rs`, `src/control/events.rs`),
    the one cleanup task, which lists deleted streams and removes them afterwards (`src/storage/cleanup.rs`), and the
    tasks that create streams, which find an id unused in one step and create it in another (`src/ingest/rtmp.rs`). */
module StreamSystem {
  import opened Bytes
  import opened StreamManager

  type TaskId = nat

  /** The cleanup task: the tombstones it has seen so far, or those it has still to deal with. */
  datatype Cleaner = Listing(seen: seq<StreamId>) | Removing(queue: seq<StreamId>)

  /** `inFlight` holds, for every operation that has changed the streams, the counter changes it has not made yet.
      `absent` holds the id that a task has found unused and is about to create. `deciding` is the stream that the
      event handler is about to make ready. `asked` records, for reasoning only, which numbers of renditions a stream
      has been told to expect. */
  datatype System = System(
    streams: Streams, counts: Counts, inFlight: seq<seq<Delta>>, absent: map<TaskId, StreamId>,
    deciding: Option<StreamId>, cleaner: Cleaner, asked: map<StreamId, set<nat>>)

  const INITIAL := System(map[], [0, 0, 0, 0, 0, 0], [], map[], None, Listing([]), map[])

  datatype Step =
    | LookUp(task: TaskId, id: StreamId)
    | Create(task: TaskId, mode: Mode)
    | Transition(id: StreamId, to: StreamState)
    | Fail(id: StreamId, message: string)
    | Expect(id: StreamId, count: nat)
    | Progress(id: StreamId, rendition: string, sequence: nat)
    | CheckComplete(id: StreamId, rendition: string)
    | BecomeReady
    | ApplyDelta(k: nat)
    | Visit(id: StreamId)
    | EndListing
    | Remove
    | Keep

  // ----- Steps -----

  /** Creates the stream that the task has found absent, whatever is there by now. */
  function Created(sys: System, task: TaskId, mode: Mode): System
    requires task in sys.absent
  {
    var id := sys.absent[task];
    sys.(streams := sys.streams[id := NewEntry(mode)], inFlight := sys.inFlight + [[Delta(Pending, 1)]],
         absent := sys.absent - {task}, asked := sys.asked[id := {}])
  }

  function Transitioned(sys: System, id: StreamId, to: StreamState): System {
    var moved := Moved(sys.streams, id, to);
    if moved.Err? then sys
    else sys.(streams := moved.value, inFlight := sys.inFlight + [MoveDeltas(sys.streams[id].state, to)])
  }

  function FailedStep(sys: System, id: StreamId, message: string): System {
    var failed := Failed(sys.streams, id, message);
    if failed.Err? then sys
    else sys.(streams := failed.value, inFlight := sys.inFlight + [MoveDeltas(sys.streams[id].state, Error)])
  }

  function Expected(sys: System, id: StreamId, count: nat): System {
    var known := if id in sys.asked then sys.asked[id] else {};
    sys.(streams := Expecting(sys.streams, id, count), asked := sys.asked[id := known + {count}])
  }

  function Checked(sys: System, id: StreamId, rendition: string): System {
    var streams := Marked(sys.streams, id, rendition);
    sys.(streams := streams, deciding := if AllComplete(streams, id) then Some(id) else None)
  }

  function Applied(sys: System, k: nat): System
    requires k < |sys.inFlight| && sys.inFlight[k] != []
  {
    var ds := sys.inFlight[k];
    sys.(counts := Bump(sys.counts, ds[0]), inFlight := sys.inFlight[k := ds[1..]])
  }

  /** Removes the first listed stream, whatever its state is by now. */
  function Removed(sys: System): System
    requires sys.cleaner.Removing? && sys.cleaner.queue != []
  {
    var id, rest := sys.cleaner.queue[0], Removing(sys.cleaner.queue[1..]);
    if id !in sys.streams then sys.(cleaner := rest)
    else sys.(streams := sys.streams - {id}, inFlight := sys.inFlight + [[Delta(sys.streams[id].state, -1)]],
              cleaner := rest)
  }

  /** When a step can be taken. A task looks an id up before it creates it, and only the event handler makes streams
      ready. */
  predicate Enabled(sys: System, step: Step) {
    match step
    case LookUp(task, id) => id !in sys.streams && task !in sys.absent
    case Create(task, _) => task in sys.absent
    case Transition(_, to) => to != Ready
    case CheckComplete(_, _) => sys.deciding == None
    case BecomeReady => sys.deciding.Some?
    case ApplyDelta(k) => k < |sys.inFlight| && sys.inFlight[k] != []
    case Visit(id) =>
      && sys.cleaner.Listing? && id !in sys.cleaner.seen && id in sys.streams && sys.streams[id].state == Deleted
    case EndListing => sys.cleaner.Listing?
    case Remove => sys.cleaner.Removing? && sys.cleaner.queue != []
    case Keep => sys.cleaner.Removing?
    case _ => true
  }

  function Do(sys: System, step: Step): System
    requires Enabled(sys, step)
  {
    match step
    case LookUp(task, id) => sys.(absent := sys.absent[task := id])
    case Create(task, mode) => Created(sys, task, mode)
    case Transition(id, to) => Transitioned(sys, id, to)
    case Fail(id, message) => FailedStep(sys, id, message)
    case Expect(id, count) => Expected(sys, id, count)
    case Progress(id, r, n) => sys.(streams := Progressed(sys.streams, id, r, n))
    case CheckComplete(id, r) => Checked(sys, id, r)
    case BecomeReady => Transitioned(sys, sys.deciding.value, Ready).(deciding := None)
    case ApplyDelta(k) => Applied(sys, k)
    case Visit(id) => sys.(cleaner := Listing(sys.cleaner.seen + [id]))
    case EndListing => sys.(cleaner := Removing(sys.cleaner.seen))
    case Remove => Removed(sys)
    case Keep => sys.(cleaner := if sys.cleaner.queue == [] then Listing([]) else Removing(sys.cleaner.queue[1..]))
  }

  /** A run: steps that cannot be taken are passed over. */
  function Run(steps: seq<Step>): System {
    if steps == [] then INITIAL
    else
      var sys, step := Run(steps[..|steps| - 1]), steps[|steps| - 1];
      if Enabled(sys, step) then Do(sys, step) else sys
  }

  // ----- An operation that nothing interrupts is the manager's -----

  function Core(sys: System): Manager {
    Manager(sys.streams, sys.counts)
  }

  /** Makes the remaining counter changes of the latest operation. */
  function Settled(sys: System): System
    requires sys.inFlight != []
    decreases |sys.inFlight[|sys.inFlight| - 1]|
  {
    var k := |sys.inFlight| - 1;
    if sys.inFlight[k] == [] then sys else Settled(Applied(sys, k))
  }

  lemma {:induction false} SettledBumps(sys: System)
    requires sys.inFlight != []
    ensures Core(Settled(sys)) == Manager(sys.streams, BumpAll(sys.counts, sys.inFlight[|sys.inFlight| - 1]))
    decreases |sys.inFlight[|sys.inFlight| - 1]|
  {
    var k := |sys.inFlight| - 1;
    if sys.inFlight[k] != [] {
      SettledBumps(Applied(sys, k));
    }
  }

  lemma {:induction false} TransitionInSteps(sys: System, id: StreamId, to: StreamState)
    ensures Core(if Moved(sys.streams, id, to).Ok? then Settled(Transitioned(sys, id, to)) else sys) ==
      TransitionOf(Core(sys), id, to)
  {
    if Moved(sys.streams, id, to).Ok? {
      SettledBumps(Transitioned(sys, id, to));
    }
  }

  lemma {:induction false} CreateInSteps(sys: System, task: TaskId, mode: Mode)
    requires task in sys.absent
    ensures Core(Settled(Created(sys, task, mode))) == CreateOf(Core(sys), sys.absent[task], mode)
  {
    SettledBumps(Created(sys, task, mode));
    OneBump(sys.counts, Delta(Pending, 1));
  }

  lemma {:induction false} OneBump(c: Counts, d: Delta)
    ensures BumpAll(c, [d]) == Bump(c, d)
  {
    assert [d][1..] == [];
  }

  lemma {:induction false} ErrorInSteps(sys: System, id: StreamId, message: string)
    ensures Core(if Failed(sys.streams, id, message).Ok? then Settled(FailedStep(sys, id, message)) else sys) ==
      ErrorOf(Core(sys), id, message)
  {
    if Failed(sys.streams, id, message).Ok? {
      SettledBumps(FailedStep(sys, id, message));
    }
  }

  lemma {:induction false} RemoveInSteps(sys: System)
    requires sys.cleaner.Removing? && sys.cleaner.queue != []
    ensures Core(if sys.cleaner.queue[0] in sys.streams then Settled(Removed(sys)) else Removed(sys)) ==
      RemoveOf(Core(sys), sys.cleaner.queue[0])
  {
    var id := sys.cleaner.queue[0];
    if id in sys.streams {
      SettledBumps(Removed(sys));
      OneBump(sys.counts, Delta(sys.streams[id].state, -1));
    }
  }

  /** Checking and, if the check says so, acting at once. */
  function CheckedAndDone(sys: System, id: StreamId, rendition: string): System {
    var checked := Checked(sys, id, rendition);
    if checked.deciding.None? || Moved(checked.streams, id, Ready).Err? then checked
    else Settled(Transitioned(checked, id, Ready).(deciding := None))
  }

  lemma {:induction false} MarkInSteps(sys: System, id: StreamId, rendition: string)
    ensures Core(CheckedAndDone(sys, id, rendition)) == MarkOf(Core(sys), id, rendition)
  {
    var checked := Checked(sys, id, rendition);
    if checked.deciding.Some? && Moved(checked.streams, id, Ready).Ok? {
      SettledBumps(Transitioned(checked, id, Ready).(deciding := None));
    }
  }

  // ----- The counters -----

  function InState(streams: Streams, s: StreamState): set<StreamId> {
    set id | id in streams && streams[id].state == s
  }

  function NetOf(ds: seq<Delta>, s: StreamState): int {
    if ds == [] then 0 else (if ds[0].state == s then ds[0].change else 0) + NetOf(ds[1..], s)
  }

  /** What the operations in flight have still to add to the counter of a state. */
  function Net(ops: seq<seq<Delta>>, s: StreamState): int {
    if ops == [] then 0 else Net(ops[..|ops| - 1], s) + NetOf(ops[|ops| - 1], s)
  }

  /** By how much the counter of a state and the changes still to come exceed the number of streams in that state. */
  function Excess(streams: Streams, counts: Counts, ops: seq<seq<Delta>>, s: StreamState): int {
    counts[StateIndex(s)] + Net(ops, s) - |InState(streams, s)|
  }

  function ExcessOf(sys: System, s: StreamState): int {
    Excess(sys.streams, sys.counts, sys.inFlight, s)
  }

  /** For every state, the counter and the changes still to come make up the number of streams in that state. */
  ghost predicate Books(sys: System) {
    forall s :: ExcessOf(sys, s) == 0
  }

  function One(b: bool): int {
    if b then 1 else 0
  }

  lemma {:induction false} OneChanged(before: set<StreamId>, after: set<StreamId>, id: StreamId)
    requires forall x :: x != id ==> (x in before <==> x in after)
    ensures |after| == |before| + One(id in after) - One(id in before)
  {
    var rest := before - {id};
    assert after - {id} == rest;
    assert before == if id in before then rest + {id} else rest;
    assert after == if id in after then rest + {id} else rest;
  }

  lemma {:induction false} InStateUpdated(streams: Streams, id: StreamId, e: Entry, s: StreamState)
    ensures |InState(streams[id := e], s)| ==
      |InState(streams, s)| + One(e.state == s) - One(id in streams && streams[id].state == s)
  {
    OneChanged(InState(streams, s), InState(streams[id := e], s), id);
  }

  lemma {:induction false} InStateRemoved(streams: Streams, id: StreamId, s: StreamState)
    requires id in streams
    ensures |InState(streams - {id}, s)| == |InState(streams, s)| - One(streams[id].state == s)
  {
    OneChanged(InState(streams, s), InState(streams - {id}, s), id);
  }

  lemma {:induction false} NetAppended(ops: seq<seq<Delta>>, ds: seq<Delta>, s: StreamState)
    ensures Net(ops + [ds], s) == Net(ops, s) + NetOf(ds, s)
  {
    assert (ops + [ds])[..|ops|] == ops;
  }

  lemma {:induction false} NetReplaced(ops: seq<seq<Delta>>, k: nat, ds: seq<Delta>, s: StreamState)
    requires k < |ops|
    ensures Net(ops[k := ds], s) == Net(ops, s) - NetOf(ops[k], s) + NetOf(ds, s)
  {
    var n := |ops| - 1;
    if k == n {
      assert ops[k := ds][..n] == ops[..n];
    } else {
      NetReplaced(ops[..n], k, ds, s);
      assert ops[k := ds][..n] == ops[..n][k := ds];
    }
  }

  lemma {:induction false} MoveNet(from: StreamState, to: StreamState, s: StreamState)
    ensures NetOf(MoveDeltas(from, to), s) == One(to == s) - One(from == s)
  {
    assert MoveDeltas(from, to)[1..] == [Delta(to, 1)] && [Delta(to, 1)][1..] == [];
    assert NetOf([Delta(to, 1)], s) == One(to == s);
  }

  lemma {:induction false} OneNet(state: StreamState, change: int, s: StreamState)
    ensures NetOf([Delta(state, change)], s) == if state == s then change else 0
  {
    assert [Delta(state, change)][1..] == [];
  }

  lemma {:induction false} IndexInjective(s: StreamState, t: StreamState)
    ensures StateIndex(s) == StateIndex(t) <==> s == t
  {
  }

  /** Changing the entry of a stream, with the counter changes of its move in flight, does not change any excess. */
  lemma {:induction false} MoveBalanced(sys: System, id: StreamId, e: Entry, s: StreamState)
    requires id in sys.streams
    ensures Excess(sys.streams[id := e], sys.counts,
                   sys.inFlight + [MoveDeltas(sys.streams[id].state, e.state)], s) == ExcessOf(sys, s)
  {
    InStateUpdated(sys.streams, id, e, s);
    NetAppended(sys.inFlight, MoveDeltas(sys.streams[id].state, e.state), s);
    MoveNet(sys.streams[id].state, e.state, s);
  }

  lemma {:induction false} SameStateBalanced(sys: System, id: StreamId, e: Entry, s: StreamState)
    requires id in sys.streams && e.state == sys.streams[id].state
    ensures Excess(sys.streams[id := e], sys.counts, sys.inFlight, s) == ExcessOf(sys, s)
  {
    InStateUpdated(sys.streams, id, e, s);
  }

  lemma {:induction false} AppliedBalanced(sys: System, k: nat, s: StreamState)
    requires k < |sys.inFlight| && sys.inFlight[k] != []
    ensures ExcessOf(Applied(sys, k), s) == ExcessOf(sys, s)
  {
    NetReplaced(sys.inFlight, k, sys.inFlight[k][1..], s);
    IndexInjective(s, sys.inFlight[k][0].state);
  }

  /** The stream whose entry a step replaces by a new one. */
  function Replaced(sys: System, step: Step): Option<StreamId> {
    if step.Create? && step.task in sys.absent && sys.absent[step.task] in sys.streams then
      Some(sys.absent[step.task])
    else None
  }

  predicate ReplacesIn(sys: System, step: Step, s: StreamState) {
    Replaced(sys, step).Some? && sys.streams[Replaced(sys, step).value].state == s
  }

  lemma {:induction false} CreatedBalanced(sys: System, task: TaskId, mode: Mode, s: StreamState)
    requires task in sys.absent
    ensures ExcessOf(Created(sys, task, mode), s) == ExcessOf(sys, s) + One(ReplacesIn(sys, Create(task, mode), s))
  {
    InStateUpdated(sys.streams, sys.absent[task], NewEntry(mode), s);
    NetAppended(sys.inFlight, [Delta(Pending, 1)], s);
    OneNet(Pending, 1, s);
  }

  lemma {:induction false} RemovedBalanced(sys: System, s: StreamState)
    requires sys.cleaner.Removing? && sys.cleaner.queue != []
    ensures ExcessOf(Removed(sys), s) == ExcessOf(sys, s)
  {
    var id := sys.cleaner.queue[0];
    if id in sys.streams {
      GoneBalanced(sys.streams, sys.counts, sys.inFlight, id, sys.streams[id].state, s);
    }
  }

  lemma {:induction false} GoneBalanced(
    streams: Streams, counts: Counts, ops: seq<seq<Delta>>, id: StreamId, state: StreamState, s: StreamState)
    requires id in streams && state == streams[id].state
    ensures Excess(streams - {id}, counts, ops + [[Delta(state, -1)]], s) == Excess(streams, counts, ops, s)
  {
    InStateRemoved(streams, id, s);
    NetAppended(ops, [Delta(state, -1)], s);
    OneNet(state, -1, s);
  }

  lemma {:induction false} TransitionedBalanced(sys: System, id: StreamId, to: StreamState, s: StreamState)
    ensures ExcessOf(Transitioned(sys, id, to), s) == ExcessOf(sys, s)
  {
    if Moved(sys.streams, id, to).Ok? {
      MoveBalanced(sys, id, sys.streams[id].(state := to), s);
    }
  }

  /** One step changes the excess of a state only if it replaces an entry in that state, and then by one. */
  lemma {:induction false} StepExcess(sys: System, step: Step, s: StreamState)
    requires Enabled(sys, step)
    ensures ExcessOf(Do(sys, step), s) == ExcessOf(sys, s) + One(ReplacesIn(sys, step, s))
  {
    match step
    case Create(task, mode) => CreatedBalanced(sys, task, mode, s);
    case Transition(id, to) => TransitionedBalanced(sys, id, to, s);
    case Fail(id, message) =>
      if Failed(sys.streams, id, message).Ok? {
        MoveBalanced(sys, id, sys.streams[id].(state := Error, error := Some(message)), s);
      }
    case Expect(id, count) =>
      if id in sys.streams {
        SameStateBalanced(sys, id, sys.streams[id].(expected := Some(count)), s);
      }
    case Progress(id, r, n) =>
      if id in sys.streams {
        SameStateBalanced(sys, id, Progressed(sys.streams, id, r, n)[id], s);
      }
    case CheckComplete(id, r) =>
      if id in sys.streams && r in sys.streams[id].renditions {
        SameStateBalanced(sys, id, Marked(sys.streams, id, r)[id], s);
      }
    case BecomeReady => TransitionedBalanced(sys, sys.deciding.value, Ready, s);
    case ApplyDelta(k) => AppliedBalanced(sys, k, s);
    case Remove => RemovedBalanced(sys, s);
    case _ =>
  }

  /** How many entries in state `s` the creations of a run have replaced. */
  function Replacements(steps: seq<Step>, s: StreamState): nat {
    if steps == [] then 0
    else
      var before, step := steps[..|steps| - 1], steps[|steps| - 1];
      Replacements(before, s) + (if ReplacesIn(Run(before), step, s) then 1 else 0)
  }

  lemma {:induction false} InitialBooks(s: StreamState)
    ensures ExcessOf(INITIAL, s) == 0
  {
    assert InState(INITIAL.streams, s) == {};
  }

  /** In every reachable state, for every lifecycle state, the counter and the changes in flight make up the number of
      streams in that state and of those in it that a later creation of the same id has replaced. */
  lemma {:induction false} RunBooks(steps: seq<Step>, s: StreamState)
    ensures var sys := Run(steps);
      sys.counts[StateIndex(s)] + Net(sys.inFlight, s) == |InState(sys.streams, s)| + Replacements(steps, s)
  {
    if steps == [] {
      InitialBooks(s);
    } else {
      RunBooks(steps[..|steps| - 1], s);
      var sys, step := Run(steps[..|steps| - 1]), steps[|steps| - 1];
      if Enabled(sys, step) {
        StepExcess(sys, step, s);
      }
    }
  }

  /** No creation of the run replaces an entry: every one finds its id still unused. */
  predicate NoneReplaced(steps: seq<Step>) {
    steps == [] ||
    (NoneReplaced(steps[..|steps| - 1]) && Replaced(Run(steps[..|steps| - 1]), steps[|steps| - 1]).None?)
  }

  lemma {:induction false} NoReplacements(steps: seq<Step>, s: StreamState)
    requires NoneReplaced(steps)
    ensures Replacements(steps, s) == 0
  {
    if steps != [] {
      NoReplacements(steps[..|steps| - 1], s);
    }
  }

  lemma {:induction false} SomeReplacement(steps: seq<Step>) returns (s: StreamState)
    requires !NoneReplaced(steps)
    ensures Replacements(steps, s) > 0
  {
    var before, step := steps[..|steps| - 1], steps[|steps| - 1];
    if NoneReplaced(before) {
      s := Run(before).streams[Replaced(Run(before), step).value].state;
    } else {
      s := SomeReplacement(before);
    }
  }

  /** The books are right exactly after the runs in which no creation replaced an entry. */
  lemma {:induction false} BooksExactly(steps: seq<Step>)
    ensures Books(Run(steps)) <==> NoneReplaced(steps)
  {
    if NoneReplaced(steps) {
      forall s
        ensures ExcessOf(Run(steps), s) == 0
      {
        NoReplacements(steps, s);
        RunBooks(steps, s);
      }
    } else {
      var s := SomeReplacement(steps);
      RunBooks(steps, s);
      assert ExcessOf(Run(steps), s) != 0;
    }
  }

  lemma {:induction false} NoneReplacedBefore(steps: seq<Step>, more: seq<Step>)
    requires NoneReplaced(steps + more)
    ensures NoneReplaced(steps)
  {
    if more == [] {
      assert steps + more == steps;
    } else {
      var n := |more| - 1;
      assert (steps + more)[..|steps + more| - 1] == steps + more[..n];
      NoneReplacedBefore(steps, more[..n]);
    }
  }

  /** Books once wrong stay wrong, whatever happens afterwards. */
  lemma {:induction false} BrokenForGood(steps: seq<Step>, more: seq<Step>)
    requires !Books(Run(steps))
    ensures !Books(Run(steps + more))
  {
    BooksExactly(steps);
    BooksExactly(steps + more);
    if NoneReplaced(steps + more) {
      NoneReplacedBefore(steps, more);
    }
  }

  lemma {:induction false} NothingNet(ops: seq<seq<Delta>>, s: StreamState)
    requires forall k :: 0 <= k < |ops| ==> ops[k] == []
    ensures Net(ops, s) == 0
  {
    if ops != [] {
      NothingNet(ops[..|ops| - 1], s);
    }
  }

  /** Whenever no operation is in flight, a counter is the number of streams in its state if and only if no entry in
      that state was replaced, and otherwise it is too high by the number of those. */
  lemma {:induction false} QuietCountsExact(steps: seq<Step>, s: StreamState)
    requires forall k :: 0 <= k < |Run(steps).inFlight| ==> Run(steps).inFlight[k] == []
    ensures var count, streams := Run(steps).counts[StateIndex(s)], |InState(Run(steps).streams, s)|;
      && count == streams + Replacements(steps, s)
      && (count == streams <==> Replacements(steps, s) == 0)
  {
    RunBooks(steps, s);
    NothingNet(Run(steps).inFlight, s);
  }

  /** In between a counter can be negative: here a stream goes live before its creation is counted. */
  lemma {:induction false} CounterGoesNegative(task: TaskId, id: StreamId)
    ensures Run([LookUp(task, id), Create(task, LiveMode), Transition(id, Live), ApplyDelta(1)]).counts[0] == -1
  {
    var s1 := OneLookUp(task, id);
    var a, b, c, d := LookUp(task, id), Create(task, LiveMode), Transition(id, Live), ApplyDelta(1);
    var s2, s3 := Created(s1, task, LiveMode), Transitioned(Created(s1, task, LiveMode), id, Live);
    RunOn([a], b, s1, s2, [a, b]);
    RunOn([a, b], c, s2, s3, [a, b, c]);
    assert s3.inFlight == [[Delta(Pending, 1)], MoveDeltas(Pending, Live)];
    RunOn([a, b, c], d, s3, Applied(s3, 1), [a, b, c, d]);
  }

  lemma {:induction false} RunOn(before: seq<Step>, step: Step, sys: System, sys': System, steps: seq<Step>)
    requires Run(before) == sys && Enabled(sys, step) && sys' == Do(sys, step) && steps == before + [step]
    ensures Run(steps) == sys'
  {
    assert steps[..|steps| - 1] == before;
  }

  lemma {:induction false} OneLookUp(task: TaskId, id: StreamId) returns (sys: System)
    ensures sys == INITIAL.(absent := map[task := id]) && Run([LookUp(task, id)]) == sys
  {
    sys := INITIAL.(absent := map[task := id]);
    RunOn([], LookUp(task, id), INITIAL, sys, [LookUp(task, id)]);
  }

  function StateOf(streams: Streams, id: StreamId): Option<StreamState> {
    if id in streams then Some(streams[id].state) else None
  }

  /** Two publishers with one key: both find the stream of the key gone, one creates it and goes live, then the other
      creates it as well. The live stream is pending again, and the books are wrong from here on. */
  lemma {:induction false} TwoPublishers(id: StreamId)
    ensures var steps := [LookUp(1, id), LookUp(2, id), Create(1, LiveMode), Transition(id, Live), Create(2, LiveMode)];
      && StateOf(Run(steps[..4]).streams, id) == Some(Live) && StateOf(Run(steps).streams, id) == Some(Pending)
      && !Books(Run(steps))
  {
    var a, b, c, d, e := LookUp(1, id), LookUp(2, id), Create(1, LiveMode), Transition(id, Live), Create(2, LiveMode);
    var s1 := OneLookUp(1, id);
    var s2 := s1.(absent := s1.absent[2 := id]);
    var s3 := Created(s2, 1, LiveMode);
    var s4 := Transitioned(s3, id, Live);
    RunOn([a], b, s1, s2, [a, b]);
    RunOn([a, b], c, s2, s3, [a, b, c]);
    RunOn([a, b, c], d, s3, s4, [a, b, c, d]);
    RunOn([a, b, c, d], e, s4, Created(s4, 2, LiveMode), [a, b, c, d, e]);
    assert [a, b, c, d, e][..4] == [a, b, c, d];
    BooksExactly([a, b, c, d, e]);
  }

  // ----- The lifecycle of one stream -----

  function Rank(s: StreamState): (r: nat)
    ensures r <= 5
  {
    match s
    case Pending => 0
    case Live => 1
    case Processing => 2
    case Ready => 3
    case Error => 4
    case Deleted => 5
  }

  lemma {:induction false} RankSeparates(s: StreamState, t: StreamState)
    ensures Rank(s) == Rank(t) <==> s == t
  {
  }

  /** What may happen to a stream in a step that does not replace its entry: its mode stays; its state stays or goes up
      by a valid transition, to READY only when the event handler has decided so; and only a stream that is first in the
      queue of the cleanup task can disappear. */
  ghost predicate Advances(sys: System, sys': System, id: StreamId) {
    id in sys.streams ==>
      && (id in sys'.streams ==>
            && sys'.streams[id].mode == sys.streams[id].mode
            && Rank(sys.streams[id].state) <= Rank(sys'.streams[id].state)
            && (sys'.streams[id].state != sys.streams[id].state ==>
                  ValidTransition(sys.streams[id].state, sys'.streams[id].state, sys.streams[id].mode))
            && (sys'.streams[id].state == Ready && sys.streams[id].state != Ready ==> sys.deciding == Some(id)))
      && (id !in sys'.streams ==> sys.cleaner.Removing? && sys.cleaner.queue != [] && sys.cleaner.queue[0] == id)
  }

  lemma {:induction false} StepAdvances(sys: System, step: Step, id: StreamId)
    requires Enabled(sys, step)
    ensures if Replaced(sys, step) == Some(id) then Do(sys, step).streams[id] == NewEntry(step.mode)
            else Advances(sys, Do(sys, step), id)
  {
  }

  predicate Backwards(a: Streams, b: Streams, id: StreamId) {
    id in a && id in b && Rank(b[id].state) < Rank(a[id].state)
  }

  /** A step moves a state backwards exactly if it creates a stream over an entry that is past PENDING. */
  lemma {:induction false} BackwardsExactly(sys: System, step: Step, id: StreamId)
    requires Enabled(sys, step)
    ensures Backwards(sys.streams, Do(sys, step).streams, id) <==>
      Replaced(sys, step) == Some(id) && sys.streams[id].state != Pending
  {
    StepAdvances(sys, step, id);
    if id in sys.streams {
      RankSeparates(sys.streams[id].state, Pending);
    }
  }

  /** Along the run, no step moves the state of the stream backwards. */
  predicate NeverBackwards(steps: seq<Step>, id: StreamId) {
    steps == [] ||
    (var before := steps[..|steps| - 1];
     NeverBackwards(before, id) && !Backwards(Run(before).streams, Run(steps).streams, id))
  }

  /** Along the run, no creation of that id finds a stream past PENDING. */
  predicate NeverReset(steps: seq<Step>, id: StreamId) {
    steps == [] ||
    (var before, step := steps[..|steps| - 1], steps[|steps| - 1];
     && NeverReset(before, id)
     && !(Replaced(Run(before), step) == Some(id) && Run(before).streams[id].state != Pending))
  }

  /** Over whole runs: a stream's state never moves backwards if and only if no creation of its id ever finds it past
      PENDING. */
  lemma {:induction false} NeverBackwardsExactly(steps: seq<Step>, id: StreamId)
    ensures NeverBackwards(steps, id) <==> NeverReset(steps, id)
  {
    if steps != [] {
      var before, step := steps[..|steps| - 1], steps[|steps| - 1];
      NeverBackwardsExactly(before, id);
      if Enabled(Run(before), step) {
        BackwardsExactly(Run(before), step, id);
      }
    }
  }

  // ----- What holds in every reachable state -----

  /** Streams of uploads are never live. */
  ghost predicate VodNeverLive(streams: Streams) {
    forall id :: id in streams && streams[id].mode == VodMode ==> streams[id].state != Live
  }

  lemma {:induction false} VodKept(sys: System, step: Step)
    requires Enabled(sys, step) && VodNeverLive(sys.streams)
    ensures VodNeverLive(Do(sys, step).streams)
  {
  }

  lemma {:induction false} UploadsNeverLive(steps: seq<Step>)
    ensures VodNeverLive(Run(steps).streams)
  {
    if steps != [] {
      UploadsNeverLive(steps[..|steps| - 1]);
      if Enabled(Run(steps[..|steps| - 1]), steps[|steps| - 1]) {
        VodKept(Run(steps[..|steps| - 1]), steps[|steps| - 1]);
      }
    }
  }

  function Listed(c: Cleaner): seq<StreamId> {
    match c
    case Listing(seen) => seen
    case Removing(queue) => queue
  }

  /** Everything the cleanup task has listed is still there, once, and deleted. */
  ghost predicate Tombstones(sys: System) {
    var q := Listed(sys.cleaner);
    && (forall i :: 0 <= i < |q| ==> q[i] in sys.streams && sys.streams[q[i]].state == Deleted)
    && (forall i, j :: 0 <= i < j < |q| ==> q[i] != q[j])
  }

  /** The id that a step creates. */
  function CreatedId(sys: System, step: Step): Option<StreamId> {
    if step.Create? && step.task in sys.absent then Some(sys.absent[step.task]) else None
  }

  predicate CreatesListed(sys: System, step: Step) {
    CreatedId(sys, step).Some? && CreatedId(sys, step).value in Listed(sys.cleaner)
  }

  /** A step keeps the list of the cleanup task right exactly if it does not create a stream over a listed one. */
  lemma {:induction false} TombstonesExactly(sys: System, step: Step)
    requires Enabled(sys, step) && Tombstones(sys)
    ensures Tombstones(Do(sys, step)) <==> !CreatesListed(sys, step)
  {
    if CreatesListed(sys, step) {
      var i :| 0 <= i < |Listed(sys.cleaner)| && Listed(sys.cleaner)[i] == CreatedId(sys, step).value;
      assert Do(sys, step).streams[Listed(sys.cleaner)[i]].state == Pending;
    } else {
      TombstonesKept(sys, step);
    }
  }

  lemma {:induction false} TombstonesKept(sys: System, step: Step)
    requires Enabled(sys, step) && Tombstones(sys) && !CreatesListed(sys, step)
    ensures Tombstones(Do(sys, step))
  {
    var sys' := Do(sys, step);
    var q, q' := Listed(sys.cleaner), Listed(sys'.cleaner);
    forall i | 0 <= i < |q'|
      ensures q'[i] in sys'.streams && sys'.streams[q'[i]].state == Deleted
    {
      StepAdvances(sys, step, q'[i]);
      if (step.Remove? || step.Keep?) && q != [] {
        assert q'[i] == q[i + 1] && q[0] != q[i + 1];
      }
    }
    forall i, j | 0 <= i < j < |q'|
      ensures q'[i] != q'[j]
    {
      if (step.Remove? || step.Keep?) && q != [] {
        assert q'[i] == q[i + 1] && q'[j] == q[j + 1];
      }
    }
  }

  /** Along the run, no stream is created over one that the cleanup task has listed. */
  predicate SparesListed(steps: seq<Step>) {
    steps == [] ||
    (SparesListed(steps[..|steps| - 1]) && !CreatesListed(Run(steps[..|steps| - 1]), steps[|steps| - 1]))
  }

  lemma {:induction false} RunTombstones(steps: seq<Step>)
    requires SparesListed(steps)
    ensures Tombstones(Run(steps))
  {
    if steps != [] {
      var sys, step := Run(steps[..|steps| - 1]), steps[|steps| - 1];
      RunTombstones(steps[..|steps| - 1]);
      if Enabled(sys, step) {
        TombstonesKept(sys, step);
      }
    }
  }

  /** In runs that create no stream over a listed one, the cleanup task removes only deleted streams, although listing
      and removal are separate steps; and nothing else ever removes streams. */
  lemma {:induction false} OnlyDeletedRemoved(steps: seq<Step>, step: Step, id: StreamId)
    requires Enabled(Run(steps), step) && id in Run(steps).streams && id !in Do(Run(steps), step).streams
    ensures step == Remove && (SparesListed(steps) ==> Run(steps).streams[id].state == Deleted)
  {
    StepAdvances(Run(steps), step, id);
    if SparesListed(steps) {
      RunTombstones(steps);
      assert Listed(Run(steps).cleaner)[0] == id;
    }
  }

  /** A stream created over the one that is next to be removed is removed in its place, while still pending. */
  lemma {:induction false} CreatedThenRemoved(sys: System, task: TaskId, mode: Mode, id: StreamId)
    requires sys.cleaner.Removing? && sys.cleaner.queue != [] && sys.cleaner.queue[0] == id
    requires task in sys.absent && sys.absent[task] == id
    ensures var sys' := Do(sys, Create(task, mode));
      StateOf(sys'.streams, id) == Some(Pending) && Enabled(sys', Remove) && id !in Do(sys', Remove).streams
  {
  }

  /** It does come to that: two publishers find the stream of their key gone, one creates it, it fails and is deleted,
      the cleanup task lists it, and then the other creates it. */
  lemma {:induction false} CreatedThenRemovedReached(id: StreamId) returns (steps: seq<Step>)
    ensures var sys := Run(steps);
      && sys.cleaner == Removing([id]) && 2 in sys.absent && sys.absent[2] == id
  {
    var sys: System;
    steps, sys := BothFound(id);
    steps, sys := Next(steps, sys, Fail(id, ""));
    steps, sys := Next(steps, sys, Transition(id, Deleted));
    steps, sys := Next(steps, sys, Visit(id));
    steps, sys := Next(steps, sys, EndListing);
  }

  lemma {:induction false} Next(steps: seq<Step>, sys: System, step: Step) returns (steps': seq<Step>, sys': System)
    requires Run(steps) == sys && Enabled(sys, step)
    ensures steps' == steps + [step] && sys' == Do(sys, step) && Run(steps') == sys'
  {
    steps', sys' := steps + [step], Do(sys, step);
    RunOn(steps, step, sys, sys', steps');
  }

  /** Two tasks find an id unused, and one of them creates it. */
  lemma {:induction false} BothFound(id: StreamId) returns (steps: seq<Step>, sys: System)
    ensures sys == System(map[id := NewEntry(LiveMode)], [0, 0, 0, 0, 0, 0], [[Delta(Pending, 1)]], map[2 := id], None,
                          Listing([]), map[id := {}])
    ensures Run(steps) == sys
  {
    steps, sys := Next([], INITIAL, LookUp(1, id));
    steps, sys := Next(steps, sys, LookUp(2, id));
    steps, sys := Next(steps, sys, Create(1, LiveMode));
    assert sys.absent == map[2 := id] && sys.streams == map[id := NewEntry(LiveMode)];
    assert sys.inFlight == [[Delta(Pending, 1)]];
  }

  /** At least as many renditions are complete as the stream was at some time told to expect. */
  ghost predicate Justified(sys: System, id: StreamId) {
    && id in sys.streams && id in sys.asked
    && exists n :: n in sys.asked[id] && n <= |CompleteRenditions(sys.streams[id])|
  }

  ghost predicate AskedKnown(sys: System, id: StreamId) {
    id in sys.streams ==>
      id in sys.asked && (sys.streams[id].expected.Some? ==> sys.streams[id].expected.value in sys.asked[id])
  }

  ghost predicate ReadyJustified(sys: System) {
    && (forall id :: AskedKnown(sys, id))
    && (forall id :: id in sys.streams && sys.streams[id].state == Ready ==> Justified(sys, id))
    && (sys.deciding.Some? && sys.deciding.value in sys.streams ==> Justified(sys, sys.deciding.value))
  }

  lemma {:induction false} CompletesGrow(e: Entry, e': Entry)
    requires CompleteRenditions(e) <= CompleteRenditions(e')
    ensures |CompleteRenditions(e)| <= |CompleteRenditions(e')|
  {
    var more := CompleteRenditions(e') - CompleteRenditions(e);
    assert CompleteRenditions(e') == CompleteRenditions(e) + more;
  }

  /** Complete renditions stay complete as long as the entry is there, and the numbers asked for are not forgotten. */
  lemma {:induction false} StepKeepsCompletes(sys: System, step: Step, id: StreamId)
    requires Enabled(sys, step) && id in sys.streams && id in Do(sys, step).streams
    requires Replaced(sys, step) != Some(id)
    ensures CompleteRenditions(sys.streams[id]) <= CompleteRenditions(Do(sys, step).streams[id])
    ensures id in sys.asked ==> id in Do(sys, step).asked && sys.asked[id] <= Do(sys, step).asked[id]
  {
  }

  lemma {:induction false} JustifiedKept(sys: System, step: Step, id: StreamId)
    requires Enabled(sys, step) && Justified(sys, id) && id in Do(sys, step).streams
    requires Replaced(sys, step) != Some(id)
    ensures Justified(Do(sys, step), id)
  {
    var sys' := Do(sys, step);
    StepKeepsCompletes(sys, step, id);
    CompletesGrow(sys.streams[id], sys'.streams[id]);
    var n :| n in sys.asked[id] && n <= |CompleteRenditions(sys.streams[id])|;
    assert n in sys'.asked[id];
  }

  lemma {:induction false} AskedKept(sys: System, step: Step, id: StreamId)
    requires Enabled(sys, step) && AskedKnown(sys, id)
    ensures AskedKnown(Do(sys, step), id)
  {
  }

  lemma {:induction false} DecisionJustified(sys: System, id: StreamId, rendition: string)
    requires AskedKnown(sys, id) && AllComplete(Marked(sys.streams, id, rendition), id)
    ensures Justified(Checked(sys, id, rendition), id)
  {
  }

  predicate CreatesDecided(sys: System, step: Step) {
    CreatedId(sys, step).Some? && sys.deciding == CreatedId(sys, step)
  }

  lemma {:induction false} DecisionKept(sys: System, step: Step)
    requires Enabled(sys, step) && ReadyJustified(sys) && !CreatesDecided(sys, step)
    ensures var sys' := Do(sys, step);
      sys'.deciding.Some? && sys'.deciding.value in sys'.streams ==> Justified(sys', sys'.deciding.value)
  {
    var sys' := Do(sys, step);
    if sys'.deciding.Some? && sys'.deciding.value in sys'.streams {
      var id := sys'.deciding.value;
      match step
      case CheckComplete(id', r) => DecisionJustified(sys, id', r);
      case _ => JustifiedKept(sys, step, id);
    }
  }

  lemma {:induction false} ReadyKept(sys: System, step: Step)
    requires Enabled(sys, step) && ReadyJustified(sys) && !CreatesDecided(sys, step)
    ensures ReadyJustified(Do(sys, step))
  {
    var sys' := Do(sys, step);
    forall id | id in sys'.streams
      ensures AskedKnown(sys', id)
    {
      AskedKept(sys, step, id);
    }
    forall id | id in sys'.streams && sys'.streams[id].state == Ready
      ensures Justified(sys', id)
    {
      StepAdvances(sys, step, id);
      JustifiedKept(sys, step, id);
    }
    DecisionKept(sys, step);
  }

  /** A step keeps every ready stream, and the pending decision, justified exactly if it does not create the stream that
      is being decided on. */
  lemma {:induction false} ReadyKeptExactly(sys: System, step: Step)
    requires Enabled(sys, step) && ReadyJustified(sys)
    ensures ReadyJustified(Do(sys, step)) <==> !CreatesDecided(sys, step)
  {
    if CreatesDecided(sys, step) {
      assert !Justified(Do(sys, step), sys.deciding.value);
    } else {
      ReadyKept(sys, step);
    }
  }

  /** Along the run, no stream is created while the event handler is about to make one of that id ready. */
  predicate SparesDecided(steps: seq<Step>) {
    steps == [] ||
    (SparesDecided(steps[..|steps| - 1]) && !CreatesDecided(Run(steps[..|steps| - 1]), steps[|steps| - 1]))
  }

  lemma {:induction false} RunReady(steps: seq<Step>)
    requires SparesDecided(steps)
    ensures ReadyJustified(Run(steps))
  {
    if steps != [] {
      var sys, step := Run(steps[..|steps| - 1]), steps[|steps| - 1];
      RunReady(steps[..|steps| - 1]);
      if Enabled(sys, step) {
        ReadyKept(sys, step);
      }
    }
  }

  /** Although deciding and acting are separate steps, a stream is ready only with as many complete renditions as it
      was told to expect, in every run that creates no stream between the two. If it was told different numbers at
      different times, one of them is reached. */
  lemma {:induction false} ReadyIsComplete(steps: seq<Step>, id: StreamId)
    requires SparesDecided(steps) && StateOf(Run(steps).streams, id) == Some(Ready)
    ensures var sys := Run(steps);
      && id in sys.asked
      && (exists n :: n in sys.asked[id] && n <= |CompleteRenditions(sys.streams[id])|)
      && (forall n :: sys.asked[id] == {n} ==> n <= |CompleteRenditions(sys.streams[id])|)
  {
    RunReady(steps);
    assert Justified(Run(steps), id);
  }

  /** A stream created between the two, however, can get ready with no rendition at all, by the decision on the stream
      before it. */
  lemma {:induction false} StaleDecision(sys: System, task: TaskId, id: StreamId)
    requires sys.deciding == Some(id) && task in sys.absent && sys.absent[task] == id
    ensures var s1 := Do(sys, Create(task, LiveMode));
      var s3 := Do(Do(s1, Transition(id, Live)), Transition(id, Processing));
      && Enabled(s3, BecomeReady) && StateOf(Do(s3, BecomeReady).streams, id) == Some(Ready)
      && CompleteRenditions(Do(s3, BecomeReady).streams[id]) == {}
  {
    var s1 := Do(sys, Create(task, LiveMode));
    var s2 := Do(s1, Transition(id, Live));
    assert s2.streams[id] == NewEntry(LiveMode).(state := Live);
    var s3 := Do(s2, Transition(id, Processing));
    assert s3.streams[id] == NewEntry(LiveMode).(state := Processing);
    assert Do(s3, BecomeReady).streams[id] == NewEntry(LiveMode).(state := Ready);
  }

  /** Such a decision can be pending: for a stream that was created by one of two publishers, has ended and has all its
      renditions complete, while the other is still about to create it. */
  lemma {:induction false} StaleDecisionReached(id: StreamId) returns (steps: seq<Step>)
    ensures var sys := Run(steps);
      sys.deciding == Some(id) && 2 in sys.absent && sys.absent[2] == id
  {
    var sys: System;
    steps, sys := BothFound(id);
    steps, sys := Next(steps, sys, Transition(id, Live));
    steps, sys := Next(steps, sys, Transition(id, Processing));
    steps, sys := Next(steps, sys, Expect(id, 1));
    steps, sys := Next(steps, sys, Progress(id, "v", 0));
    var done := Marked(sys.streams, id, "v");
    assert "v" in CompleteRenditions(done[id]);
    SomeMember("v", CompleteRenditions(done[id]));
    steps, sys := Next(steps, sys, CheckComplete(id, "v"));
  }

  lemma {:induction false} SomeMember(r: string, s: set<string>)
    requires r in s
    ensures |s| >= 1
  {
    assert s == {r} + (s - {r});
  }

  // ----- How often a state changes -----

  /** The stream is there at every point of the run from step `from` on. */
  ghost predicate PresentSince(steps: seq<Step>, from: nat, id: StreamId) {
    forall k :: from <= k <= |steps| ==> id in Run(steps[..k]).streams
  }

  /** No step from `from` on replaces its entry. */
  predicate KeptSince(steps: seq<Step>, from: nat, id: StreamId)
    requires from <= |steps|
  {
    |steps| == from ||
    (var before := steps[..|steps| - 1];
     KeptSince(before, from, id) && Replaced(Run(before), steps[|steps| - 1]) != Some(id))
  }

  predicate Differs(a: Streams, b: Streams, id: StreamId) {
    id in a && id in b && a[id].state != b[id].state
  }

  /** How often the stream changes its state from step `from` on. */
  function Changes(steps: seq<Step>, from: nat, id: StreamId): nat
    requires from <= |steps|
  {
    if |steps| == from then 0
    else
      var before := steps[..|steps| - 1];
      Changes(before, from, id) + (if Differs(Run(before).streams, Run(steps).streams, id) then 1 else 0)
  }

  lemma {:induction false} PresentBefore(steps: seq<Step>, from: nat, id: StreamId)
    requires from < |steps| && PresentSince(steps, from, id)
    ensures var before := steps[..|steps| - 1];
      PresentSince(before, from, id) && before[..from] == steps[..from]
      && id in Run(before).streams && id in Run(steps).streams
  {
    var before := steps[..|steps| - 1];
    forall k | from <= k <= |before|
      ensures id in Run(before[..k]).streams
    {
      assert before[..k] == steps[..k];
    }
    assert before[..|before|] == before && steps[..|steps|] == steps;
  }

  /** As long as its entry is kept, a stream's state only goes up: it changes as often as its rank allows, at most five
      times, and once deleted never again. */
  lemma {:induction false} LifecycleAdvances(steps: seq<Step>, from: nat, id: StreamId)
    requires from <= |steps| && PresentSince(steps, from, id) && KeptSince(steps, from, id)
    ensures id in Run(steps[..from]).streams && id in Run(steps).streams
    ensures var first, last := Run(steps[..from]).streams[id], Run(steps).streams[id];
      && Rank(first.state) + Changes(steps, from, id) <= Rank(last.state)
      && Changes(steps, from, id) <= 5
      && (first.state == Deleted ==> last.state == Deleted && Changes(steps, from, id) == 0)
      && first.mode == last.mode
  {
    assert steps[..|steps|] == steps;
    if from < |steps| {
      var before, step := steps[..|steps| - 1], steps[|steps| - 1];
      PresentBefore(steps, from, id);
      LifecycleAdvances(before, from, id);
      if Enabled(Run(before), step) {
        StepAdvances(Run(before), step, id);
        RankSeparates(Run(before).streams[id].state, Run(steps).streams[id].state);
      }
    }
    RankSeparates(Run(steps).streams[id].state, Deleted);
  }
}
