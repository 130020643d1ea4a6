/** The stream state manager: lifecycle states, rendition progress and per-state counters (`src/control/state.rs`).
    Every operation changes the map of streams under a lock and the counters afterwards; here an operation runs
    without interruption, in the module StreamSystem the two parts are steps of their own. */
module StreamManager {
  import opened Bytes

  type StreamId = nat

  datatype Mode = LiveMode | VodMode

  datatype StreamState = Pending | Live | Processing | Ready | Error | Deleted

  /** Progress of a rendition. */
  datatype Status = Status(segmentsProduced: nat, complete: bool)

  datatype Entry = Entry(
    state: StreamState, mode: Mode, error: Option<string>, renditions: map<string, Status>, expected: Option<nat>)

  datatype StateError = StreamNotFound | InvalidTransition

  type Streams = map<StreamId, Entry>

  function StateIndex(s: StreamState): (i: nat)
    ensures i < 6
  {
    match s
    case Pending => 0
    case Live => 1
    case Processing => 2
    case Ready => 3
    case Error => 4
    case Deleted => 5
  }

  predicate ValidTransition(from: StreamState, to: StreamState, mode: Mode) {
    if to == Error then from != Deleted
    else
      || (from == Pending && to == Live && mode == LiveMode)
      || (from == Live && to == Processing && mode == LiveMode)
      || (from == Pending && to == Processing && mode == VodMode)
      || (from == Processing && to == Ready)
      || (from == Ready && to == Deleted)
      || (from == Error && to == Deleted)
  }

  /** The life of a stream in which nothing fails. */
  function Path(mode: Mode): seq<StreamState> {
    match mode
    case LiveMode => [Pending, Live, Processing, Ready, Deleted]
    case VodMode => [Pending, Processing, Ready, Deleted]
  }

  predicate NextOn(path: seq<StreamState>, from: StreamState, to: StreamState) {
    exists i :: 0 <= i < |path| - 1 && path[i] == from && path[i + 1] == to
  }

  /** A transition is valid exactly if it is the next step of the life of such a stream, the failure of a stream that
      is not deleted, or the deletion of a failed one. */
  lemma {:induction false} ValidExactly(from: StreamState, to: StreamState, mode: Mode)
    ensures ValidTransition(from, to, mode) <==>
      NextOn(Path(mode), from, to) || (to == Error && from != Deleted) || (from == Error && to == Deleted)
  {
    match mode
    case LiveMode => FiveStates(from, to);
    case VodMode => FourStates(from, to);
  }

  lemma {:induction false} FiveStates(from: StreamState, to: StreamState)
    ensures NextOn([Pending, Live, Processing, Ready, Deleted], from, to) <==>
      || (from == Pending && to == Live) || (from == Live && to == Processing)
      || (from == Processing && to == Ready) || (from == Ready && to == Deleted)
  {
    var path := [Pending, Live, Processing, Ready, Deleted];
    assert path[0] == Pending && path[1] == Live && path[2] == Processing && path[3] == Ready && path[4] == Deleted;
    if (from == Pending && to == Live) || (from == Live && to == Processing)
       || (from == Processing && to == Ready) || (from == Ready && to == Deleted) {
      var i := match from case Pending => 0 case Live => 1 case Processing => 2 case _ => 3;
      assert path[i] == from && path[i + 1] == to;
    }
  }

  lemma {:induction false} FourStates(from: StreamState, to: StreamState)
    ensures NextOn([Pending, Processing, Ready, Deleted], from, to) <==>
      || (from == Pending && to == Processing) || (from == Processing && to == Ready)
      || (from == Ready && to == Deleted)
  {
    var path := [Pending, Processing, Ready, Deleted];
    assert path[0] == Pending && path[1] == Processing && path[2] == Ready && path[3] == Deleted;
    if (from == Pending && to == Processing) || (from == Processing && to == Ready)
       || (from == Ready && to == Deleted) {
      var i := match from case Pending => 0 case Processing => 1 case _ => 2;
      assert path[i] == from && path[i + 1] == to;
    }
  }

  // ----- What operations do to the streams -----

  function NewEntry(mode: Mode): Entry {
    Entry(Pending, mode, None, map[], None)
  }

  function Moved(streams: Streams, id: StreamId, to: StreamState): Result<Streams, StateError> {
    if id !in streams then Err(StreamNotFound)
    else if !ValidTransition(streams[id].state, to, streams[id].mode) then Err(InvalidTransition)
    else Ok(streams[id := streams[id].(state := to)])
  }

  function Failed(streams: Streams, id: StreamId, message: string): Result<Streams, StateError> {
    if id !in streams then Err(StreamNotFound)
    else if streams[id].state == Deleted then Err(InvalidTransition)
    else Ok(streams[id := streams[id].(state := Error, error := Some(message))])
  }

  function Expecting(streams: Streams, id: StreamId, count: nat): Streams {
    if id in streams then streams[id := streams[id].(expected := Some(count))] else streams
  }

  function Progressed(streams: Streams, id: StreamId, rendition: string, sequence: nat): Streams {
    if id !in streams then streams
    else
      var e := streams[id];
      var complete := rendition in e.renditions && e.renditions[rendition].complete;
      streams[id := e.(renditions := e.renditions[rendition := Status(sequence, complete)])]
  }

  function CompleteRenditions(e: Entry): set<string> {
    set r | r in e.renditions && e.renditions[r].complete
  }

  /** A rendition without progress is not marked. */
  function Marked(streams: Streams, id: StreamId, rendition: string): Streams {
    if id in streams && rendition in streams[id].renditions then
      var e := streams[id];
      streams[id := e.(renditions := e.renditions[rendition := e.renditions[rendition].(complete := true)])]
    else streams
  }

  /** All expected renditions of a stream in processing are complete. */
  predicate AllComplete(streams: Streams, id: StreamId) {
    && id in streams && streams[id].state == Processing && streams[id].expected.Some?
    && |CompleteRenditions(streams[id])| >= streams[id].expected.value
  }

  // ----- What operations do to the counters -----

  datatype Delta = Delta(state: StreamState, change: int)

  type Counts = c: seq<int> | |c| == 6 witness [0, 0, 0, 0, 0, 0]

  function Bump(c: Counts, d: Delta): Counts {
    c[StateIndex(d.state) := c[StateIndex(d.state)] + d.change]
  }

  function BumpAll(c: Counts, ds: seq<Delta>): Counts
    decreases |ds|
  {
    if ds == [] then c else BumpAll(Bump(c, ds[0]), ds[1..])
  }

  function MoveDeltas(from: StreamState, to: StreamState): seq<Delta> {
    [Delta(from, -1), Delta(to, 1)]
  }

  lemma {:induction false} MoveBumps(c: Counts, from: StreamState, to: StreamState)
    ensures BumpAll(c, MoveDeltas(from, to)) == Bump(Bump(c, Delta(from, -1)), Delta(to, 1))
  {
    var c1 := Bump(c, Delta(from, -1));
    assert MoveDeltas(from, to)[1..] == [Delta(to, 1)] && [Delta(to, 1)][1..] == [];
    assert BumpAll(c1, [Delta(to, 1)]) == BumpAll(Bump(c1, Delta(to, 1)), []);
  }

  // ----- The manager -----

  datatype Manager = Manager(streams: Streams, counts: Counts)

  function CreateOf(m: Manager, id: StreamId, mode: Mode): Manager {
    Manager(m.streams[id := NewEntry(mode)], Bump(m.counts, Delta(Pending, 1)))
  }

  function TransitionOf(m: Manager, id: StreamId, to: StreamState): Manager {
    var moved := Moved(m.streams, id, to);
    if moved.Err? then m else Manager(moved.value, BumpAll(m.counts, MoveDeltas(m.streams[id].state, to)))
  }

  function ErrorOf(m: Manager, id: StreamId, message: string): Manager {
    var failed := Failed(m.streams, id, message);
    if failed.Err? then m else Manager(failed.value, BumpAll(m.counts, MoveDeltas(m.streams[id].state, Error)))
  }

  function MarkOf(m: Manager, id: StreamId, rendition: string): Manager {
    var marked := Manager(Marked(m.streams, id, rendition), m.counts);
    if AllComplete(marked.streams, id) then TransitionOf(marked, id, Ready) else marked
  }

  function RemoveOf(m: Manager, id: StreamId): Manager {
    if id in m.streams then Manager(m.streams - {id}, Bump(m.counts, Delta(m.streams[id].state, -1))) else m
  }

  class StreamStateManager {
    var streams: Streams
    var counts: Counts

    function View(): Manager
      reads this
    {
      Manager(streams, counts)
    }

    constructor ()
      ensures View() == Manager(map[], [0, 0, 0, 0, 0, 0])
    {
      streams, counts := map[], [0, 0, 0, 0, 0, 0];
    }

    method CreateStream(id: StreamId, mode: Mode) returns (e: Entry)
      modifies this
      ensures View() == CreateOf(old(View()), id, mode) && e == streams[id]
    {
      e := NewEntry(mode);
      streams := streams[id := e];
      counts := Bump(counts, Delta(Pending, 1));
    }

    method Transition(id: StreamId, to: StreamState) returns (r: Result<Entry, StateError>)
      modifies this
      ensures View() == TransitionOf(old(View()), id, to)
      ensures r.Ok? <==> id in old(streams) && ValidTransition(old(streams)[id].state, to, old(streams)[id].mode)
      ensures r.Ok? ==> r.value == streams[id]
      ensures r.Err? ==> r.error == if id in streams then InvalidTransition else StreamNotFound
    {
      if id !in streams {
        return Err(StreamNotFound);
      }
      var entry := streams[id];
      var current := entry.state;
      if !ValidTransition(current, to, entry.mode) {
        return Err(InvalidTransition);
      }
      entry := entry.(state := to);
      streams := streams[id := entry];
      counts := Bump(counts, Delta(current, -1));
      counts := Bump(counts, Delta(to, 1));
      MoveBumps(old(counts), current, to);
      return Ok(entry);
    }

    method TransitionToError(id: StreamId, message: string) returns (r: Result<Entry, StateError>)
      modifies this
      ensures View() == ErrorOf(old(View()), id, message)
      ensures r.Ok? <==> id in old(streams) && old(streams)[id].state != Deleted
      ensures r.Ok? ==> r.value == streams[id]
    {
      if id !in streams {
        return Err(StreamNotFound);
      }
      var entry := streams[id];
      var current := entry.state;
      if current == Deleted {
        return Err(InvalidTransition);
      }
      entry := entry.(state := Error, error := Some(message));
      streams := streams[id := entry];
      counts := Bump(counts, Delta(current, -1));
      counts := Bump(counts, Delta(Error, 1));
      MoveBumps(old(counts), current, Error);
      return Ok(entry);
    }

    method SetExpectedRenditions(id: StreamId, count: nat)
      modifies this`streams
      ensures streams == Expecting(old(streams), id, count)
    {
      if id in streams {
        streams := streams[id := streams[id].(expected := Some(count))];
      }
    }

    method UpdateRenditionProgress(id: StreamId, rendition: string, sequence: nat)
      modifies this`streams
      ensures streams == Progressed(old(streams), id, rendition, sequence)
    {
      if id in streams {
        var entry := streams[id];
        var status := if rendition in entry.renditions then entry.renditions[rendition] else Status(0, false);
        status := status.(segmentsProduced := sequence);
        streams := streams[id := entry.(renditions := entry.renditions[rendition := status])];
      }
    }

    method MarkRenditionComplete(id: StreamId, rendition: string) returns (r: Option<Entry>)
      modifies this
      ensures View() == MarkOf(old(View()), id, rendition)
      ensures r == if id in streams then Some(streams[id]) else None
    {
      if id !in streams {
        return None;
      }
      var entry := streams[id];
      if rendition in entry.renditions {
        var status := entry.renditions[rendition].(complete := true);
        entry := entry.(renditions := entry.renditions[rendition := status]);
        streams := streams[id := entry];
      }
      if AllComplete(streams, id) {
        var moved := Transition(id, Ready);
        return if moved.Ok? then Some(moved.value) else None;
      }
      return Some(streams[id]);
    }

    method RemoveStream(id: StreamId) returns (removed: bool)
      modifies this
      ensures View() == RemoveOf(old(View()), id) && removed == (id in old(streams))
    {
      removed := id in streams;
      if removed {
        var state := streams[id].state;
        streams := streams - {id};
        counts := Bump(counts, Delta(state, -1));
      }
    }
  }
}
