/** The event handler, and when a stream gets ready: `src/control/events.rs`. */
module Events {
  import opened Bytes
  import opened StreamManager

  /** The events of the data plane; `ExpectRenditions` is not an event but the call of `set_expected_renditions` that
      the transcode pipeline makes at some point among them. */
  datatype Event =
    | StreamStarted(id: StreamId)
    | SegmentProduced(id: StreamId, rendition: string, sequence: nat)
    | StreamEnded(id: StreamId)
    | StreamError(id: StreamId, message: string)
    | VodProgress(id: StreamId)
    | RenditionComplete(id: StreamId, rendition: string)
    | ExpectRenditions(id: StreamId, count: nat)

  function HandleOf(m: Manager, e: Event): Manager {
    match e
    case StreamStarted(id) => TransitionOf(m, id, Live)
    case SegmentProduced(id, r, n) => m.(streams := Progressed(m.streams, id, r, n))
    case StreamEnded(id) => TransitionOf(m, id, Processing)
    case StreamError(id, message) => ErrorOf(m, id, message)
    case VodProgress(_) => m
    case RenditionComplete(id, r) => MarkOf(m, id, r)
    case ExpectRenditions(id, n) => m.(streams := Expecting(m.streams, id, n))
  }

  function Handled(m: Manager, events: seq<Event>): Manager {
    if events == [] then m else HandleOf(Handled(m, events[..|events| - 1]), events[|events| - 1])
  }

  method Handle(manager: StreamStateManager, e: Event)
    modifies manager
    ensures manager.View() == HandleOf(old(manager.View()), e)
  {
    match e
    case StreamStarted(id) => var r := manager.Transition(id, Live);
    case SegmentProduced(id, rendition, n) => manager.UpdateRenditionProgress(id, rendition, n);
    case StreamEnded(id) => var r := manager.Transition(id, Processing);
    case StreamError(id, message) => var r := manager.TransitionToError(id, message);
    case VodProgress(_) =>
    case RenditionComplete(id, rendition) => var r := manager.MarkRenditionComplete(id, rendition);
    case ExpectRenditions(id, n) => manager.SetExpectedRenditions(id, n);
  }

  /** Handles the events in the order of the channel until it is closed or the task is cancelled. */
  method RunEventHandler(manager: StreamStateManager, events: seq<Event>)
    modifies manager
    ensures manager.View() == Handled(old(manager.View()), events)
  {
    ghost var before := manager.View();
    for i := 0 to |events|
      invariant manager.View() == Handled(before, events[..i])
    {
      assert events[..i + 1][..i] == events[..i];
      Handle(manager, events[i]);
    }
    assert events[..|events|] == events;
  }

  // ----- The events of one stream decide about it alone -----

  function ForStream(events: seq<Event>, id: StreamId): seq<Event> {
    if events == [] then []
    else
      var last := events[|events| - 1];
      ForStream(events[..|events| - 1], id) + (if last.id == id then [last] else [])
  }

  lemma {:induction false} HandleTouches(m: Manager, e: Event, id: StreamId)
    requires id in m.streams
    ensures id in HandleOf(m, e).streams
    ensures e.id != id ==> HandleOf(m, e).streams[id] == m.streams[id]
  {
  }

  lemma {:induction false} HandleEntry(m: Manager, m': Manager, e: Event)
    requires e.id in m.streams && e.id in m'.streams && m.streams[e.id] == m'.streams[e.id]
    ensures HandleOf(m, e).streams[e.id] == HandleOf(m', e).streams[e.id]
  {
  }

  /** What becomes of a stream does not depend on the events of other streams, nor on how they interleave with its
      own. */
  lemma {:induction false} StreamsIndependent(m: Manager, events: seq<Event>, id: StreamId)
    requires id in m.streams
    ensures id in Handled(m, events).streams && id in Handled(m, ForStream(events, id)).streams
    ensures Handled(m, events).streams[id] == Handled(m, ForStream(events, id)).streams[id]
  {
    if events != [] {
      var before, e := events[..|events| - 1], events[|events| - 1];
      var own := ForStream(before, id);
      StreamsIndependent(m, before, id);
      HandleTouches(Handled(m, before), e, id);
      if e.id == id {
        assert (own + [e])[..|own|] == own;
        HandleTouches(Handled(m, own), e, id);
        HandleEntry(Handled(m, before), Handled(m, own), e);
      } else {
        assert own + [] == own;
      }
    }
  }

  // ----- What any events leave -----

  /** Event `i` is one that reports the stream's failure. */
  predicate FailsAt(events: seq<Event>, i: nat, id: StreamId) {
    i < |events| && events[i].StreamError? && events[i].id == id
  }

  /** Event `i` is the last such one. */
  predicate LastFailsAt(events: seq<Event>, i: nat, id: StreamId) {
    FailsAt(events, i, id) && forall j :: i < j < |events| ==> !FailsAt(events, j, id)
  }

  function LastMessage(events: seq<Event>, id: StreamId): Option<string> {
    if events == [] then None
    else
      var e := events[|events| - 1];
      if e.StreamError? && e.id == id then Some(e.message) else LastMessage(events[..|events| - 1], id)
  }

  lemma {:induction false} LastMessageIs(events: seq<Event>, id: StreamId)
    ensures LastMessage(events, id).Some? <==> exists i: nat :: FailsAt(events, i, id)
    ensures forall i: nat :: LastFailsAt(events, i, id) ==> LastMessage(events, id) == Some(events[i].message)
  {
    if events != [] {
      var n := |events| - 1;
      var before := events[..n];
      LastMessageIs(before, id);
      if events[n].StreamError? && events[n].id == id {
        assert FailsAt(events, n, id);
      } else {
        forall i: nat
          ensures FailsAt(events, i, id) <==> FailsAt(before, i, id)
          ensures LastFailsAt(events, i, id) ==> LastFailsAt(before, i, id) && events[i] == before[i]
        {
          SameFailures(events, n, i, id);
        }
      }
    }
  }

  lemma {:induction false} SameFailures(events: seq<Event>, n: nat, i: nat, id: StreamId)
    requires n + 1 == |events| && !FailsAt(events, n, id)
    ensures FailsAt(events, i, id) <==> FailsAt(events[..n], i, id)
    ensures LastFailsAt(events, i, id) ==> LastFailsAt(events[..n], i, id)
  {
    if LastFailsAt(events, i, id) {
      forall j | i < j < n
        ensures !FailsAt(events[..n], j, id)
      {
        assert !FailsAt(events, j, id);
      }
    }
  }

  lemma {:induction false} FailedLast(m: Manager, events: seq<Event>, id: StreamId)
    requires id in m.streams && m.streams[id].state != Deleted && m.streams[id].state != Error
    ensures id in Handled(m, events).streams
    ensures var e, message := Handled(m, events).streams[id], LastMessage(events, id);
      && e.state != Deleted && (e.state == Error <==> message.Some?)
      && e.error == (if message.Some? then message else m.streams[id].error)
  {
    if events != [] {
      FailedLast(m, events[..|events| - 1], id);
      FailedNext(Handled(m, events[..|events| - 1]), events[|events| - 1], id);
    }
  }

  /** A stream that has not been deleted fails exactly if some event reports its failure, in whatever order its events
      come. It has failed with the message of the last such event, and whatever starts, ends or completes afterwards, it
      has failed still. */
  lemma {:induction false} FailedExactly(m: Manager, events: seq<Event>, id: StreamId)
    requires id in m.streams && m.streams[id].state != Deleted && m.streams[id].state != Error
    ensures id in Handled(m, events).streams
    ensures var e := Handled(m, events).streams[id];
      && e.state != Deleted
      && (e.state == Error <==> exists i: nat :: FailsAt(events, i, id))
      && (forall i: nat :: LastFailsAt(events, i, id) ==> e.error == Some(events[i].message))
      && (e.state != Error ==> e.error == m.streams[id].error)
  {
    FailedLast(m, events, id);
    LastMessageIs(events, id);
  }

  lemma {:induction false} FailedNext(m: Manager, e: Event, id: StreamId)
    requires id in m.streams && m.streams[id].state != Deleted
    ensures id in HandleOf(m, e).streams
    ensures var x, x' := m.streams[id], HandleOf(m, e).streams[id];
      && x'.state != Deleted
      && (if e.StreamError? && e.id == id then x'.state == Error && x'.error == Some(e.message)
          else (x'.state == Error <==> x.state == Error) && x'.error == x.error)
  {
  }

  /** In particular it stays failed through everything that follows. */
  lemma {:induction false} StaysFailed(m: Manager, events: seq<Event>, more: seq<Event>, i: nat, id: StreamId)
    requires id in m.streams && m.streams[id].state != Deleted && m.streams[id].state != Error
    requires FailsAt(events, i, id)
    ensures id in Handled(m, events + more).streams && Handled(m, events + more).streams[id].state == Error
  {
    FailedExactly(m, events + more, id);
    assert FailsAt(events + more, i, id);
  }

  /** Event `i` reports a segment of the rendition. */
  predicate ReportsAt(events: seq<Event>, i: nat, id: StreamId, r: string) {
    i < |events| && events[i].SegmentProduced? && events[i].id == id && events[i].rendition == r
  }

  predicate LastReportsAt(events: seq<Event>, i: nat, id: StreamId, r: string) {
    ReportsAt(events, i, id, r) && forall j :: i < j < |events| ==> !ReportsAt(events, j, id, r)
  }

  /** Event `j` completes the rendition, after event `i` has reported a segment of it. */
  predicate CompletesAt(events: seq<Event>, i: nat, j: nat, id: StreamId, r: string) {
    && ReportsAt(events, i, id, r) && i < j < |events|
    && events[j].RenditionComplete? && events[j].id == id && events[j].rendition == r
  }

  function LastReported(events: seq<Event>, id: StreamId, r: string): Option<nat> {
    if events == [] then None
    else
      var e := events[|events| - 1];
      if e.SegmentProduced? && e.id == id && e.rendition == r then Some(e.sequence)
      else LastReported(events[..|events| - 1], id, r)
  }

  predicate IsCompleted(events: seq<Event>, id: StreamId, r: string) {
    events != [] &&
    (var before, e := events[..|events| - 1], events[|events| - 1];
     || IsCompleted(before, id, r)
     || (e.RenditionComplete? && e.id == id && e.rendition == r && LastReported(before, id, r).Some?))
  }

  lemma {:induction false} LastReportedIs(events: seq<Event>, id: StreamId, r: string)
    ensures LastReported(events, id, r).Some? <==> exists i: nat :: ReportsAt(events, i, id, r)
    ensures forall i: nat :: LastReportsAt(events, i, id, r) ==> LastReported(events, id, r) == Some(events[i].sequence)
  {
    if events != [] {
      var n := |events| - 1;
      var before := events[..n];
      LastReportedIs(before, id, r);
      if events[n].SegmentProduced? && events[n].id == id && events[n].rendition == r {
        assert ReportsAt(events, n, id, r);
      } else {
        forall i: nat
          ensures ReportsAt(events, i, id, r) <==> ReportsAt(before, i, id, r)
          ensures LastReportsAt(events, i, id, r) ==> LastReportsAt(before, i, id, r) && events[i] == before[i]
        {
          SameReports(events, n, i, id, r);
        }
      }
    }
  }

  lemma {:induction false} SameReports(events: seq<Event>, n: nat, i: nat, id: StreamId, r: string)
    requires n + 1 == |events| && !ReportsAt(events, n, id, r)
    ensures ReportsAt(events, i, id, r) <==> ReportsAt(events[..n], i, id, r)
    ensures LastReportsAt(events, i, id, r) ==> LastReportsAt(events[..n], i, id, r)
  {
    if LastReportsAt(events, i, id, r) {
      forall j | i < j < n
        ensures !ReportsAt(events[..n], j, id, r)
      {
        assert !ReportsAt(events, j, id, r);
      }
    }
  }

  lemma {:induction false} CompletionAt(events: seq<Event>, id: StreamId, r: string) returns (i: nat, j: nat)
    requires IsCompleted(events, id, r)
    ensures CompletesAt(events, i, j, id, r)
  {
    var n := |events| - 1;
    if IsCompleted(events[..n], id, r) {
      i, j := CompletionAt(events[..n], id, r);
    } else {
      LastReportedIs(events[..n], id, r);
      i :| ReportsAt(events[..n], i, id, r);
      j := n;
    }
  }

  lemma {:induction false} ReportedByThen(events: seq<Event>, i: nat, id: StreamId, r: string)
    requires ReportsAt(events, i, id, r)
    ensures LastReported(events, id, r).Some?
  {
    var n := |events| - 1;
    if i < n {
      assert events[..n][i] == events[i];
      ReportedByThen(events[..n], i, id, r);
    }
  }

  lemma {:induction false} CompletedByThen(events: seq<Event>, i: nat, j: nat, id: StreamId, r: string)
    requires CompletesAt(events, i, j, id, r)
    ensures IsCompleted(events, id, r)
  {
    var n := |events| - 1;
    if j < n {
      CompletedByThen(events[..n], i, j, id, r);
    } else {
      assert events[..n][i] == events[i];
      ReportedByThen(events[..n], i, id, r);
    }
  }

  lemma {:induction false} IsCompletedMeans(events: seq<Event>, id: StreamId, r: string)
    ensures IsCompleted(events, id, r) <==> exists i: nat, j: nat :: CompletesAt(events, i, j, id, r)
  {
    if IsCompleted(events, id, r) {
      var i, j := CompletionAt(events, id, r);
    }
    if i: nat, j: nat :| CompletesAt(events, i, j, id, r) {
      CompletedByThen(events, i, j, id, r);
    }
  }

  lemma {:induction false} ReportedLast(m: Manager, events: seq<Event>, id: StreamId, r: string)
    requires id in m.streams && m.streams[id].renditions == map[]
    ensures id in Handled(m, events).streams
    ensures var rs, last := Handled(m, events).streams[id].renditions, LastReported(events, id, r);
      && (r in rs <==> last.Some?)
      && (r in rs ==> rs[r] == Status(last.value, IsCompleted(events, id, r)))
      && (IsCompleted(events, id, r) ==> last.Some?)
  {
    if events != [] {
      ReportedLast(m, events[..|events| - 1], id, r);
      ReportedNext(Handled(m, events[..|events| - 1]), events[|events| - 1], id, r);
    }
  }

  /** Of a stream without renditions, any events leave the renditions that a segment was reported of, each with the
      number reported last, and complete exactly if its completion came after a report. */
  lemma {:induction false} ReportedExactly(m: Manager, events: seq<Event>, id: StreamId, r: string)
    requires id in m.streams && m.streams[id].renditions == map[]
    ensures id in Handled(m, events).streams
    ensures var rs := Handled(m, events).streams[id].renditions;
      && (r in rs <==> exists i: nat :: ReportsAt(events, i, id, r))
      && (r in rs ==>
            && (forall i: nat :: LastReportsAt(events, i, id, r) ==> rs[r].segmentsProduced == events[i].sequence)
            && (rs[r].complete <==> exists i: nat, j: nat :: CompletesAt(events, i, j, id, r)))
  {
    ReportedLast(m, events, id, r);
    LastReportedIs(events, id, r);
    IsCompletedMeans(events, id, r);
  }

  lemma {:induction false} ReportedNext(m: Manager, e: Event, id: StreamId, r: string)
    requires id in m.streams
    ensures id in HandleOf(m, e).streams
    ensures var rs, rs' := m.streams[id].renditions, HandleOf(m, e).streams[id].renditions;
      var own := e.id == id;
      && (r in rs' <==> r in rs || (own && e.SegmentProduced? && e.rendition == r))
      && (r in rs' ==>
            && rs'[r].segmentsProduced ==
                 (if own && e.SegmentProduced? && e.rendition == r then e.sequence else rs[r].segmentsProduced)
            && (rs'[r].complete <==>
                  r in rs && (rs[r].complete || (own && e.RenditionComplete? && e.rendition == r))))
  {
  }

  // ----- The counters -----

  /** Every counter is the number of streams in its state. */
  ghost predicate Counted(m: Manager) {
    forall s :: m.counts[StateIndex(s)] == |StreamsIn(m.streams, s)|
  }

  function StreamsIn(streams: Streams, s: StreamState): set<StreamId> {
    set id | id in streams && streams[id].state == s
  }

  /** By how many streams state `s` gains when one goes from one state to another. */
  function Gain(from: StreamState, to: StreamState, s: StreamState): int {
    (if to == s then 1 else 0) - (if from == s then 1 else 0)
  }

  lemma {:induction false} InAfter(streams: Streams, id: StreamId, e: Entry, s: StreamState)
    requires id in streams
    ensures |StreamsIn(streams[id := e], s)|
         == |StreamsIn(streams, s)| + Gain(streams[id].state, e.state, s)
  {
    var before, after := StreamsIn(streams, s), StreamsIn(streams[id := e], s);
    assert after == (before - {id}) + (if e.state == s then {id} else {});
  }

  lemma {:induction false} CountedKept(m: Manager, id: StreamId, e: Entry, m': Manager)
    requires Counted(m) && id in m.streams && m'.streams == m.streams[id := e]
    requires forall s :: m'.counts[StateIndex(s)] == m.counts[StateIndex(s)] + Gain(m.streams[id].state, e.state, s)
    ensures Counted(m')
  {
    forall s
      ensures m'.counts[StateIndex(s)] == |StreamsIn(m'.streams, s)|
    {
      InAfter(m.streams, id, e, s);
    }
  }

  lemma {:induction false} MoveCounts(c: Counts, from: StreamState, to: StreamState, s: StreamState)
    ensures BumpAll(c, MoveDeltas(from, to))[StateIndex(s)] == c[StateIndex(s)] + Gain(from, to, s)
  {
    MoveBumps(c, from, to);
    IndexTells(from, s);
    IndexTells(to, s);
  }

  lemma {:induction false} IndexTells(s: StreamState, t: StreamState)
    ensures StateIndex(s) == StateIndex(t) <==> s == t
  {
  }

  lemma {:induction false} TransitionCounted(m: Manager, id: StreamId, to: StreamState)
    requires Counted(m)
    ensures Counted(TransitionOf(m, id, to))
  {
    if Moved(m.streams, id, to).Ok? {
      var from := m.streams[id].state;
      forall s
        ensures TransitionOf(m, id, to).counts[StateIndex(s)]
             == m.counts[StateIndex(s)] + Gain(from, to, s)
      {
        MoveCounts(m.counts, from, to, s);
      }
      CountedKept(m, id, m.streams[id].(state := to), TransitionOf(m, id, to));
    }
  }

  lemma {:induction false} ErrorCounted(m: Manager, id: StreamId, message: string)
    requires Counted(m)
    ensures Counted(ErrorOf(m, id, message))
  {
    if Failed(m.streams, id, message).Ok? {
      var from := m.streams[id].state;
      forall s
        ensures ErrorOf(m, id, message).counts[StateIndex(s)]
             == m.counts[StateIndex(s)] + Gain(from, Error, s)
      {
        MoveCounts(m.counts, from, Error, s);
      }
      CountedKept(m, id, m.streams[id].(state := Error, error := Some(message)), ErrorOf(m, id, message));
    }
  }

  lemma {:induction false} MarkCounted(m: Manager, id: StreamId, r: string)
    requires Counted(m)
    ensures Counted(MarkOf(m, id, r))
  {
    var marked := Manager(Marked(m.streams, id, r), m.counts);
    if id in m.streams && r in m.streams[id].renditions {
      CountedKept(m, id, marked.streams[id], marked);
    }
    if AllComplete(marked.streams, id) {
      TransitionCounted(marked, id, Ready);
    }
  }

  /** Handled one after the other, any events keep every counter the number of streams in its state. */
  lemma {:induction false} HandledCounted(m: Manager, events: seq<Event>)
    requires Counted(m)
    ensures Counted(Handled(m, events))
  {
    if events != [] {
      var m1, e := Handled(m, events[..|events| - 1]), events[|events| - 1];
      HandledCounted(m, events[..|events| - 1]);
      match e
      case StreamStarted(id) => TransitionCounted(m1, id, Live);
      case StreamEnded(id) => TransitionCounted(m1, id, Processing);
      case StreamError(id, message) => ErrorCounted(m1, id, message);
      case RenditionComplete(id, r) => MarkCounted(m1, id, r);
      case SegmentProduced(id, r, n) =>
        if id in m1.streams {
          CountedKept(m1, id, HandleOf(m1, e).streams[id], HandleOf(m1, e));
        }
      case ExpectRenditions(id, n) =>
        if id in m1.streams {
          CountedKept(m1, id, HandleOf(m1, e).streams[id], HandleOf(m1, e));
        }
      case VodProgress(_) =>
    }
  }

  // ----- Getting ready -----

  /** Events of one stream that produces the renditions `all`: nothing fails, the number asked for is right, and no
      rendition completes before one of its segments is reported. */
  predicate Orderly(events: seq<Event>, id: StreamId, all: set<string>) {
    events == [] ||
    (var before, e := events[..|events| - 1], events[|events| - 1];
     && Orderly(before, id, all) && e.id == id && !e.StreamError?
     && (e.SegmentProduced? ==> e.rendition in all)
     && (e.RenditionComplete? ==> e.rendition in Produced(before))
     && (e.ExpectRenditions? ==> e.count == |all|))
  }

  function Produced(events: seq<Event>): set<string> {
    if events == [] then {}
    else
      var e := events[|events| - 1];
      Produced(events[..|events| - 1]) + (if e.SegmentProduced? then {e.rendition} else {})
  }

  function Completed(events: seq<Event>): set<string> {
    if events == [] then {}
    else
      var e := events[|events| - 1];
      Completed(events[..|events| - 1]) + (if e.RenditionComplete? then {e.rendition} else {})
  }

  predicate HasEnded(events: seq<Event>) {
    events != [] && (events[|events| - 1].StreamEnded? || HasEnded(events[..|events| - 1]))
  }

  predicate HasStarted(events: seq<Event>) {
    events != [] && (events[|events| - 1].StreamStarted? || HasStarted(events[..|events| - 1]))
  }

  predicate HasAsked(events: seq<Event>) {
    events != [] && (events[|events| - 1].ExpectRenditions? || HasAsked(events[..|events| - 1]))
  }

  /** An end that comes after a start. */
  predicate StartedThenEnded(events: seq<Event>) {
    events != [] &&
    (var before := events[..|events| - 1];
     StartedThenEnded(before) || (events[|events| - 1].StreamEnded? && HasStarted(before)))
  }

  /** A stream that nothing has been produced for: as it was created, live already, or in processing already. */
  predicate Fresh(e: Entry) {
    && e.renditions == map[] && e.expected == None
    && (e.state == Pending || e.state == Processing || (e.state == Live && e.mode == LiveMode))
  }

  /** The events have brought the stream into processing: a live stream by its start and then its end, of which an end
      before the start does not count. */
  predicate InProcessing(first: Entry, events: seq<Event>) {
    if first.state == Processing then true
    else if first.state == Pending && first.mode == LiveMode then StartedThenEnded(events)
    else HasEnded(events)
  }

  /** At some completion all renditions are complete, the stream is in processing and the expected number is known. */
  predicate GetsReady(events: seq<Event>, all: set<string>, first: Entry) {
    events != [] &&
    (var before := events[..|events| - 1];
     || GetsReady(before, all, first)
     || (events[|events| - 1].RenditionComplete? && Completed(events) == all
         && InProcessing(first, before) && HasAsked(before)))
  }

  function StateAfter(first: Entry, events: seq<Event>, all: set<string>): StreamState {
    if GetsReady(events, all, first) then Ready
    else if InProcessing(first, events) then Processing
    else if first.state == Pending && first.mode == LiveMode && HasStarted(events) then Live
    else first.state
  }

  /** What has become of a fresh stream. */
  predicate Tracks(e: Entry, first: Entry, events: seq<Event>, all: set<string>) {
    && e.renditions.Keys == Produced(events) && CompleteRenditions(e) == Completed(events)
    && e.expected == (if HasAsked(events) then Some(|all|) else None) && e.mode == first.mode
    && e.state == StateAfter(first, events, all)
  }

  lemma {:induction false} OnlyKnown(events: seq<Event>, id: StreamId, all: set<string>)
    requires Orderly(events, id, all)
    ensures Completed(events) <= Produced(events) <= all
  {
    if events != [] {
      OnlyKnown(events[..|events| - 1], id, all);
    }
  }

  lemma {:induction false} AsManyIsAll(some: set<string>, all: set<string>)
    requires some <= all
    ensures |some| >= |all| <==> some == all
  {
    var rest := all - some;
    assert all == some + rest && |all| == |some| + |rest|;
  }

  lemma {:induction false} ReadyEnds(events: seq<Event>, all: set<string>, first: Entry)
    requires GetsReady(events, all, first)
    ensures InProcessing(first, events) && HasAsked(events)
  {
    if GetsReady(events[..|events| - 1], all, first) {
      ReadyEnds(events[..|events| - 1], all, first);
    }
  }

  lemma {:induction false} HasStartedMeans(events: seq<Event>)
    ensures HasStarted(events) <==> exists i :: 0 <= i < |events| && events[i].StreamStarted?
  {
    if events != [] {
      HasStartedMeans(events[..|events| - 1]);
    }
  }

  /** In the events' own terms: some end comes after some start. */
  lemma {:induction false} StartedThenEndedMeans(events: seq<Event>)
    ensures StartedThenEnded(events) <==>
      exists i, j :: 0 <= i < j < |events| && events[i].StreamStarted? && events[j].StreamEnded?
  {
    if events != [] {
      StartedThenEndedMeans(events[..|events| - 1]);
      HasStartedMeans(events[..|events| - 1]);
    }
  }

  /** Marking a rendition completes it and, if that makes enough, the stream. */
  lemma {:induction false} MarkOutcome(m: Manager, id: StreamId, r: string, completed: set<string>)
    requires id in m.streams && r in m.streams[id].renditions
    requires completed == CompleteRenditions(m.streams[id]) + {r}
    ensures var e, e' := m.streams[id], MarkOf(m, id, r).streams[id];
      && e'.renditions.Keys == e.renditions.Keys && CompleteRenditions(e') == completed
      && e'.expected == e.expected && e'.mode == e.mode
      && e'.state == (if e.state == Processing && e.expected.Some? && |completed| >= e.expected.value then Ready
                      else e.state)
  {
    var marked := Marked(m.streams, id, r);
    assert CompleteRenditions(marked[id]) == completed;
    assert marked[id].renditions.Keys == m.streams[id].renditions.Keys;
    if AllComplete(marked, id) {
      assert CompleteRenditions(marked[id].(state := Ready)) == completed;
    }
  }

  lemma {:induction false} MarkState(
    first: Entry, before: seq<Event>, last: Event, events: seq<Event>, all: set<string>)
    requires events == before + [last] && last.RenditionComplete? && Fresh(first) && Completed(events) <= all
    ensures var was := StateAfter(first, before, all);
      StateAfter(first, events, all) ==
        if was == Processing && HasAsked(before) && |Completed(events)| >= |all| then Ready else was
  {
    assert events[..|events| - 1] == before;
    AsManyIsAll(Completed(events), all);
  }

  lemma {:induction false} MarkTracks(
    e: Entry, first: Entry, before: seq<Event>, last: Event, events: seq<Event>, all: set<string>, m: Manager)
    requires Tracks(e, first, before, all) && Fresh(first) && events == before + [last]
    requires last.RenditionComplete? && last.id in m.streams && m.streams[last.id] == e
    requires last.rendition in Produced(before) && Completed(events) <= all
    requires Completed(events) == Completed(before) + {last.rendition}
    ensures Tracks(HandleOf(m, last).streams[last.id], first, events, all)
  {
    assert events[..|events| - 1] == before;
    MarkOutcome(m, last.id, last.rendition, Completed(events));
    assert StateAfter(first, events, all) ==
      if e.state == Processing && HasAsked(before) && |Completed(events)| >= |all| then Ready else e.state by {
      MarkState(first, before, last, events, all);
    }
  }

  /** The state that a start or an end leads to. */
  function MovedState(mode: Mode, was: StreamState, last: Event): StreamState {
    var to := if last.StreamStarted? then Live else Processing;
    if ValidTransition(was, to, mode) then to else was
  }

  lemma {:induction false} MoveState(
    first: Entry, before: seq<Event>, last: Event, events: seq<Event>, all: set<string>)
    requires events == before + [last] && Fresh(first) && (last.StreamStarted? || last.StreamEnded?)
    ensures StateAfter(first, events, all) == MovedState(first.mode, StateAfter(first, before, all), last)
  {
    assert events[..|events| - 1] == before;
    if StartedThenEnded(before) {
      StartedBefore(before);
    }
  }

  lemma {:induction false} StartedBefore(events: seq<Event>)
    requires StartedThenEnded(events)
    ensures HasStarted(events)
  {
    if StartedThenEnded(events[..|events| - 1]) {
      StartedBefore(events[..|events| - 1]);
    }
  }

  /** An event that moves the stream, or would. */
  lemma {:induction false} MoveTracks(
    e: Entry, first: Entry, before: seq<Event>, last: Event, events: seq<Event>, all: set<string>, m: Manager)
    requires Tracks(e, first, before, all) && Fresh(first) && events == before + [last]
    requires last.id in m.streams && m.streams[last.id] == e && (last.StreamStarted? || last.StreamEnded?)
    ensures Tracks(HandleOf(m, last).streams[last.id], first, events, all)
  {
    assert events[..|events| - 1] == before;
    var e' := HandleOf(m, last).streams[last.id];
    assert e' == e.(state := MovedState(e.mode, e.state, last));
    assert CompleteRenditions(e') == CompleteRenditions(e);
    MoveState(first, before, last, events, all);
  }

  lemma {:induction false} StillTracks(
    e: Entry, first: Entry, before: seq<Event>, last: Event, events: seq<Event>, all: set<string>, m: Manager)
    requires Tracks(e, first, before, all) && events == before + [last]
    requires last.id in m.streams && m.streams[last.id] == e
    requires last.SegmentProduced? || last.VodProgress? || (last.ExpectRenditions? && last.count == |all|)
    ensures Tracks(HandleOf(m, last).streams[last.id], first, events, all)
  {
    assert events[..|events| - 1] == before;
    var e' := HandleOf(m, last).streams[last.id];
    assert CompleteRenditions(e') == CompleteRenditions(e);
    SameState(first, before, last, events, all);
  }

  lemma {:induction false} SameState(
    first: Entry, before: seq<Event>, last: Event, events: seq<Event>, all: set<string>)
    requires events == before + [last]
    requires last.SegmentProduced? || last.VodProgress? || last.ExpectRenditions?
    ensures StateAfter(first, events, all) == StateAfter(first, before, all)
  {
    assert events[..|events| - 1] == before;
  }

  lemma {:induction false} HandledTracks(m: Manager, events: seq<Event>, id: StreamId, all: set<string>)
    requires id in m.streams && Fresh(m.streams[id]) && Orderly(events, id, all)
    ensures id in Handled(m, events).streams
    ensures Tracks(Handled(m, events).streams[id], m.streams[id], events, all)
  {
    if events == [] {
      assert CompleteRenditions(m.streams[id]) == {};
    } else {
      var before, last := events[..|events| - 1], events[|events| - 1];
      HandledTracks(m, before, id, all);
      OnlyKnown(events, id, all);
      assert events == before + [last];
      var m1 := Handled(m, before);
      if last.RenditionComplete? {
        MarkTracks(m1.streams[id], m.streams[id], before, last, events, all, m1);
      } else if last.StreamStarted? || last.StreamEnded? {
        MoveTracks(m1.streams[id], m.streams[id], before, last, events, all, m1);
      } else {
        StillTracks(m1.streams[id], m.streams[id], before, last, events, all, m1);
      }
      HandleTouches(m1, last, id);
    }
  }

  /** Index `k` holds the last completion. */
  predicate LastCompletion(events: seq<Event>, k: nat) {
    k < |events| && events[k].RenditionComplete? &&
    forall i :: k < i < |events| ==> !events[i].RenditionComplete?
  }

  lemma {:induction false} NothingAfterLast(events: seq<Event>, k: nat, all: set<string>, first: Entry)
    requires LastCompletion(events, k)
    ensures Completed(events) == Completed(events[..k + 1])
    ensures GetsReady(events, all, first) <==> GetsReady(events[..k + 1], all, first)
  {
    if k + 1 < |events| {
      var before := events[..|events| - 1];
      NothingAfterLast(before, k, all, first);
      assert before[..k + 1] == events[..k + 1];
    } else {
      assert events[..k + 1] == events;
    }
  }

  /** The stream is in processing, and the number of renditions to expect is known, before the last completion. */
  ghost predicate InTime(events: seq<Event>, first: Entry) {
    exists k: nat :: LastCompletion(events, k) && InProcessing(first, events[..k]) && HasAsked(events[..k])
  }

  lemma {:induction false} LastCompletionOf(events: seq<Event>, all: set<string>, first: Entry) returns (k: nat)
    requires GetsReady(events, all, first)
    ensures LastCompletion(events, k)
  {
    k := |events| - 1;
    if !events[k].RenditionComplete? {
      k := LastCompletionOf(events[..k], all, first);
    }
  }

  lemma {:induction false} ReadyHasAll(events: seq<Event>, all: set<string>, first: Entry)
    requires GetsReady(events, all, first)
    ensures all <= Completed(events)
  {
    if GetsReady(events[..|events| - 1], all, first) {
      ReadyHasAll(events[..|events| - 1], all, first);
    }
  }

  lemma {:induction false} AtLastCompletion(events: seq<Event>, k: nat, all: set<string>, first: Entry)
    requires LastCompletion(events, k) && Completed(events) == all
    ensures GetsReady(events, all, first) <==> InProcessing(first, events[..k]) && HasAsked(events[..k])
  {
    NothingAfterLast(events, k, all, first);
    assert events[..k + 1][..k] == events[..k];
    if GetsReady(events[..k], all, first) {
      ReadyEnds(events[..k], all, first);
    }
  }

  lemma {:induction false} GetsReadyExactly(events: seq<Event>, all: set<string>, first: Entry)
    requires Completed(events) <= all
    ensures GetsReady(events, all, first) <==> Completed(events) == all && InTime(events, first)
  {
    if GetsReady(events, all, first) {
      var k := LastCompletionOf(events, all, first);
      ReadyHasAll(events, all, first);
      AtLastCompletion(events, k, all, first);
    } else if Completed(events) == all && InTime(events, first) {
      var k: nat :| LastCompletion(events, k) && InProcessing(first, events[..k]) && HasAsked(events[..k]);
      AtLastCompletion(events, k, all, first);
    }
  }

  /** From its creation on, in whatever order its events come, and however interleaved with those of other streams, a
      stream gets ready if and only if all its renditions complete, and both its processing has begun and the number of
      renditions to expect is known before the last completion. */
  lemma {:induction false} ReadyExactly(m: Manager, events: seq<Event>, id: StreamId, all: set<string>)
    requires id in m.streams && Fresh(m.streams[id]) && Orderly(ForStream(events, id), id, all)
    ensures id in Handled(m, events).streams
    ensures var own := ForStream(events, id);
      Handled(m, events).streams[id].state == Ready <==>
        Completed(own) == all && InTime(own, m.streams[id])
  {
    var own := ForStream(events, id);
    StreamsIndependent(m, events, id);
    HandledTracks(m, own, id, all);
    OnlyKnown(own, id, all);
    GetsReadyExactly(own, all, m.streams[id]);
  }
}
