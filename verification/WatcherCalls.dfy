/** Calls of processEvent that overlap, and events that find the channel full
    (internal/watcher/watcher.go:206-294). */
module WatcherCalls {
  import opened Prelude
  import opened Watcher

  // What a call has still to do: compare with the known hash under the read lock, store its own
  // or forget the path under the write lock, send its event.
  datatype Phase = Comparing(sha: string) | Storing(sha: string) | Forgetting | Sending(ev: Event) | Done

  datatype Call = Call(path: Name, phase: Phase)

  // An event sent, and whether the channel had room for it.
  datatype Raised = Raised(ev: Event, delivered: bool)

  // Each callback runs its call in a goroutine of its own, outside `debounceMu`. `begun` lists the
  // handoffs and `changes` the changes of the known hashes, in order.
  datatype Work = Work(
    known: map<Name, string>, calls: seq<Call>, raised: seq<Raised>, begun: seq<Handoff>, changes: seq<Event>)

  datatype Step = Begin(h: Handoff) | Advance(i: nat, room: bool)

  const NONE: Work := Work(map[], [], [], [], [])

  function At(m: map<Name, string>, p: Name): Option<string> {
    if p in m then Some(m[p]) else None
  }

  // The file has been looked at and hashed.
  function Opening(h: Handoff): Phase {
    if Modify in h.op || Create in h.op then (if h.stat.Regular? then Comparing(h.stat.sha) else Done)
    else if Remove in h.op || Rename in h.op then Forgetting
    else Done
  }

  function Same(known: Option<string>, sha: string): bool {
    sha == if known.Some? then known.value else ""
  }

  function Do(s: Work, step: Step): Work {
    match step
    case Begin(h) => s.(calls := s.calls + [Call(h.path, Opening(h))], begun := s.begun + [h])
    case Advance(i, room) =>
      if i >= |s.calls| then s
      else
        var p := s.calls[i].path;
        match s.calls[i].phase
        case Comparing(sha) => WithPhase(s, i, if Same(At(s.known, p), sha) then Done else Storing(sha))
        case Storing(sha) =>
          WithPhase(s, i, Sending(Wrote(p, sha))).(known := s.known[p := sha], changes := s.changes + [Wrote(p, sha)])
        case Forgetting =>
          WithPhase(s, i, Sending(Removed(p))).(known := s.known - {p}, changes := s.changes + [Removed(p)])
        case Sending(ev) => WithPhase(s, i, Done).(raised := s.raised + [Raised(ev, room)])
        case Done => s
  }

  function WithPhase(s: Work, i: nat, phase: Phase): Work
    requires i < |s.calls|
  {
    s.(calls := s.calls[i := s.calls[i].(phase := phase)])
  }

  function Run(steps: seq<Step>): Work {
    if steps == [] then NONE else Do(Run(steps[..|steps| - 1]), steps[|steps| - 1])
  }

  function Events(raised: seq<Raised>): seq<Event> {
    seq(|raised|, i requires 0 <= i < |raised| => raised[i].ev)
  }

  // The events the listener hears.
  function Delivered(raised: seq<Raised>): seq<Event> {
    if raised == [] then []
    else Delivered(raised[..|raised| - 1]) + if raised[|raised| - 1].delivered then [raised[|raised| - 1].ev] else []
  }

  function OfPath(evs: seq<Event>, p: Name): seq<Event> {
    if evs == [] then []
    else OfPath(evs[..|evs| - 1], p) + if evs[|evs| - 1].path == p then [evs[|evs| - 1]] else []
  }

  function Tells(ev: Event): Option<string> {
    match ev case Wrote(_, sha) => Some(sha) case Removed(_) => None
  }

  // What the last event of a path tells; a path without events is unknown.
  function LastTold(evs: seq<Event>, p: Name): Option<string> {
    if evs == [] then None
    else if evs[|evs| - 1].path == p then Tells(evs[|evs| - 1])
    else LastTold(evs[..|evs| - 1], p)
  }

  lemma {:induction false} HeardIsLastTold(evs: seq<Event>, p: Name)
    ensures At(Heard(evs), p) == LastTold(evs, p)
  {
    if evs != [] {
      HeardIsLastTold(evs[..|evs| - 1], p);
    }
  }

  lemma {:induction false} LastToldOfPath(evs: seq<Event>, p: Name)
    ensures LastTold(OfPath(evs, p), p) == LastTold(evs, p)
  {
    if evs != [] {
      var pre := evs[..|evs| - 1];
      LastToldOfPath(pre, p);
      if evs[|evs| - 1].path == p {
        assert OfPath(evs, p)[|OfPath(evs, p)| - 1] == evs[|evs| - 1];
      } else {
        assert OfPath(evs, p) == OfPath(pre, p);
      }
    }
  }

  lemma OfPathOneMore(evs: seq<Event>, ev: Event, p: Name)
    ensures OfPath(evs + [ev], p) == OfPath(evs, p) + if ev.path == p then [ev] else []
  {
    assert (evs + [ev])[..|evs|] == evs;
  }

  // No call on the path is under way.
  ghost predicate Quiet(s: Work, p: Name) {
    forall i :: !UnderWay(s, p, i)
  }

  predicate UnderWay(s: Work, p: Name, i: int) {
    0 <= i < |s.calls| && s.calls[i].path == p && !s.calls[i].phase.Done?
  }

  // Calls on the path do not overlap: each begins when the one before has ended. Calls on other
  // paths may overlap with them and with each other in any way.
  ghost predicate Alone(steps: seq<Step>, p: Name) {
    steps == []
    || (Alone(steps[..|steps| - 1], p)
        && (steps[|steps| - 1].Begin? && steps[|steps| - 1].h.path == p ==> Quiet(Run(steps[..|steps| - 1]), p)))
  }

  // What a path's hash becomes, and what is sent, when a call is left to finish by itself.
  function Finish(known: Option<string>, p: Name, phase: Phase): (Option<string>, seq<Event>) {
    match phase
    case Comparing(sha) => if Same(known, sha) then (known, []) else (Some(sha), [Wrote(p, sha)])
    case Storing(sha) => (Some(sha), [Wrote(p, sha)])
    case Forgetting => (None, [Removed(p)])
    case Sending(ev) => (known, [ev])
    case Done => (known, [])
  }

  // A call that runs alone does what Process does.
  lemma ProcessIsFinish(m: map<Name, string>, h: Handoff, p: Name)
    ensures var (m', ev) := Process(m, h);
            && (h.path == p ==> Finish(At(m, p), p, Opening(h)) == (At(m', p), if ev.Some? then [ev.value] else []))
            && (h.path != p ==> At(m', p) == At(m, p))
            && (ev.Some? ==> ev.value.path == h.path)
  {
  }

  // For path p, the state is that of the calls made one at a time, up to what a call under way
  // has still to do.
  ghost predicate Matches(s: Work, p: Name) {
    var (m, evs) := ProcessAll(s.begun);
    && (forall i, j :: UnderWay(s, p, i) && UnderWay(s, p, j) ==> i == j)
    && (Quiet(s, p) ==> Reaches(s, p, Done, m, evs))
    && (forall i :: UnderWay(s, p, i) ==> Reaches(s, p, s.calls[i].phase, m, evs))
  }

  ghost predicate Reaches(s: Work, p: Name, phase: Phase, m: map<Name, string>, evs: seq<Event>) {
    var (known, more) := Finish(At(s.known, p), p, phase);
    known == At(m, p) && OfPath(Events(s.raised), p) + more == OfPath(evs, p)
  }

  lemma ProcessAllOneMore(hs: seq<Handoff>, h: Handoff)
    ensures var (m, evs) := ProcessAll(hs);
            var (m', ev) := Process(m, h);
            ProcessAll(hs + [h]) == (m', if ev.Some? then evs + [ev.value] else evs)
  {
    assert (hs + [h])[..|hs|] == hs;
  }

  lemma BeginUnderWay(s: Work, p: Name, h: Handoff)
    ensures var t := Do(s, Begin(h));
            && (forall i :: UnderWay(t, p, i) <==> UnderWay(s, p, i) || (i == |s.calls| && h.path == p && !Opening(h).Done?))
            && (forall i :: UnderWay(s, p, i) ==> t.calls[i] == s.calls[i])
  {
  }

  lemma BeginReaches(s: Work, p: Name, h: Handoff, m: map<Name, string>, evs: seq<Event>)
    requires ProcessAll(s.begun) == (m, evs) && h.path == p && Reaches(s, p, Done, m, evs)
    ensures var t := Do(s, Begin(h)); Reaches(t, p, Opening(h), ProcessAll(t.begun).0, ProcessAll(t.begun).1)
  {
    var (m', ev) := Process(m, h);
    ProcessAllOneMore(s.begun, h);
    ProcessIsFinish(m, h, p);
    assert OfPath(Events(s.raised), p) + [] == OfPath(Events(s.raised), p);
    if ev.Some? {
      OfPathOneMore(evs, ev.value, p);
    }
  }

  lemma BeginMatchesHere(s: Work, p: Name, h: Handoff)
    requires Matches(s, p) && h.path == p && Quiet(s, p)
    ensures Matches(Do(s, Begin(h)), p)
  {
    var t := Do(s, Begin(h));
    var n := |s.calls|;
    BeginUnderWay(s, p, h);
    BeginReaches(s, p, h, ProcessAll(s.begun).0, ProcessAll(s.begun).1);
    assert t.calls[n].phase == Opening(h);
    if Quiet(t, p) {
      assert !UnderWay(t, p, n);
      assert Opening(h) == Done;
    }
  }

  lemma BeginMatchesElsewhere(s: Work, p: Name, h: Handoff)
    requires Matches(s, p) && h.path != p
    ensures Matches(Do(s, Begin(h)), p)
  {
    var t := Do(s, Begin(h));
    var (m, evs) := ProcessAll(s.begun);
    var (m', ev) := Process(m, h);
    BeginUnderWay(s, p, h);
    ProcessAllOneMore(s.begun, h);
    ProcessIsFinish(m, h, p);
    if ev.Some? {
      OfPathOneMore(evs, ev.value, p);
    }
    var (m2, evs2) := ProcessAll(t.begun);
    assert At(m2, p) == At(m, p) && OfPath(evs2, p) == OfPath(evs, p);
    forall i | UnderWay(t, p, i) ensures Reaches(t, p, t.calls[i].phase, m2, evs2) {
      assert UnderWay(s, p, i) && Reaches(s, p, s.calls[i].phase, m, evs);
    }
    if Quiet(t, p) {
      assert forall i :: UnderWay(s, p, i) ==> UnderWay(t, p, i);
      assert Reaches(s, p, Done, m, evs);
    }
  }

  lemma EventsOneMore(raised: seq<Raised>, r: Raised)
    ensures Events(raised + [r]) == Events(raised) + [r.ev]
  {
  }

  // A call's own step brings it nearer to the same end.
  lemma AdvanceReaches(s: Work, p: Name, i: nat, room: bool, m: map<Name, string>, evs: seq<Event>)
    requires UnderWay(s, p, i) && Reaches(s, p, s.calls[i].phase, m, evs)
    requires s.calls[i].phase.Sending? ==> s.calls[i].phase.ev.path == p
    ensures var t := Do(s, Advance(i, room)); i < |t.calls| && Reaches(t, p, t.calls[i].phase, m, evs)
  {
    if s.calls[i].phase.Sending? {
      var r := Raised(s.calls[i].phase.ev, room);
      EventsOneMore(s.raised, r);
      OfPathOneMore(Events(s.raised), r.ev, p);
      assert OfPath(Events(s.raised), p) + [r.ev] + [] == OfPath(Events(s.raised), p) + [r.ev];
    }
  }

  // Another path's step changes nothing about this one.
  lemma AdvanceElsewhere(s: Work, p: Name, i: nat, room: bool)
    requires i < |s.calls| && s.calls[i].path != p && (s.calls[i].phase.Sending? ==> s.calls[i].phase.ev.path != p)
    ensures var t := Do(s, Advance(i, room));
            && At(t.known, p) == At(s.known, p) && OfPath(Events(t.raised), p) == OfPath(Events(s.raised), p)
            && (forall j :: UnderWay(t, p, j) <==> UnderWay(s, p, j))
            && (forall j :: UnderWay(s, p, j) ==> t.calls[j] == s.calls[j])
  {
    if s.calls[i].phase.Sending? {
      var r := Raised(s.calls[i].phase.ev, room);
      EventsOneMore(s.raised, r);
      OfPathOneMore(Events(s.raised), r.ev, p);
    }
  }

  // A call sends events of its own path only.
  ghost predicate SendsOwn(s: Work) {
    forall i :: 0 <= i < |s.calls| && s.calls[i].phase.Sending? ==> s.calls[i].phase.ev.path == s.calls[i].path
  }

  lemma AdvanceMatchesElsewhere(s: Work, p: Name, i: nat, room: bool)
    requires Matches(s, p) && SendsOwn(s) && i < |s.calls| && s.calls[i].path != p
    ensures Matches(Do(s, Advance(i, room)), p)
  {
    var t := Do(s, Advance(i, room));
    var (m, evs) := ProcessAll(s.begun);
    AdvanceElsewhere(s, p, i, room);
    assert t.begun == s.begun;
    forall j | UnderWay(t, p, j) ensures Reaches(t, p, t.calls[j].phase, m, evs) {
      assert UnderWay(s, p, j) && Reaches(s, p, s.calls[j].phase, m, evs);
    }
    if Quiet(t, p) {
      assert forall j :: UnderWay(s, p, j) ==> UnderWay(t, p, j);
      assert Reaches(s, p, Done, m, evs);
    }
  }

  lemma AdvanceMatchesHere(s: Work, p: Name, i: nat, room: bool)
    requires Matches(s, p) && SendsOwn(s) && UnderWay(s, p, i)
    ensures Matches(Do(s, Advance(i, room)), p)
  {
    var t := Do(s, Advance(i, room));
    var (m, evs) := ProcessAll(s.begun);
    AdvanceReaches(s, p, i, room, m, evs);
    assert t.begun == s.begun;
    assert forall j :: 0 <= j < |s.calls| && j != i ==> t.calls[j] == s.calls[j];
    forall j | UnderWay(t, p, j) ensures j == i {
      assert j != i ==> UnderWay(s, p, j);
    }
    if Quiet(t, p) {
      assert !UnderWay(t, p, i);
      assert t.calls[i].phase == Done;
    }
  }

  lemma AdvanceMatches(s: Work, p: Name, i: nat, room: bool)
    requires Matches(s, p) && SendsOwn(s) && i < |s.calls|
    ensures Matches(Do(s, Advance(i, room)), p)
  {
    if s.calls[i].path != p {
      AdvanceMatchesElsewhere(s, p, i, room);
    } else if UnderWay(s, p, i) {
      AdvanceMatchesHere(s, p, i, room);
    } else {
      assert Do(s, Advance(i, room)) == s;
    }
  }

  lemma {:induction false} RunSendsOwn(steps: seq<Step>)
    ensures SendsOwn(Run(steps))
  {
    if steps != [] {
      RunSendsOwn(steps[..|steps| - 1]);
    }
  }

  lemma {:induction false} RunMatches(steps: seq<Step>, p: Name)
    requires Alone(steps, p)
    ensures Matches(Run(steps), p)
  {
    if steps == [] {
      assert Events([]) == [];
      assert Quiet(NONE, p);
    } else {
      var pre := steps[..|steps| - 1];
      RunMatches(pre, p);
      RunSendsOwn(pre);
      match steps[|steps| - 1]
      case Begin(h) =>
        if h.path == p { BeginMatchesHere(Run(pre), p, h); } else { BeginMatchesElsewhere(Run(pre), p, h); }
      case Advance(i, room) =>
        if i < |Run(pre).calls| { AdvanceMatches(Run(pre), p, i, room); }
    }
  }

  // Every interleaving in which the calls on a path do not overlap, whatever calls on other paths
  // do: when none of them is under way, the path's known hash and the events raised for it are
  // those of the calls made one at a time in the order of their handoffs.
  lemma CallsRefineProcess(steps: seq<Step>, p: Name)
    requires Alone(steps, p) && Quiet(Run(steps), p)
    ensures var s := Run(steps);
            && At(s.known, p) == At(ProcessAll(s.begun).0, p)
            && OfPath(Events(s.raised), p) == OfPath(ProcessAll(s.begun).1, p)
  {
    RunMatches(steps, p);
  }

  lemma {:induction false} AllNewsOfPath(evs: seq<Event>, p: Name)
    requires AllNews(evs)
    ensures AllNews(OfPath(evs, p))
  {
    if evs != [] {
      var pre, last := evs[..|evs| - 1], evs[|evs| - 1];
      AllNewsOfPath(pre, p);
      if last.path == p {
        HeardIsLastTold(pre, p);
        HeardIsLastTold(OfPath(pre, p), p);
        LastToldOfPath(pre, p);
        AllNewsOneMore(OfPath(pre, p), last);
      } else {
        assert OfPath(evs, p) == OfPath(pre, p);
      }
    }
  }

  ghost predicate Hashed(hs: seq<Handoff>) {
    forall i :: 0 <= i < |hs| && hs[i].stat.Regular? ==> hs[i].stat.sha != ""
  }

  // Then the path's known hash is what the events raised for it tell, which is what its last
  // telling handoff saw, and no write of it is raised twice.
  lemma KnownIsWhatWasRaised(steps: seq<Step>, p: Name)
    requires Alone(steps, p) && Quiet(Run(steps), p) && Hashed(Run(steps).begun)
    ensures var s := Run(steps);
            && At(s.known, p) == At(Heard(Events(s.raised)), p) == LastSeen(s.begun, p)
            && AllNews(OfPath(Events(s.raised), p))
  {
    var s := Run(steps);
    var (m, evs) := ProcessAll(s.begun);
    CallsRefineProcess(steps, p);
    HashesAreWhatWasRaised(s.begun);
    HashesAreLastSeen(s.begun, p);
    AllNewsOfPath(evs, p);
    HeardIsLastTold(Events(s.raised), p);
    HeardIsLastTold(evs, p);
    LastToldOfPath(Events(s.raised), p);
    LastToldOfPath(evs, p);
  }

  // The last event raised for the path found room.
  predicate LastGotThrough(raised: seq<Raised>, p: Name) {
    if raised == [] then true
    else if raised[|raised| - 1].ev.path == p then raised[|raised| - 1].delivered
    else LastGotThrough(raised[..|raised| - 1], p)
  }

  lemma {:induction false} GotThroughTells(raised: seq<Raised>, p: Name)
    requires LastGotThrough(raised, p)
    ensures LastTold(Delivered(raised), p) == LastTold(Events(raised), p)
  {
    if raised == [] {
      assert Events(raised) == [];
    } else {
      var pre, last := raised[..|raised| - 1], raised[|raised| - 1];
      assert Events(raised)[..|raised| - 1] == Events(pre);
      if last.ev.path != p {
        GotThroughTells(pre, p);
        if last.delivered {
          assert Delivered(raised)[..|Delivered(pre)|] == Delivered(pre);
        } else {
          assert Delivered(raised) == Delivered(pre);
        }
      }
    }
  }

  // With any pattern of events that find the channel full: a listener that hears the delivered
  // ones knows of a path what its last telling handoff saw exactly when the last event raised for
  // the path was delivered, or the last one that was happens to tell the same.
  lemma ListenerKnowsIff(steps: seq<Step>, p: Name)
    requires Alone(steps, p) && Quiet(Run(steps), p) && Hashed(Run(steps).begun)
    ensures var s := Run(steps);
            At(Heard(Delivered(s.raised)), p) == LastSeen(s.begun, p)
            <==> LastGotThrough(s.raised, p) || LastTold(Delivered(s.raised), p) == LastTold(Events(s.raised), p)
  {
    var s := Run(steps);
    KnownIsWhatWasRaised(steps, p);
    HeardIsLastTold(Events(s.raised), p);
    HeardIsLastTold(Delivered(s.raised), p);
    if LastGotThrough(s.raised, p) {
      GotThroughTells(s.raised, p);
    }
  }

  lemma {:induction false} KnownIsLastChange(steps: seq<Step>, p: Name)
    ensures At(Run(steps).known, p) == LastTold(Run(steps).changes, p)
  {
    if steps != [] {
      var pre := steps[..|steps| - 1];
      KnownIsLastChange(pre, p);
      var s, t := Run(pre), Run(steps);
      if t.changes != s.changes {
        assert t.changes[..|s.changes|] == s.changes;
      }
    }
  }

  // Calls that overlap in any way: a listener that hears everything agrees with the known hash of
  // a path exactly when the last call to change the hash and the last to send tell the same.
  lemma OverlappingAgreeIff(steps: seq<Step>, p: Name)
    ensures var s := Run(steps);
            At(Heard(Events(s.raised)), p) == At(s.known, p)
            <==> LastTold(s.changes, p) == LastTold(Events(s.raised), p)
  {
    KnownIsLastChange(steps, p);
    HeardIsLastTold(Events(Run(steps).raised), p);
  }

  lemma RunMore(steps: seq<Step>, step: Step)
    ensures Run(steps + [step]) == Do(Run(steps), step)
  {
    assert (steps + [step])[..|steps|] == steps;
  }

  function WriteOf(p: Name, sha: string): Handoff { Handoff(p, {Modify}, Regular(sha)) }

  // Two calls that have both compared before either stores.
  function BothCompared(p: Name, x: string, y: string): Work {
    Work(map[], [Call(p, Storing(x)), Call(p, Storing(y))], [], [WriteOf(p, x), WriteOf(p, y)], [])
  }

  lemma ReachesBothCompared(p: Name, x: string, y: string) returns (steps: seq<Step>)
    requires x != "" && y != ""
    ensures Run(steps) == BothCompared(p, x, y)
  {
    var b0, b1, c0, c1 := Begin(WriteOf(p, x)), Begin(WriteOf(p, y)), Advance(0, true), Advance(1, true);
    RunMore([], b0);
    RunMore([] + [b0], b1);
    RunMore([] + [b0] + [b1], c0);
    RunMore([] + [b0] + [b1] + [c0], c1);
    steps := [] + [b0] + [b1] + [c0] + [c1];
  }

  // Overlapping calls can raise one write twice.
  lemma OverlapRaisesTwice(p: Name, sha: string)
    requires sha != ""
    ensures exists steps :: Quiet(Run(steps), p) && Run(steps).raised == [Raised(Wrote(p, sha), true), Raised(Wrote(p, sha), true)]
  {
    var pre := ReachesBothCompared(p, sha, sha);
    var a, b := Advance(0, true), Advance(1, true);
    RunMore(pre, a);
    RunMore(pre + [a], a);
    RunMore(pre + [a] + [a], b);
    RunMore(pre + [a] + [a] + [b], b);
    var steps := pre + [a] + [a] + [b] + [b];
    assert Quiet(Run(steps), p);
  }

  // And they can leave the listener with content the watcher no longer knows, although every
  // event is heard: the second call stores last and sends first. The content that the watcher
  // does know is not raised while the file keeps it.
  lemma OverlapMisleads(p: Name, x: string, y: string)
    requires x != "" && y != "" && x != y
    ensures exists steps :: Misled(Run(steps), p, x, y)
  {
    var pre := ReachesBothCompared(p, x, y);
    var a, b := Advance(0, true), Advance(1, true);
    RunMore(pre, a);
    RunMore(pre + [a], b);
    RunMore(pre + [a] + [b], b);
    RunMore(pre + [a] + [b] + [b], a);
    var steps := pre + [a] + [b] + [b] + [a];
    var s := Run(steps);
    assert s.raised == [Raised(Wrote(p, y), true), Raised(Wrote(p, x), true)];
    HeardIsLastTold(Events(s.raised), p);
    assert Misled(s, p, x, y);
  }

  ghost predicate Misled(s: Work, p: Name, x: string, y: string) {
    && Quiet(s, p) && At(s.known, p) == LastSeen(s.begun, p) == Some(y)
    && At(Heard(Events(s.raised)), p) == Some(x)
    && (forall i :: 0 <= i < |s.raised| ==> s.raised[i].delivered)
    && Process(s.known, WriteOf(p, y)).1 == None
  }

  const EVENT_CAPACITY := 100

  /** The watcher's known hashes, event channel and running calls; each method is one section
      under `mu`, or the send. */
  class FileWatcher {
    var fileHashes: map<Name, string>
    var events: seq<Event>
    var calls: seq<Call>
    ghost var raised: seq<Raised>
    ghost var begun: seq<Handoff>
    ghost var changes: seq<Event>

    constructor ()
      ensures Current() == NONE && events == []
    {
      fileHashes, events, calls, raised, begun, changes := map[], [], [], [], [], [];
    }

    ghost function Current(): Work reads this {
      Work(fileHashes, calls, raised, begun, changes)
    }

    // A callback starts its call.
    method BeginCall(h: Handoff) returns (i: nat)
      modifies this
      ensures i == |old(calls)| && Current() == Do(old(Current()), Begin(h)) && events == old(events)
    {
      i := |calls|;
      var phase := Done;
      if Modify in h.op || Create in h.op {
        if h.stat.Regular? {
          phase := Comparing(h.stat.sha);
        }
      } else if Remove in h.op || Rename in h.op {
        phase := Forgetting;
      }
      calls, begun := calls + [Call(h.path, phase)], begun + [h];
    }

    // The next section of a call. A send that finds the channel full drops the event.
    method AdvanceCall(i: nat)
      requires i < |calls|
      modifies this
      ensures Current() == Do(old(Current()), Advance(i, |old(events)| < EVENT_CAPACITY))
      ensures events == if old(calls)[i].phase.Sending? && |old(events)| < EVENT_CAPACITY
                        then old(events) + [old(calls)[i].phase.ev] else old(events)
    {
      var p := calls[i].path;
      match calls[i].phase {
        case Comparing(sha) =>
          var oldHash := "";
          if p in fileHashes {
            oldHash := fileHashes[p];
          }
          calls := calls[i := Call(p, if sha == oldHash then Done else Storing(sha))];
        case Storing(sha) =>
          fileHashes := fileHashes[p := sha];
          changes := changes + [Wrote(p, sha)];
          calls := calls[i := Call(p, Sending(Wrote(p, sha)))];
        case Forgetting =>
          fileHashes := fileHashes - {p};
          changes := changes + [Removed(p)];
          calls := calls[i := Call(p, Sending(Removed(p)))];
        case Sending(ev) =>
          raised := raised + [Raised(ev, |events| < EVENT_CAPACITY)];
          if |events| < EVENT_CAPACITY {
            events := events + [ev];
          }
          calls := calls[i := Call(p, Done)];
        case Done =>
      }
    }

    // A whole call that nothing overlaps.
    method ProcessEvent(h: Handoff) returns (ghost ev: Option<Event>)
      modifies this
      ensures (fileHashes, ev) == Process(old(fileHashes), h)
      ensures raised == if ev.Some? then old(raised) + [Raised(ev.value, |old(events)| < EVENT_CAPACITY)] else old(raised)
      ensures events == if ev.Some? && |old(events)| < EVENT_CAPACITY then old(events) + [ev.value] else old(events)
    {
      ev := Process(fileHashes, h).1;
      var i := BeginCall(h);
      assert calls[i] == Call(h.path, Opening(h));
      AdvanceCall(i);
      AdvanceCall(i);
      AdvanceCall(i);
    }
  }
}
