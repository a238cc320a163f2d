/** Conflict names over whole runs, and what a conflict parks under them
    (internal/server/syncengine/conflict.go:17-103). */
module ConflictRuns {
  import opened Prelude
  import opened Protocol
  import opened FileStateTable
  import opened ConflictName
  import opened Engine
  import opened SyncSystem
  import opened TwoWay
  import Mirror

  // If the path is a conflict name at all, it was made before the given time.
  ghost predicate Older(path: Path, time: nat) {
    forall rel, c, ts: nat :: path == ConflictFilename(rel, c, ts) ==> ts < time
  }

  // A client holds a file at the place, or has a command queued that touches it.
  ghost predicate Held(s: Sys, c: ClientId, slot: Slot) {
    slot in TreeOf(s, c) || !Mirror.NoneTouches(Queue(s, c), slot)
  }

  // Every conflict name a client holds in the pair, or has queued, is older than the clock.
  ghost predicate NamesPast(s: Sys, p: PairId, clock: nat) {
    forall c, path :: Held(s, c, Slot(p, path)) ==> Older(path, clock)
  }

  // The earliest reading that the clock can give for the next conflict of the pair.
  function ClockAfter(start: nat, p: PairId, steps: seq<Step>): nat {
    if steps == [] then start
    else match steps[|steps| - 1]
         case Handled(r, _) => if r.ev.pair == p then r.conflictNow + 1 else ClockAfter(start, p, steps[..|steps| - 1])
         case _ => ClockAfter(start, p, steps[..|steps| - 1])
  }

  // A step at which the pair's clock has advanced, and which brings in only conflict names made
  // before: neither a report nor an edit anticipates one.
  ghost predicate TimelyStep(p: PairId, clock: nat, step: Step) {
    match step
    case Handled(r, _) => r.ev.pair == p ==> clock <= r.conflictNow && Older(r.ev.path, r.conflictNow)
    case Edit(_, slot, _) => slot.pair == p ==> Older(slot.path, clock)
    case _ => true
  }

  ghost predicate Timely(start: nat, p: PairId, steps: seq<Step>) {
    steps == []
    || (Timely(start, p, steps[..|steps| - 1])
        && TimelyStep(p, ClockAfter(start, p, steps[..|steps| - 1]), steps[|steps| - 1]))
  }

  lemma OlderStill(path: Path, time: nat, later: nat)
    requires Older(path, time) && time <= later
    ensures Older(path, later)
  {
    forall rel, c, ts: nat | path == ConflictFilename(rel, c, ts) ensures ts < later {}
  }

  lemma NewNameIsOlder(rel: Path, c: ClientId, now: nat)
    ensures Older(ConflictFilename(rel, c, now), now + 1)
  {
    forall r, d, ts: nat | ConflictFilename(rel, c, now) == ConflictFilename(r, d, ts) ensures ts < now + 1 {
      ConflictNamesDistinct(rel, c, now, r, d, ts);
    }
  }

  // The engine renames only to conflict names made with the report's clock reading.
  lemma RenamesArePlanned(pair: Pair, r: Report, row: Row, other: Option<Row>, x: Send)
    requires x in Plan(pair, r, row, other)
    ensures x.cmd.pair == pair.id && x.cmd.path == r.ev.path
    ensures x.cmd.op == Rename ==> exists c :: x.cmd.newPath == ConflictFilename(r.ev.path, c, r.conflictNow)
  {
    PlanStaysInPair(pair, r, row, other);
    if x.cmd.op == Rename {
      assert exists c :: x.cmd.newPath == ConflictFilename(r.ev.path, c, r.conflictNow) by {
        assert x.cmd.newPath == ConflictFilename(r.ev.path, x.to, r.conflictNow);
      }
    }
  }

  // What a report queues touches the reported path and a conflict name made for it, no more.
  lemma QueuedNames(s: Server, r: Report, budget: nat, c: ClientId, x: Command, p: PairId, path: Path)
    requires ValidPairs(s.pairs) && x in CommandsFor(Handle(s, r, budget).sent, c)
    requires Slot(p, path) in Touches(x)
    ensures r.ev.pair == p
    ensures path == r.ev.path || exists d :: path == ConflictFilename(r.ev.path, d, r.conflictNow)
  {
    var sent := Handle(s, r, budget).sent;
    Mirror.CommandsComeFromSends(sent, c);
    var y :| y in sent && y.cmd == x;
    var row := RowOf(r.ev, r.now);
    RenamesArePlanned(s.pairs[r.ev.pair], r, row, Lookup(Upserted(s.rows, Upsert(KeyOf(r.ev), row)), OtherKey(r.ev)), y);
  }

  lemma HandledKeepsNames(s: Sys, p: PairId, clock: nat, r: Report, budget: nat)
    requires ValidPairs(s.server.pairs) && NamesPast(s, p, clock) && TimelyStep(p, clock, Handled(r, budget))
    ensures NamesPast(Next(s, Handled(r, budget)), p, if r.ev.pair == p then r.conflictNow + 1 else clock)
  {
    var t := Next(s, Handled(r, budget));
    var clock' := if r.ev.pair == p then r.conflictNow + 1 else clock;
    forall c, path | Held(t, c, Slot(p, path)) ensures Older(path, clock') {
      AfterHandled(s, r, budget, c);
      if Held(s, c, Slot(p, path)) {
        OlderStill(path, clock, clock');
      } else {
        var x :| x in CommandsFor(Handle(s.server, r, budget).sent, c) && Slot(p, path) in Touches(x);
        QueuedNames(s.server, r, budget, c, x, p, path);
        if path == r.ev.path {
          OlderStill(path, r.conflictNow, clock');
        } else {
          var d :| path == ConflictFilename(r.ev.path, d, r.conflictNow);
          NewNameIsOlder(r.ev.path, d, r.conflictNow);
        }
      }
    }
  }

  lemma OtherStepsKeepNames(s: Sys, p: PairId, clock: nat, step: Step)
    requires !step.Handled? && NamesPast(s, p, clock) && TimelyStep(p, clock, step)
    ensures NamesPast(Next(s, step), p, clock)
  {
    var t := Next(s, step);
    forall c, path | Held(t, c, Slot(p, path)) ensures Older(path, clock) {
      if !(step.Edit? && step.slot == Slot(p, path)) {
        HeldBefore(s, step, c, Slot(p, path));
      }
    }
  }

  lemma HeldBefore(s: Sys, step: Step, c: ClientId, slot: Slot)
    requires !step.Handled? && !(step.Edit? && step.slot == slot) && Held(Next(s, step), c, slot)
    ensures Held(s, c, slot)
  {
    var q := Queue(s, c);
    if step.Execute? && step.c == c && q != [] {
      assert q[0] in q;
      assert forall x :: x in q[1..] ==> x in q;
      if slot !in Touches(q[0]) {
        ExecLocal(TreeOf(s, c), q[0], step.ok, slot);
      }
    }
  }

  // Over every run of the system, with the pair's clock advancing from conflict to conflict.
  lemma {:induction false} NamesStayPast(s: Sys, p: PairId, start: nat, steps: seq<Step>)
    requires ValidPairs(s.server.pairs) && NamesPast(s, p, start) && Timely(start, p, steps)
    ensures NamesPast(Run(s, steps), p, ClockAfter(start, p, steps))
  {
    if steps != [] {
      var n := |steps| - 1;
      Mirror.RunKeepsPairs(s, steps[..n]);
      NamesStayPast(s, p, start, steps[..n]);
      match steps[n]
      case Handled(r, budget) =>
        HandledKeepsNames(Run(s, steps[..n]), p, ClockAfter(start, p, steps[..n]), r, budget);
      case _ =>
        OtherStepsKeepNames(Run(s, steps[..n]), p, ClockAfter(start, p, steps[..n]), steps[n]);
    }
  }

  lemma {:induction false} ViewIsHeld(tree: Tree, q: seq<Command>, slot: Slot)
    requires slot in ExecAll(tree, q)
    ensures slot in tree || !Mirror.NoneTouches(q, slot)
  {
    if q != [] {
      var n := |q| - 1;
      if slot in Touches(q[n]) {
        assert q[n] in q;
      } else {
        ExecLocal(ExecAll(tree, q[..n]), q[n], true, slot);
        ViewIsHeld(tree, q[..n], slot);
        assert forall x :: x in q[..n] ==> x in q;
      }
    }
  }

  // Every conflict of a run parks under a name that no client holds or has queued.
  lemma ConflictNameFresh(s0: Sys, p: PairId, start: nat, steps: seq<Step>, r: Report, c: ClientId)
    requires ValidPairs(s0.server.pairs) && NamesPast(s0, p, start)
    requires Timely(start, p, steps) && TimelyStep(p, ClockAfter(start, p, steps), Handled(r, 0))
    requires r.ev.pair == p && TwoWayReport(Run(s0, steps).server, r)
    ensures !Held(Run(s0, steps), c, Parked(Run(s0, steps).server, r))
    ensures Parked(Run(s0, steps).server, r) !in View(Run(s0, steps), c)
  {
    var s := Run(s0, steps);
    NamesStayPast(s0, p, start, steps);
    var parked := Parked(s.server, r);
    assert parked == Slot(p, ConflictFilename(r.ev.path, Peer(s.server, r), r.conflictNow));
    assert !Older(parked.path, ClockAfter(start, p, steps));
    if parked in View(s, c) {
      ViewIsHeld(TreeOf(s, c), Queue(s, c), parked);
    }
  }

  // So in every run a conflict parks exactly what the loser's file would have held: its reported
  // content is kept, under the conflict name, exactly when what was queued for the loser leaves
  // that content, the one its row names, at the path.
  lemma ParksReportedContentIff(s0: Sys, p: PairId, start: nat, steps: seq<Step>, r: Report, budget: nat, drain: seq<Step>)
    requires ValidPairs(s0.server.pairs) && NamesPast(s0, p, start)
    requires Timely(start, p, steps) && TimelyStep(p, ClockAfter(start, p, steps), Handled(r, budget))
    requires r.ev.pair == p && InConflict(Run(s0, steps).server, r) && budget >= 3 && Drain(drain)
    requires var s := Run(s0, steps);
             var end := Run(Next(s, Handled(r, budget)), drain);
             Queue(end, r.src) == [] && Queue(end, Peer(s.server, r)) == []
    ensures var s := Run(s0, steps);
            var end := Run(Next(s, Handled(r, budget)), drain);
            var loser, reported := Peer(s.server, r), s.server.rows[OtherKey(r.ev)].sha;
            && At(TreeOf(end, loser), Parked(s.server, r)) == At(View(s, loser), SlotOf(r.ev))
            && (At(TreeOf(end, loser), Parked(s.server, r)) == reported <==> At(View(s, loser), SlotOf(r.ev)) == reported)
            && (forall q :: q != SlotOf(r.ev) ==> (q in View(s, loser) ==> At(TreeOf(end, loser), q) == At(View(s, loser), q)))
  {
    var s := Run(s0, steps);
    var loser := Peer(s.server, r);
    ConflictNameFresh(s0, p, start, steps, r, loser);
    ParkedIsDisplaced(s, r, budget, drain);
    ConflictLosesNothing(s, r, budget, drain);
  }

  // The parked file, when the name was free.
  lemma ParkedIsDisplaced(s: Sys, r: Report, budget: nat, drain: seq<Step>)
    requires InConflict(s.server, r) && budget >= 3 && Drain(drain)
    requires Parked(s.server, r) !in View(s, Peer(s.server, r))
    requires var end := Run(Next(s, Handled(r, budget)), drain); Queue(end, Peer(s.server, r)) == []
    ensures var end := Run(Next(s, Handled(r, budget)), drain);
            var loser := Peer(s.server, r);
            At(TreeOf(end, loser), Parked(s.server, r)) == At(View(s, loser), SlotOf(r.ev))
  {
    var t := Next(s, Handled(r, budget));
    var loser := Peer(s.server, r);
    DrainKeepsViews(t, drain, loser);
    ViewsAfterConflict(s, r, budget);
    assert TreeOf(Run(t, drain), loser) == View(t, loser);
    assert |Parked(s.server, r).path| > |r.ev.path|;
  }
}
