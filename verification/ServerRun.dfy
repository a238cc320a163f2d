/** Runs of the server over its clock, with restarts
    (internal/server/store/sqlite.go: checkMonotonic, internal/server/syncengine/engine.go). */
module ServerRun {
  import opened Protocol
  import opened FileStateTable
  import opened Lww
  import opened Engine

  datatype World = World(server: Server, clock: int)

  datatype Step = Tick(ns: nat) | Handled(r: Report, budget: nat) | Restart(to: int)

  // The clock never goes back while running, an event is stamped with the clock, and a start
  // happens only when checkMonotonic passes.
  predicate Permitted(w: World, step: Step) {
    match step
    case Tick(_) => true
    case Handled(r, _) => r.now == w.clock
    case Restart(to) => ClockBounds(w.server.rows, to)
  }

  function Next(w: World, step: Step): World {
    match step
    case Tick(ns) => w.(clock := w.clock + ns)
    case Handled(r, budget) => w.(server := Handle(w.server, r, budget).server)
    case Restart(to) => w.(clock := to)
  }

  function Run(w: World, steps: seq<Step>): World {
    if steps == [] then w else Next(Run(w, steps[..|steps| - 1]), steps[|steps| - 1])
  }

  ghost predicate PermittedRun(w: World, steps: seq<Step>) {
    forall i :: 0 <= i < |steps| ==> Permitted(Run(w, steps[..i]), steps[i])
  }

  // The upserts a run performs, in order.
  function Upserts(pairs: map<PairId, Pair>, steps: seq<Step>): seq<Upsert> {
    if steps == [] then []
    else
      var before := Upserts(pairs, steps[..|steps| - 1]);
      match steps[|steps| - 1]
      case Handled(r, _) =>
        if r.ev.pair in pairs then before + [Upsert(KeyOf(r.ev), RowOf(r.ev, r.now))] else before
      case _ => before
  }

  // No stored time ever passes the clock, over every run and every restart.
  lemma {:induction false} ClockNeverOvertaken(w: World, steps: seq<Step>)
    requires ClockBounds(w.server.rows, w.clock)
    requires PermittedRun(w, steps)
    ensures ClockBounds(Run(w, steps).server.rows, Run(w, steps).clock)
  {
    if steps != [] {
      var n := |steps| - 1;
      var pre := steps[..n];
      forall i | 0 <= i < |pre| ensures Permitted(Run(w, pre[..i]), pre[i]) {
        assert pre[..i] == steps[..i];
      }
      ClockNeverOvertaken(w, pre);
      assert Permitted(Run(w, pre), steps[n]);
    }
  }

  // Hence the event being handled wins every conflict: the branch that lets the other side
  // win is never taken.
  lemma EventWinsConflict(w: World, steps: seq<Step>, r: Report)
    requires ClockBounds(w.server.rows, w.clock)
    requires PermittedRun(w, steps + [Handled(r, 0)])
    requires r.ev.pair in Run(w, steps).server.pairs
    ensures var s := Run(w, steps).server;
            var pair := s.pairs[r.ev.pair];
            var row := RowOf(r.ev, r.now);
            var other := Lookup(Upserted(s.rows, Upsert(KeyOf(r.ev), row)), OtherKey(r.ev));
            && (other.Some? ==> row.serverModTime >= other.value.serverModTime)
            && (pair.enabled && pair.direction.Bidirectional?
                && DecideLWW(row, other, CONFLICT_WINDOW_NS).Conflict? ==>
                  Plan(pair, r, row, other)
                  == ConflictSends(pair, r.ev.side, row, r.ev.path, OtherSide(r.ev.side),
                                   ClientOf(pair, OtherSide(r.ev.side)), r.conflictNow))
  {
    var all := steps + [Handled(r, 0)];
    forall i | 0 <= i < |steps| ensures Permitted(Run(w, steps[..i]), steps[i]) {
      assert all[..i] == steps[..i] && all[i] == steps[i];
    }
    assert all[..|steps|] == steps;
    assert Permitted(Run(w, all[..|steps|]), all[|steps|]);
    ClockNeverOvertaken(w, steps);
  }

  // A run builds the table by replaying its upserts, restarts or not.
  lemma {:induction false} RunReplays(pairs: map<PairId, Pair>, clock: int, steps: seq<Step>)
    ensures var end := Run(World(Server(pairs, map[]), clock), steps);
            end.server == Server(pairs, Replay(map[], Upserts(pairs, steps)))
  {
    if steps != [] {
      var n := |steps| - 1;
      RunReplays(pairs, clock, steps[..n]);
      if steps[n].Handled? && steps[n].r.ev.pair in pairs {
        var u := Upsert(KeyOf(steps[n].r.ev), RowOf(steps[n].r.ev, steps[n].r.now));
        var before := Upserts(pairs, steps[..n]);
        assert (before + [u])[..|before|] == before;
      }
    }
  }

  // Whatever the order in which events arrive, the stored row is the newest, and among
  // equally new ones the first.
  lemma RowIsNewestReport(pairs: map<PairId, Pair>, clock: int, steps: seq<Step>, k: Key)
    ensures var rows := Run(World(Server(pairs, map[]), clock), steps).server.rows;
            var us := Upserts(pairs, steps);
            && (k in rows <==> exists i :: 0 <= i < |us| && us[i].key == k)
            && (k in rows ==> exists i :: Newest(us, i) && us[i].key == k && rows[k] == us[i].row)
  {
    RunReplays(pairs, clock, steps);
    NewestWins(Upserts(pairs, steps), k);
  }

  // The row becomes the event just handled unless a row at least as new is already there:
  // with a clock that merely does not go back, two events in one reading lose the second.
  lemma RowIsEventIff(s: Server, r: Report, budget: nat)
    requires r.ev.pair in s.pairs
    ensures Handle(s, r, budget).server.rows[KeyOf(r.ev)] == RowOf(r.ev, r.now)
            <==> (KeyOf(r.ev) in s.rows ==> s.rows[KeyOf(r.ev)].serverModTime < r.now
                                            || s.rows[KeyOf(r.ev)] == RowOf(r.ev, r.now))
  {
  }
}
