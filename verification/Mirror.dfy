/** What a destination holds of a source's reports
    (internal/server/syncengine/engine.go:42-87, mirror.go). */
module Mirror {
  import opened Prelude
  import opened Protocol
  import opened FileStateTable
  import opened Lww
  import opened Engine
  import opened SyncSystem

  // What a report says the file holds.
  function Content(ev: Event): Option<Sha> {
    if ev.op == Delete then None else Some(ev.sha)
  }

  // The engine passes a report from this side straight on: the pair is one-way from it, or
  // the other side of a two-way pair has never recorded the path.
  predicate PassesOn(s: Server, ev: Event, src: Side) {
    && ev.pair in s.pairs && ev.side == src
    && var pair := s.pairs[ev.pair];
       && pair.enabled
       && match pair.direction
          case AToB => src == A
          case BToA => src == B
          case Bidirectional => OtherKey(ev) !in s.rows
          case _ => false
  }

  function Destination(s: Server, p: PairId, src: Side): ClientId
    requires p in s.pairs
  {
    ClientOf(s.pairs[p], Lww.OtherSide(src))
  }

  lemma PassedOn(s: Server, r: Report, src: Side, budget: nat)
    requires PassesOn(s, r.ev, src) && budget >= 1 && src in {A, B} && ValidPairs(s.pairs)
    ensures var out := Handle(s, r, budget);
            var pair := s.pairs[r.ev.pair];
            out.sent == [SyncSend(r.src, pair, Target(Destination(s, r.ev.pair, src), Lww.OtherSide(src)), r.ev)]
  {
  }

  function TouchedPaths(q: seq<Command>, p: PairId): set<Path> {
    set i, slot | 0 <= i < |q| && slot in Touches(q[i]) && slot.pair == p :: slot.path
  }

  // How one step changes what is settled at the destination: a map from each path whose last
  // report reached the destination's queue, undisturbed since, to what was reported.
  function Settle(s: Sys, settled: map<Path, Option<Sha>>, step: Step, p: PairId, src: Side): map<Path, Option<Sha>>
    requires p in s.server.pairs
  {
    var dst := Destination(s.server, p, src);
    match step
    case Handled(r, budget) =>
      if r.ev.pair != p then settled
      else if PassesOn(s.server, r.ev, src) && budget >= 1 then settled[r.ev.path := Content(r.ev)]
      else settled - (if r.ev.side == src then {r.ev.path} else {})
                   - TouchedPaths(CommandsFor(Handle(s.server, r, budget).sent, dst), p)
    case Execute(c, ok) =>
      var q := Queue(s, c);
      if c != dst || ok || q == [] then settled
      // A failure matters unless a later queued command overrides it.
      else settled - (TouchedPaths(q[..1], p) - TouchedPaths(q[1..], p))
    case Edit(c, slot, _) =>
      if c == dst && slot.pair == p then settled - {slot.path} else settled
    case Disconnect(c) =>
      if c == dst then settled - TouchedPaths(Queue(s, c), p) else settled
  }

  function Settled(s: Sys, steps: seq<Step>, p: PairId, src: Side): map<Path, Option<Sha>>
    requires p in s.server.pairs
  {
    if steps == [] then map[]
    else
      var pre := steps[..|steps| - 1];
      RunKeepsPairs(s, pre);
      Settle(Run(s, pre), Settled(s, pre, p, src), steps[|steps| - 1], p, src)
  }

  lemma {:induction false} RunKeepsPairs(s: Sys, steps: seq<Step>)
    ensures Run(s, steps).server.pairs == s.server.pairs
  {
    if steps != [] {
      var pre := steps[..|steps| - 1];
      RunKeepsPairs(s, pre);
      match steps[|steps| - 1]
      case Handled(r, budget) =>
        AfterHandled(Run(s, pre), r, budget, "");
      case _ =>
    }
  }

  // The last command that touches the slot, or else the tree, fixes its content.
  predicate Fixes(tree: Tree, q: seq<Command>, slot: Slot, content: Option<Sha>) {
    if q == [] then At(tree, slot) == content
    else
      var last := q[|q| - 1];
      if slot in Touches(last) then
        slot == Slot(last.pair, last.path)
        && ((last.op == Fetch && content == Some(last.sha)) || (last.op == Remove && content == None))
      else Fixes(tree, q[..|q| - 1], slot, content)
  }

  lemma {:induction false} FixedContent(tree: Tree, q: seq<Command>, slot: Slot, content: Option<Sha>)
    requires Fixes(tree, q, slot, content)
    ensures At(ExecAll(tree, q), slot) == content
  {
    if q != [] {
      var last := q[|q| - 1];
      if slot !in Touches(last) {
        FixedContent(tree, q[..|q| - 1], slot, content);
        ExecLocal(ExecAll(tree, q[..|q| - 1]), last, true, slot);
      }
    }
  }

  lemma {:induction false} FixesUntouched(tree: Tree, q: seq<Command>, more: seq<Command>, slot: Slot, content: Option<Sha>)
    requires Fixes(tree, q, slot, content)
    requires forall i :: 0 <= i < |more| ==> slot !in Touches(more[i])
    ensures Fixes(tree, q + more, slot, content)
  {
    if more == [] {
      assert q + more == q;
    } else {
      var n := |more| - 1;
      FixesUntouched(tree, q, more[..n], slot, content);
      assert (q + more)[..|q + more| - 1] == q + more[..n];
    }
  }

  lemma {:induction false} FixesWithoutQueue(tree: Tree, q: seq<Command>, slot: Slot, content: Option<Sha>)
    requires Fixes(tree, q, slot, content)
    requires forall i :: 0 <= i < |q| ==> slot !in Touches(q[i])
    ensures At(tree, slot) == content
  {
    if q != [] {
      FixesWithoutQueue(tree, q[..|q| - 1], slot, content);
    }
  }

  // Taking the head off the queue, with or without success.
  lemma {:induction false} FixesTail(tree: Tree, q: seq<Command>, ok: bool, slot: Slot, content: Option<Sha>)
    requires q != [] && Fixes(tree, q, slot, content)
    requires ok || slot !in Touches(q[0]) || exists i :: 0 < i < |q| && slot in Touches(q[i])
    ensures Fixes(Exec(tree, q[0], ok), q[1..], slot, content)
  {
    var n := |q| - 1;
    if n == 0 {
      if slot !in Touches(q[0]) {
        assert q[..0] == [];
        ExecLocal(tree, q[0], ok, slot);
      }
    } else {
      assert q[1..][n - 1] == q[n];
      if slot !in Touches(q[n]) {
        FixesTail(tree, q[..n], ok, slot, content);
        assert q[1..][..n - 1] == q[..n][1..];
      }
    }
  }

  ghost predicate AllFixed(s: Sys, settled: map<Path, Option<Sha>>, p: PairId, dst: ClientId) {
    forall path :: path in settled ==>
      Fixes(TreeOf(s, dst), Queue(s, dst), Slot(p, path), settled[path])
  }

  lemma Untouched(q: seq<Command>, p: PairId, path: Path, i: nat)
    requires i < |q| && path !in TouchedPaths(q, p)
    ensures Slot(p, path) !in Touches(q[i])
  {
    assert Slot(p, path) in Touches(q[i]) ==> path in TouchedPaths(q, p);
  }

  // The queue of the destination grows by one command that fixes the reported path.
  lemma PassedOnQueue(s: Sys, r: Report, budget: nat, src: Side)
    requires ValidPairs(s.server.pairs) && src in {A, B}
    requires PassesOn(s.server, r.ev, src) && budget >= 1
    ensures var dst := Destination(s.server, r.ev.pair, src);
            var t := Next(s, Handled(r, budget));
            var cmd := FileSync(r.ev.pair, Lww.OtherSide(src), r.ev.path, r.ev.sha,
                                if r.ev.op == Delete then Remove else Fetch, "", r.src);
            t.trees == s.trees && Queue(t, dst) == Queue(s, dst) + [cmd]
  {
    var dst := Destination(s.server, r.ev.pair, src);
    var sent := Handle(s.server, r, budget).sent;
    AfterHandled(s, r, budget, dst);
    PassedOn(s.server, r, src, budget);
    assert sent[..0] == [] && CommandsFor(sent, dst) == [sent[0].cmd];
  }

  lemma OneMoreKeepsFixed(tree: Tree, q: seq<Command>, cmd: Command, slot: Slot, content: Option<Sha>)
    requires cmd.op == Fetch || cmd.op == Remove
    requires if slot == Slot(cmd.pair, cmd.path) then content == (if cmd.op == Fetch then Some(cmd.sha) else None)
             else Fixes(tree, q, slot, content)
    ensures Fixes(tree, q + [cmd], slot, content)
  {
    assert (q + [cmd])[..|q|] == q;
  }

  lemma QueueGrows(s: Sys, t: Sys, dst: ClientId, settled: map<Path, Option<Sha>>, p: PairId, cmd: Command)
    requires t.trees == s.trees && Queue(t, dst) == Queue(s, dst) + [cmd]
    requires cmd.pair == p && (cmd.op == Fetch || cmd.op == Remove)
    requires AllFixed(s, settled, p, dst)
    ensures AllFixed(t, settled[cmd.path := if cmd.op == Fetch then Some(cmd.sha) else None], p, dst)
  {
    var settled' := settled[cmd.path := if cmd.op == Fetch then Some(cmd.sha) else None];
    forall path | path in settled'
      ensures Fixes(TreeOf(t, dst), Queue(t, dst), Slot(p, path), settled'[path])
    {
      OneMoreKeepsFixed(TreeOf(s, dst), Queue(s, dst), cmd, Slot(p, path), settled'[path]);
    }
  }

  lemma PassedOnKeepsFixed(s: Sys, settled: map<Path, Option<Sha>>, r: Report, budget: nat, src: Side)
    requires ValidPairs(s.server.pairs) && src in {A, B}
    requires PassesOn(s.server, r.ev, src) && budget >= 1
    requires AllFixed(s, settled, r.ev.pair, Destination(s.server, r.ev.pair, src))
    ensures AllFixed(Next(s, Handled(r, budget)), settled[r.ev.path := Content(r.ev)], r.ev.pair,
                     Destination(s.server, r.ev.pair, src))
  {
    PassedOnQueue(s, r, budget, src);
    var cmd := FileSync(r.ev.pair, Lww.OtherSide(src), r.ev.path, r.ev.sha,
                        if r.ev.op == Delete then Remove else Fetch, "", r.src);
    QueueGrows(s, Next(s, Handled(r, budget)), Destination(s.server, r.ev.pair, src), settled, r.ev.pair, cmd);
  }

  lemma HandledKeepsFixed(s: Sys, settled: map<Path, Option<Sha>>, r: Report, budget: nat, p: PairId, src: Side)
    requires p in s.server.pairs && ValidPairs(s.server.pairs) && src in {A, B}
    requires AllFixed(s, settled, p, Destination(s.server, p, src))
    ensures AllFixed(Next(s, Handled(r, budget)), Settle(s, settled, Handled(r, budget), p, src), p,
                     Destination(s.server, p, src))
  {
    var dst := Destination(s.server, p, src);
    var settled' := Settle(s, settled, Handled(r, budget), p, src);
    if r.ev.pair == p && PassesOn(s.server, r.ev, src) && budget >= 1 {
      PassedOnKeepsFixed(s, settled, r, budget, src);
    } else {
      var more := CommandsFor(Handle(s.server, r, budget).sent, dst);
      AfterHandled(s, r, budget, dst);
      CommandsOfPair(s.server, r, budget, dst);
      forall path | path in settled'
        ensures Fixes(TreeOf(s, dst), Queue(s, dst) + more, Slot(p, path), settled[path])
      {
        forall i | 0 <= i < |more| ensures Slot(p, path) !in Touches(more[i]) {
          if r.ev.pair == p {
            Untouched(more, p, path, i);
          }
        }
        FixesUntouched(TreeOf(s, dst), Queue(s, dst), more, Slot(p, path), settled[path]);
      }
    }
  }

  // Whatever a report makes the engine send concerns the report's pair.
  lemma CommandsOfPair(s: Server, r: Report, budget: nat, c: ClientId)
    requires ValidPairs(s.pairs)
    ensures forall x :: x in CommandsFor(Handle(s, r, budget).sent, c) ==> x.pair == r.ev.pair
  {
    var sent := Handle(s, r, budget).sent;
    if r.ev.pair in s.pairs {
      var row := RowOf(r.ev, r.now);
      var other := Lookup(Upserted(s.rows, Upsert(KeyOf(r.ev), row)), OtherKey(r.ev));
      PlanStaysInPair(s.pairs[r.ev.pair], r, row, other);
      assert forall x :: x in sent ==> x in Plan(s.pairs[r.ev.pair], r, row, other);
    }
    PairOfCommands(sent, c, r.ev.pair);
  }

  lemma {:induction false} PairOfCommands(sent: seq<Send>, c: ClientId, p: PairId)
    requires forall x :: x in sent ==> x.cmd.pair == p
    ensures forall x :: x in CommandsFor(sent, c) ==> x.pair == p
  {
    if sent != [] {
      PairOfCommands(sent[..|sent| - 1], c, p);
    }
  }

  lemma ExecuteKeepsFixed(s: Sys, settled: map<Path, Option<Sha>>, c: ClientId, ok: bool, p: PairId, src: Side)
    requires p in s.server.pairs
    requires AllFixed(s, settled, p, Destination(s.server, p, src))
    ensures AllFixed(Next(s, Execute(c, ok)), Settle(s, settled, Execute(c, ok), p, src), p,
                     Destination(s.server, p, src))
  {
    var dst := Destination(s.server, p, src);
    var q := Queue(s, dst);
    var settled' := Settle(s, settled, Execute(c, ok), p, src);
    if c == dst && q != [] {
      forall path | path in settled'
        ensures Fixes(Exec(TreeOf(s, dst), q[0], ok), q[1..], Slot(p, path), settled'[path])
      {
        if !ok && Slot(p, path) in Touches(q[0]) {
          assert q[..1][0] == q[0];
          assert path in TouchedPaths(q[..1], p);
          assert path in TouchedPaths(q[1..], p);
          var i :| 0 <= i < |q[1..]| && Slot(p, path) in Touches(q[1..][i]);
          assert q[i + 1] == q[1..][i];
        }
        FixesTail(TreeOf(s, dst), q, ok, Slot(p, path), settled[path]);
      }
    }
  }

  lemma EditKeepsFixed(s: Sys, settled: map<Path, Option<Sha>>, c: ClientId, slot: Slot, content: Option<Sha>, p: PairId, src: Side)
    requires p in s.server.pairs
    requires AllFixed(s, settled, p, Destination(s.server, p, src))
    ensures AllFixed(Next(s, Edit(c, slot, content)), Settle(s, settled, Edit(c, slot, content), p, src), p,
                     Destination(s.server, p, src))
  {
    var dst := Destination(s.server, p, src);
    var t := Next(s, Edit(c, slot, content));
    if c == dst {
      forall path | path in settled && Slot(p, path) != slot
        ensures Fixes(TreeOf(t, dst), Queue(t, dst), Slot(p, path), settled[path])
      {
        FixesOtherTree(TreeOf(s, dst), TreeOf(t, dst), Queue(s, dst), Slot(p, path), settled[path]);
      }
    }
  }

  lemma {:induction false} FixesOtherTree(tree: Tree, tree': Tree, q: seq<Command>, slot: Slot, content: Option<Sha>)
    requires Fixes(tree, q, slot, content)
    requires At(tree, slot) == At(tree', slot)
    ensures Fixes(tree', q, slot, content)
  {
    if q != [] && slot !in Touches(q[|q| - 1]) {
      FixesOtherTree(tree, tree', q[..|q| - 1], slot, content);
    }
  }

  lemma DisconnectKeepsFixed(s: Sys, settled: map<Path, Option<Sha>>, c: ClientId, p: PairId, src: Side)
    requires p in s.server.pairs
    requires AllFixed(s, settled, p, Destination(s.server, p, src))
    ensures AllFixed(Next(s, Disconnect(c)), Settle(s, settled, Disconnect(c), p, src), p,
                     Destination(s.server, p, src))
  {
    var dst := Destination(s.server, p, src);
    var q := Queue(s, dst);
    if c == dst {
      forall path | path in settled && path !in TouchedPaths(q, p)
        ensures Fixes(TreeOf(s, dst), [], Slot(p, path), settled[path])
      {
        forall i | 0 <= i < |q| ensures Slot(p, path) !in Touches(q[i]) {
          Untouched(q, p, path, i);
        }
        FixesWithoutQueue(TreeOf(s, dst), q, Slot(p, path), settled[path]);
      }
    }
  }

  lemma {:induction false} SettledIsFixed(s: Sys, steps: seq<Step>, p: PairId, src: Side)
    requires p in s.server.pairs && ValidPairs(s.server.pairs) && src in {A, B}
    ensures AllFixed(Run(s, steps), Settled(s, steps, p, src), p, Destination(s.server, p, src))
  {
    if steps != [] {
      var pre := steps[..|steps| - 1];
      RunKeepsPairs(s, pre);
      SettledIsFixed(s, pre, p, src);
      var m := Run(s, pre);
      var settled := Settled(s, pre, p, src);
      match steps[|steps| - 1]
      case Handled(r, budget) => HandledKeepsFixed(m, settled, r, budget, p, src);
      case Execute(c, ok) => ExecuteKeepsFixed(m, settled, c, ok, p, src);
      case Edit(c, slot, content) => EditKeepsFixed(m, settled, c, slot, content, p, src);
      case Disconnect(c) => DisconnectKeepsFixed(m, settled, c, p, src);
    }
  }

  // In every run, from any state and among any traffic of other pairs: the destination's
  // tree with its queue applied holds, for every settled path, the source's last report; and
  // the tree alone does once the queue is empty.
  lemma {:induction false} DestinationFollowsSource(s: Sys, steps: seq<Step>, p: PairId, src: Side, path: Path)
    requires p in s.server.pairs && ValidPairs(s.server.pairs) && src in {A, B}
    requires path in Settled(s, steps, p, src)
    ensures var end := Run(s, steps);
            var dst := Destination(s.server, p, src);
            var reported := Settled(s, steps, p, src)[path];
            && At(View(end, dst), Slot(p, path)) == reported
            && (Queue(end, dst) == [] ==> At(TreeOf(end, dst), Slot(p, path)) == reported)
  {
    SettledIsFixed(s, steps, p, src);
    var end := Run(s, steps);
    var dst := Destination(s.server, p, src);
    FixedContent(TreeOf(end, dst), Queue(end, dst), Slot(p, path), Settled(s, steps, p, src)[path]);
  }

  // The source's last report on each path it ever reported.
  function LastReports(steps: seq<Step>, p: PairId, src: Side): map<Path, Option<Sha>> {
    if steps == [] then map[]
    else
      var before := LastReports(steps[..|steps| - 1], p, src);
      match steps[|steps| - 1]
      case Handled(r, _) =>
        if r.ev.pair == p && r.ev.side == src then before[r.ev.path := Content(r.ev)] else before
      case _ => before
  }

  // Nothing goes wrong on the way and nobody edits the destination.
  predicate Smooth(step: Step, p: PairId, src: Side, dst: ClientId) {
    match step
    case Handled(r, budget) => r.ev.pair == p && r.ev.side == src ==> budget >= 1
    case Execute(c, ok) => c == dst ==> ok
    case Edit(c, slot, _) => !(c == dst && slot.pair == p)
    case Disconnect(c) => c != dst
  }

  predicate OneWayFrom(pair: Pair, src: Side) {
    pair.enabled && ((pair.direction == AToB && src == A) || (pair.direction == BToA && src == B))
  }

  lemma {:induction false} SmoothRunSettlesAll(s: Sys, steps: seq<Step>, p: PairId, src: Side)
    requires p in s.server.pairs && ValidPairs(s.server.pairs) && OneWayFrom(s.server.pairs[p], src)
    requires forall i :: 0 <= i < |steps| ==> Smooth(steps[i], p, src, Destination(s.server, p, src))
    ensures Settled(s, steps, p, src) == LastReports(steps, p, src)
  {
    if steps != [] {
      var n := |steps| - 1;
      var pre := steps[..n];
      RunKeepsPairs(s, pre);
      SmoothRunSettlesAll(s, pre, p, src);
      var m := Run(s, pre);
      assert Smooth(steps[n], p, src, Destination(s.server, p, src));
      match steps[n]
      case Handled(r, budget) =>
        if r.ev.pair == p && r.ev.side != src {
          // A report from the destination of a one-way pair is recorded and goes nowhere.
          assert Handle(m.server, r, budget).sent == [];
          assert TouchedPaths([], p) == {};
        }
      case _ =>
    }
  }

  // The strict mirror: on a one-way enabled pair, with no failure and no local edit at the
  // destination, the queued commands always bring the destination to the source's last report
  // on every path ever reported, and it is there whenever its queue is empty.
  lemma {:induction false} MirrorRefinement(s: Sys, steps: seq<Step>, p: PairId, src: Side, path: Path)
    requires p in s.server.pairs && ValidPairs(s.server.pairs) && OneWayFrom(s.server.pairs[p], src)
    requires forall i :: 0 <= i < |steps| ==> Smooth(steps[i], p, src, Destination(s.server, p, src))
    requires path in LastReports(steps, p, src)
    ensures var end := Run(s, steps);
            var dst := Destination(s.server, p, src);
            var reported := LastReports(steps, p, src)[path];
            && At(View(end, dst), Slot(p, path)) == reported
            && (Queue(end, dst) == [] ==> At(TreeOf(end, dst), Slot(p, path)) == reported)
  {
    SmoothRunSettlesAll(s, steps, p, src);
    DestinationFollowsSource(s, steps, p, src, path);
  }

  // Neither a report of this path from the source nor an edit of it at the destination.
  predicate LeavesAlone(step: Step, p: PairId, src: Side, dst: ClientId, path: Path) {
    match step
    case Handled(r, _) => !(r.ev.pair == p && r.ev.side == src && r.ev.path == path)
    case Edit(c, slot, _) => !(c == dst && slot == Slot(p, path))
    case _ => true
  }

  ghost predicate NoneTouches(q: seq<Command>, slot: Slot) {
    forall x :: x in q ==> slot !in Touches(x)
  }

  lemma {:induction false} CommandsComeFromSends(sent: seq<Send>, c: ClientId)
    ensures forall x :: x in CommandsFor(sent, c) ==> exists y :: y in sent && y.cmd == x
  {
    if sent != [] {
      CommandsComeFromSends(sent[..|sent| - 1], c);
    }
  }

  lemma OtherReportsKeepOff(s: Server, r: Report, budget: nat, p: PairId, src: Side, path: Path, c: ClientId)
    requires p in s.pairs && ValidPairs(s.pairs) && OneWayFrom(s.pairs[p], src)
    requires !(r.ev.pair == p && r.ev.side == src && r.ev.path == path)
    ensures NoneTouches(CommandsFor(Handle(s, r, budget).sent, c), Slot(p, path))
  {
    CommandsOfPair(s, r, budget, c);
    if r.ev.pair == p {
      var sent := Handle(s, r, budget).sent;
      assert forall y :: y in sent ==> y in MirrorSends(s.pairs[p], r);
      CommandsComeFromSends(sent, c);
    }
  }

  // What the destination of a one-way pair holds of a path changes only through the source's
  // reports: a local edit there stays, over every run, until the source reports the path again.
  lemma {:induction false} DestinationEditStays(s: Sys, steps: seq<Step>, p: PairId, src: Side, path: Path)
    requires p in s.server.pairs && ValidPairs(s.server.pairs) && OneWayFrom(s.server.pairs[p], src)
    requires NoneTouches(Queue(s, Destination(s.server, p, src)), Slot(p, path))
    requires forall i :: 0 <= i < |steps| ==> LeavesAlone(steps[i], p, src, Destination(s.server, p, src), path)
    ensures var end, dst := Run(s, steps), Destination(s.server, p, src);
            && NoneTouches(Queue(end, dst), Slot(p, path))
            && At(TreeOf(end, dst), Slot(p, path)) == At(TreeOf(s, dst), Slot(p, path))
  {
    if steps != [] {
      var n := |steps| - 1;
      var dst := Destination(s.server, p, src);
      RunKeepsPairs(s, steps[..n]);
      DestinationEditStays(s, steps[..n], p, src, path);
      var m := Run(s, steps[..n]);
      match steps[n]
      case Handled(r, budget) =>
        AfterHandled(m, r, budget, dst);
        OtherReportsKeepOff(m.server, r, budget, p, src, path, dst);
      case Execute(c, ok) =>
        if c == dst && Queue(m, c) != [] {
          ExecLocal(TreeOf(m, c), Queue(m, c)[0], ok, Slot(p, path));
        }
      case _ =>
    }
  }
}
