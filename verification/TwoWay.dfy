/** Two-way pairs: conflicts lose nothing, and exactly when a report makes the sides agree
    (internal/server/syncengine/engine.go:151-250, conflict.go:30-103). */
module TwoWay {
  import opened Prelude
  import opened Protocol
  import opened FileStateTable
  import opened Lww
  import opened ConflictName
  import opened Engine
  import opened SyncSystem
  import Mirror

  // A report on an enabled two-way pair between two clients, sent by the client that hosts
  // its side.
  predicate TwoWayReport(s: Server, r: Report) {
    && ValidPairs(s.pairs) && r.ev.pair in s.pairs
    && var pair := s.pairs[r.ev.pair];
       && pair.enabled && pair.direction == Bidirectional && pair.clientA != pair.clientB
       && r.ev.side in {A, B} && r.src == ClientOf(pair, r.ev.side)
  }

  function Peer(s: Server, r: Report): ClientId
    requires TwoWayReport(s, r)
  {
    ClientOf(s.pairs[r.ev.pair], OtherSide(r.ev.side))
  }

  function SlotOf(ev: Event): Slot { Slot(ev.pair, ev.path) }

  function Parked(s: Server, r: Report): Slot
    requires TwoWayReport(s, r)
  {
    Slot(r.ev.pair, ConflictFilename(r.ev.path, Peer(s, r), r.conflictNow))
  }

  // Both sides hold reported writes with different content, made inside the window, and the
  // report is the newer one (ServerRun.EventWinsConflict).
  predicate InConflict(s: Server, r: Report) {
    && TwoWayReport(s, r)
    && OtherKey(r.ev) in s.rows
    && var other := s.rows[OtherKey(r.ev)];
       && WellFormed(r.ev) && r.ev.op == Write && other.op == Write && other.sha != Some(r.ev.sha)
       && other.serverModTime <= r.now < other.serverModTime + CONFLICT_WINDOW_NS
  }

  lemma DrainStep(s: Sys, c: ClientId, d: ClientId)
    ensures View(Next(s, Execute(c, true)), d) == View(s, d)
  {
    ExecuteKeepsView(s, c);
  }

  ghost predicate Drain(steps: seq<Step>) {
    forall i :: 0 <= i < |steps| ==> steps[i].Execute? && steps[i].ok
  }

  // Clients run what is queued for them, in any interleaving.
  lemma {:induction false} DrainKeepsViews(s: Sys, steps: seq<Step>, c: ClientId)
    requires Drain(steps)
    ensures View(Run(s, steps), c) == View(s, c)
  {
    if steps != [] {
      var n := |steps| - 1;
      DrainKeepsViews(s, steps[..n], c);
      DrainStep(Run(s, steps[..n]), steps[n].c, c);
    }
  }

  lemma ViewAfterReport(s: Sys, r: Report, budget: nat, c: ClientId)
    ensures View(Next(s, Handled(r, budget)), c)
            == ExecAll(View(s, c), CommandsFor(Handle(s.server, r, budget).sent, c))
  {
    AfterHandled(s, r, budget, c);
    ExecAllConcat(TreeOf(s, c), Queue(s, c), CommandsFor(Handle(s.server, r, budget).sent, c));
  }

  lemma SentInConflict(s: Server, r: Report, budget: nat)
    requires InConflict(s, r)
    ensures Handle(s, r, budget).sent
            == Delivered(ConflictSends(s.pairs[r.ev.pair], r.ev.side, RowOf(r.ev, r.now), r.ev.path,
                                       OtherSide(r.ev.side), Peer(s, r), r.conflictNow), budget)
  {
  }

  // What the loser is told: park your file, then fetch the winner's.
  function ParkCommands(s: Server, r: Report): seq<Command>
    requires TwoWayReport(s, r)
  {
    [FileSync(r.ev.pair, OtherSide(r.ev.side), r.ev.path, "", Rename, Parked(s, r).path, Peer(s, r)),
     FileSync(r.ev.pair, OtherSide(r.ev.side), r.ev.path, r.ev.sha, Fetch, "", Peer(s, r))]
  }

  lemma ConflictCommands(s: Server, r: Report, budget: nat)
    requires InConflict(s, r) && budget >= 3
    ensures CommandsFor(Handle(s, r, budget).sent, Peer(s, r)) == ParkCommands(s, r)
    ensures CommandsFor(Handle(s, r, budget).sent, r.src)
            == [FileSync(r.ev.pair, r.ev.side, r.ev.path, r.ev.sha, Fetch, "", r.src)]
  {
    SentInConflict(s, r, budget);
    var sent := Handle(s, r, budget).sent;
    assert sent == [sent[0], sent[1], sent[2]];
    CommandsOfThree(sent[0], sent[1], sent[2], Peer(s, r));
    CommandsOfThree(sent[0], sent[1], sent[2], r.src);
  }

  lemma CommandsOfThree(x: Send, y: Send, z: Send, c: ClientId)
    ensures CommandsFor([x, y, z], c)
            == (if x.to == c then [x.cmd] else []) + (if y.to == c then [y.cmd] else [])
               + (if z.to == c then [z.cmd] else [])
  {
    CommandsOfTwo(x, y, c);
    assert [x, y, z][..2] == [x, y];
  }

  lemma ExecAllOne(tree: Tree, x: Command)
    ensures ExecAll(tree, [x]) == Exec(tree, x, true)
  {
    assert [x][..0] == [];
  }

  // The tree of a loser once its file is parked and the winner's content fetched.
  function Displaced(view: Tree, slot: Slot, parked: Slot, sha: Sha): Tree {
    Apply(Apply(view, slot, parked, Rename, "", true), slot, parked, Fetch, sha, true)
  }

  lemma ViewsAfterConflict(s: Sys, r: Report, budget: nat)
    requires InConflict(s.server, r) && budget >= 3
    ensures var t := Next(s, Handled(r, budget));
            var loser := Peer(s.server, r);
            && View(t, r.src) == View(s, r.src)[SlotOf(r.ev) := r.ev.sha]
            && View(t, loser) == Displaced(View(s, loser), SlotOf(r.ev), Parked(s.server, r), r.ev.sha)
  {
    var loser := Peer(s.server, r);
    ViewAfterReport(s, r, budget, r.src);
    ViewAfterReport(s, r, budget, loser);
    ConflictCommands(s.server, r, budget);
    var sent := Handle(s.server, r, budget).sent;
    var wq, lq := CommandsFor(sent, r.src), CommandsFor(sent, loser);
    ExecAllOne(View(s, r.src), wq[0]);
    ExecPair(View(s, loser), lq[0], lq[1]);
  }

  // A client that runs the two the other way round ends with the winner's content under the
  // conflict name and nothing at the path: its own content is gone, whatever it held before.
  lemma SwappedParkCommandsLose(s: Server, r: Report, view: Tree)
    requires InConflict(s, r)
    ensures var cmds := ParkCommands(s, r);
            && Clash(cmds[0], cmds[1])
            && ExecAll(view, [cmds[1], cmds[0]]) == (view - {SlotOf(r.ev)})[Parked(s, r) := r.ev.sha]
            && ExecAll(view, cmds) != ExecAll(view, [cmds[1], cmds[0]])
  {
    var cmds, slot := ParkCommands(s, r), SlotOf(r.ev);
    assert |Parked(s, r).path| > |r.ev.path|;
    assert cmds == [cmds[0], cmds[1]];
    ExecPair(view, cmds[0], cmds[1]);
    ExecPair(view, cmds[1], cmds[0]);
    assert slot in ExecAll(view, cmds) && slot !in ExecAll(view, [cmds[1], cmds[0]]);
    assert view[slot := r.ev.sha] - {slot} == view - {slot};
  }

  // After a conflict, whatever was queued before and however the two clients interleave: both
  // sides hold the winner's content at the path, what the loser would have held there is parked
  // under the conflict name, and no other file of either side changes.
  lemma {:induction false} ConflictLosesNothing(s: Sys, r: Report, budget: nat, steps: seq<Step>)
    requires InConflict(s.server, r) && budget >= 3
    requires Drain(steps)
    requires var end := Run(Next(s, Handled(r, budget)), steps);
             Queue(end, r.src) == [] && Queue(end, Peer(s.server, r)) == []
    ensures var end := Run(Next(s, Handled(r, budget)), steps);
            var loser := Peer(s.server, r);
            var slot, parked := SlotOf(r.ev), Parked(s.server, r);
            && At(TreeOf(end, r.src), slot) == At(TreeOf(end, loser), slot) == Some(r.ev.sha)
            && (slot in View(s, loser) ==> At(TreeOf(end, loser), parked) == Some(View(s, loser)[slot]))
            && (forall q :: q != slot ==> At(TreeOf(end, r.src), q) == At(View(s, r.src), q))
            && (forall q :: q != slot && q != parked ==> At(TreeOf(end, loser), q) == At(View(s, loser), q))
  {
    var t := Next(s, Handled(r, budget));
    var loser := Peer(s.server, r);
    DrainKeepsViews(t, steps, r.src);
    DrainKeepsViews(t, steps, loser);
    ViewsAfterConflict(s, r, budget);
    var end := Run(t, steps);
    assert TreeOf(end, r.src) == View(t, r.src);
    assert TreeOf(end, loser) == View(t, loser);
  }

  // A queue executed with some commands failing.
  function ExecSome(tree: Tree, q: seq<Command>, oks: seq<bool>): Tree
    requires |oks| == |q|
  {
    if q == [] then tree
    else Exec(ExecSome(tree, q[..|q| - 1], oks[..|oks| - 1]), q[|q| - 1], oks[|oks| - 1])
  }

  // The successes and failures of one client's executions.
  function OksOf(steps: seq<Step>, c: ClientId): seq<bool> {
    if steps == [] then []
    else OksOf(steps[..|steps| - 1], c)
         + if steps[|steps| - 1].Execute? && steps[|steps| - 1].c == c then [steps[|steps| - 1].ok] else []
  }

  ghost predicate OnlyExecutes(steps: seq<Step>) {
    forall i :: 0 <= i < |steps| ==> steps[i].Execute?
  }

  lemma ExecSomeOneMore(tree: Tree, q: seq<Command>, oks: seq<bool>, x: Command, ok: bool)
    requires |oks| == |q|
    ensures ExecSome(tree, q + [x], oks + [ok]) == Exec(ExecSome(tree, q, oks), x, ok)
  {
    assert (q + [x])[..|q|] == q && (oks + [ok])[..|q|] == oks;
  }

  lemma OneMoreExecuted(m: Sys, c: ClientId, ok: bool, tree: Tree, q: seq<Command>, oks: seq<bool>)
    requires |oks| < |q| && Queue(m, c) == q[|oks|..] && TreeOf(m, c) == ExecSome(tree, q[..|oks|], oks)
    ensures var t := Next(m, Execute(c, ok));
            Queue(t, c) == q[|oks + [ok]|..] && TreeOf(t, c) == ExecSome(tree, q[..|oks + [ok]|], oks + [ok])
  {
    var n := |oks|;
    PopsOneMore(q, n);
    ExecuteStep(m, c, ok, c);
    ExecSomeOneMore(tree, q[..n], oks, q[n], ok);
  }

  // Clients run what is queued for them, in any interleaving and with any failures.
  lemma {:induction false} ExecutesRun(s: Sys, steps: seq<Step>, c: ClientId)
    requires OnlyExecutes(steps) && |OksOf(steps, c)| <= |Queue(s, c)|
    ensures Queue(Run(s, steps), c) == Queue(s, c)[|OksOf(steps, c)|..]
    ensures TreeOf(Run(s, steps), c) == ExecSome(TreeOf(s, c), Queue(s, c)[..|OksOf(steps, c)|], OksOf(steps, c))
  {
    if steps != [] {
      var pre, last := steps[..|steps| - 1], steps[|steps| - 1];
      ExecutesRun(s, pre, c);
      var m := Run(s, pre);
      if last.c == c {
        assert last == Execute(c, last.ok);
        OneMoreExecuted(m, c, last.ok, TreeOf(s, c), Queue(s, c), OksOf(pre, c));
      } else {
        ExecuteStep(m, last.c, last.ok, c);
        assert OksOf(steps, c) == OksOf(pre, c);
      }
    }
  }

  lemma PopsOneMore(q: seq<Command>, n: nat)
    requires n < |q|
    ensures q[..n + 1] == q[..n] + [q[n]] && q[n..][0] == q[n] && q[n..][1..] == q[n + 1..]
  {
  }

  lemma ExecuteStep(s: Sys, c: ClientId, ok: bool, d: ClientId)
    ensures var t := Next(s, Execute(c, ok));
            if c == d && Queue(s, c) != [] then
              Queue(t, d) == Queue(s, d)[1..] && TreeOf(t, d) == Exec(TreeOf(s, d), Queue(s, d)[0], ok)
            else Queue(t, d) == Queue(s, d) && TreeOf(t, d) == TreeOf(s, d)
  {
  }

  // When the loser's file survives a conflict whatever fails at the loser: its content, as its
  // queue left it, is in place or parked exactly when the rename works, or the fetch fails too, or
  // the two contents are the same.
  lemma LoserSurvivesIff(s: Server, r: Report, tree: Tree, renames: bool, fetches: bool)
    requires InConflict(s, r) && SlotOf(r.ev) in tree && Parked(s, r) !in tree
    ensures var slot, parked, content := SlotOf(r.ev), Parked(s, r), Some(tree[SlotOf(r.ev)]);
            var end := ExecSome(tree, ParkCommands(s, r), [renames, fetches]);
            At(end, slot) == content || At(end, parked) == content
            <==> renames || !fetches || content == Some(r.ev.sha)
  {
    var cmds, oks := ParkCommands(s, r), [renames, fetches];
    assert |Parked(s, r).path| > |r.ev.path|;
    ExecSomeOneMore(tree, [], [], cmds[0], renames);
    ExecSomeOneMore(tree, [] + [cmds[0]], [] + [renames], cmds[1], fetches);
    assert cmds == [] + [cmds[0]] + [cmds[1]] && oks == [] + [renames] + [fetches];
  }

  // The same over every run that carries the conflict out, with any failures of any client.
  lemma LoserKeepsIff(s: Sys, r: Report, budget: nat, steps: seq<Step>)
    requires InConflict(s.server, r) && budget >= 3 && OnlyExecutes(steps)
    requires |OksOf(steps, Peer(s.server, r))| == |Queue(s, Peer(s.server, r))| + 2
    requires var n := |Queue(s, Peer(s.server, r))|;
             var tree := ExecSome(TreeOf(s, Peer(s.server, r)), Queue(s, Peer(s.server, r)), OksOf(steps, Peer(s.server, r))[..n]);
             SlotOf(r.ev) in tree && Parked(s.server, r) !in tree
    ensures var loser, n := Peer(s.server, r), |Queue(s, Peer(s.server, r))|;
            var oks, end := OksOf(steps, loser), Run(Next(s, Handled(r, budget)), steps);
            var content := Some(ExecSome(TreeOf(s, loser), Queue(s, loser), oks[..n])[SlotOf(r.ev)]);
            && Queue(end, loser) == []
            && (At(TreeOf(end, loser), SlotOf(r.ev)) == content || At(TreeOf(end, loser), Parked(s.server, r)) == content
                <==> oks[n] || !oks[n + 1] || content == Some(r.ev.sha))
  {
    var loser, n := Peer(s.server, r), |Queue(s, Peer(s.server, r))|;
    var t, oks := Next(s, Handled(r, budget)), OksOf(steps, loser);
    AfterHandled(s, r, budget, loser);
    ConflictCommands(s.server, r, budget);
    assert Queue(t, loser) == Queue(s, loser) + ParkCommands(s.server, r);
    ExecutesRun(t, steps, loser);
    assert Queue(t, loser)[..n + 2] == Queue(t, loser);
    ExecSomeConcat(TreeOf(s, loser), Queue(s, loser), ParkCommands(s.server, r), oks);
    assert oks[n..] == [oks[n], oks[n + 1]];
    LoserSurvivesIff(s.server, r, ExecSome(TreeOf(s, loser), Queue(s, loser), oks[..n]), oks[n], oks[n + 1]);
  }

  lemma {:induction false} ExecSomeConcat(tree: Tree, p: seq<Command>, q: seq<Command>, oks: seq<bool>)
    requires |oks| == |p| + |q|
    ensures ExecSome(tree, p + q, oks) == ExecSome(ExecSome(tree, p, oks[..|p|]), q, oks[|p|..])
  {
    if q == [] {
      assert p + q == p && oks[..|p|] == oks;
    } else {
      var n := |oks| - 1;
      ExecSomeConcat(tree, p, q[..|q| - 1], oks[..n]);
      assert (p + q)[..|p + q| - 1] == p + q[..|q| - 1];
      assert oks[..n][..|p|] == oks[..|p|] && oks[..n][|p|..] == oks[|p|..][..|q| - 1];
    }
  }

  // A connection that fails in the middle leaves the winner's side as it was and the loser's
  // file where it was or parked, never dropped; the path itself is missing at the loser when
  // only the rename got through.
  lemma {:induction false} ConflictCutShort(s: Sys, r: Report, budget: nat)
    requires InConflict(s.server, r) && budget < 3
    ensures var t := Next(s, Handled(r, budget));
            var loser := Peer(s.server, r);
            var slot, parked := SlotOf(r.ev), Parked(s.server, r);
            && View(t, r.src) == View(s, r.src)
            && (slot in View(s, loser) ==>
                  At(View(t, loser), if budget == 0 then slot else parked) == Some(View(s, loser)[slot]))
            && (budget == 1 && slot in View(s, loser) ==> slot !in View(t, loser))
            && (budget == 2 ==> At(View(t, loser), slot) == Some(r.ev.sha))
  {
    ViewsCutShort(s, r, budget);
    assert |Parked(s.server, r).path| > |r.ev.path|;
  }

  lemma ViewsCutShort(s: Sys, r: Report, budget: nat)
    requires InConflict(s.server, r) && budget < 3
    ensures var t := Next(s, Handled(r, budget));
            var loser := Peer(s.server, r);
            var slot, parked := SlotOf(r.ev), Parked(s.server, r);
            && View(t, r.src) == View(s, r.src)
            && View(t, loser) == (if budget == 0 then View(s, loser)
                                  else if budget == 1 then Apply(View(s, loser), slot, parked, Rename, "", true)
                                  else Displaced(View(s, loser), slot, parked, r.ev.sha))
  {
    ViewAfterReport(s, r, budget, r.src);
    ViewAfterReport(s, r, budget, Peer(s.server, r));
    CommandsCutShort(s.server, r, budget);
    var view, cmds := View(s, Peer(s.server, r)), ParkCommands(s.server, r);
    if budget == 1 {
      assert cmds[..1] == [cmds[0]];
      ExecAllOne(view, cmds[0]);
    } else if budget == 2 {
      assert cmds[..2] == [cmds[0], cmds[1]];
      ExecPair(view, cmds[0], cmds[1]);
    }
  }

  lemma CommandsCutShort(s: Server, r: Report, budget: nat)
    requires InConflict(s, r) && budget < 3
    ensures CommandsFor(Handle(s, r, budget).sent, r.src) == []
    ensures CommandsFor(Handle(s, r, budget).sent, Peer(s, r)) == ParkCommands(s, r)[..budget]
  {
    SentInConflict(s, r, budget);
    var plan := ConflictSends(s.pairs[r.ev.pair], r.ev.side, RowOf(r.ev, r.now), r.ev.path,
                              OtherSide(r.ev.side), Peer(s, r), r.conflictNow);
    assert plan == [plan[0], plan[1], plan[2]];
    assert [plan[0].cmd, plan[1].cmd] == ParkCommands(s, r);
    PrefixCommands(plan[0], plan[1], plan[2], Peer(s, r), r.src, budget);
  }

  lemma PrefixCommands(x: Send, y: Send, z: Send, loser: ClientId, winner: ClientId, n: nat)
    requires x.to == y.to == loser != winner && n < 3
    ensures CommandsFor([x, y, z][..n], loser) == [x.cmd, y.cmd][..n]
    ensures CommandsFor([x, y, z][..n], winner) == []
  {
    if n == 0 {
      assert [x, y, z][..0] == [];
    } else if n == 1 {
      assert [x, y, z][..1] == [x] && [x.cmd, y.cmd][..1] == [x.cmd];
      CommandsOfOne(x, loser);
      CommandsOfOne(x, winner);
    } else {
      assert [x, y, z][..2] == [x, y] && [x.cmd, y.cmd][..2] == [x.cmd, y.cmd];
      CommandsOfTwo(x, y, loser);
      CommandsOfTwo(x, y, winner);
    }
  }

  lemma CommandsOfTwo(x: Send, y: Send, c: ClientId)
    ensures CommandsFor([x, y], c) == (if x.to == c then [x.cmd] else []) + (if y.to == c then [y.cmd] else [])
  {
    CommandsOfOne(x, c);
    assert [x, y][..1] == [x];
  }

  predicate WellFormedRow(row: Row) {
    (row.op == Write && row.sha.Some? && row.sha.value != "") || (row.op == Delete && row.sha.None?)
  }

  // The other side's row cannot stop the report from being sent across.
  predicate Overrides(ev: Event, other: Option<Row>) {
    other.None? || (ev.op == Write && other.value.sha != Some(ev.sha))
  }

  lemma ViewsWithoutConflict(s: Sys, r: Report, budget: nat)
    requires TwoWayReport(s.server, r) && budget >= 1 && WellFormed(r.ev) && !InConflict(s.server, r)
    requires OtherKey(r.ev) in s.server.rows ==>
               WellFormedRow(s.server.rows[OtherKey(r.ev)])
               && s.server.rows[OtherKey(r.ev)].serverModTime <= r.now
    ensures var t := Next(s, Handled(r, budget));
            var slot, peer := SlotOf(r.ev), Peer(s.server, r);
            var other := Lookup(s.server.rows, OtherKey(r.ev));
            && At(View(t, peer), slot) == (if Overrides(r.ev, other) then Mirror.Content(r.ev) else At(View(s, peer), slot))
            && At(View(t, r.src), slot) == (if !Overrides(r.ev, other) && r.ev.op == Delete && other.value.op == Write
                                           then other.value.sha else At(View(s, r.src), slot))
  {
    QuietCommands(s.server, r, budget);
    var sent := Handle(s.server, r, budget).sent;
    if sent != [] {
      OneSendViews(s, r, budget, sent[0], r.src);
      OneSendViews(s, r, budget, sent[0], Peer(s.server, r));
    } else {
      ViewAfterReport(s, r, budget, r.src);
      ViewAfterReport(s, r, budget, Peer(s.server, r));
    }
  }

  lemma OneSendViews(s: Sys, r: Report, budget: nat, x: Send, c: ClientId)
    requires Handle(s.server, r, budget).sent == [x]
    ensures View(Next(s, Handled(r, budget)), c) == if x.to == c then Exec(View(s, c), x.cmd, true) else View(s, c)
  {
    ViewAfterReport(s, r, budget, c);
    CommandsOfOne(x, c);
    ExecAllOne(View(s, c), x.cmd);
  }

  lemma CommandsOfOne(x: Send, c: ClientId)
    ensures CommandsFor([x], c) == if x.to == c then [x.cmd] else []
  {
    assert [x][..0] == [];
  }

  // What each side holds at the path once a report has been carried out, from what it held.
  function MineAfter(s: Server, r: Report, mine: Option<Sha>): Option<Sha>
    requires TwoWayReport(s, r)
  {
    var other := Lookup(s.rows, OtherKey(r.ev));
    if InConflict(s, r) then Some(r.ev.sha)
    else if !Overrides(r.ev, other) && r.ev.op == Delete && other.value.op == Write then other.value.sha
    else mine
  }

  function TheirsAfter(s: Server, r: Report, theirs: Option<Sha>): Option<Sha> {
    if Overrides(r.ev, Lookup(s.rows, OtherKey(r.ev))) then Mirror.Content(r.ev) else theirs
  }

  predicate RowInOrder(s: Server, r: Report) {
    OtherKey(r.ev) in s.rows ==> WellFormedRow(s.rows[OtherKey(r.ev)]) && s.rows[OtherKey(r.ev)].serverModTime <= r.now
  }

  // Any report whose sends get through, in a conflict or not.
  lemma ReportEffect(s: Sys, r: Report, budget: nat)
    requires TwoWayReport(s.server, r) && budget >= 3 && WellFormed(r.ev) && RowInOrder(s.server, r)
    ensures var t := Next(s, Handled(r, budget));
            var slot, peer := SlotOf(r.ev), Peer(s.server, r);
            && At(View(t, r.src), slot) == MineAfter(s.server, r, At(View(s, r.src), slot))
            && At(View(t, peer), slot) == TheirsAfter(s.server, r, At(View(s, peer), slot))
  {
    if InConflict(s.server, r) {
      ViewsAfterConflict(s, r, budget);
    } else {
      ViewsWithoutConflict(s, r, budget);
    }
  }

  // When the two sides then agree.
  predicate AgreeAfter(s: Server, r: Report, mine: Option<Sha>, theirs: Option<Sha>) {
    var other := Lookup(s.rows, OtherKey(r.ev));
    if InConflict(s, r) then true
    else if Overrides(r.ev, other) then mine == Mirror.Content(r.ev)
    else if r.ev.op == Delete && other.value.op == Write then theirs == other.value.sha
    else mine == theirs
  }

  // Whatever either side holds and has queued, a report whose sends get through makes the two
  // sides agree on its path exactly when: it is a conflict; or it is sent across, and the
  // reporter, once its own queue has run, still holds what it reported; or it is a delete that
  // loses to a write, and the other side holds what its row says; or nothing is sent and the
  // sides agree already. A dispatch changes the other side's files and never its row, and a
  // command queued for the reporter may undo what it reported.
  lemma AgreeAfterReport(s: Sys, r: Report, budget: nat)
    requires TwoWayReport(s.server, r) && budget >= 3 && WellFormed(r.ev) && RowInOrder(s.server, r)
    ensures var t := Next(s, Handled(r, budget));
            var slot, peer := SlotOf(r.ev), Peer(s.server, r);
            At(View(t, r.src), slot) == At(View(t, peer), slot)
            <==> AgreeAfter(s.server, r, At(View(s, r.src), slot), At(View(s, peer), slot))
  {
    ReportEffect(s, r, budget);
  }

  // Without a conflict a report makes at most one send.
  lemma QuietCommands(s: Server, r: Report, budget: nat)
    requires TwoWayReport(s, r) && budget >= 1 && WellFormed(r.ev) && !InConflict(s, r)
    requires OtherKey(r.ev) in s.rows ==>
               WellFormedRow(s.rows[OtherKey(r.ev)]) && s.rows[OtherKey(r.ev)].serverModTime <= r.now
    ensures var pair := s.pairs[r.ev.pair];
            var other := Lookup(s.rows, OtherKey(r.ev));
            Handle(s, r, budget).sent
            == if Overrides(r.ev, other) then
                 [SyncSend(r.src, pair, Target(Peer(s, r), OtherSide(r.ev.side)), r.ev)]
               else if r.ev.op == Delete && other.value.op == Write then
                 [FetchSend(pair, r.src, r.ev.side, r.ev.path, other.value.sha.value, Peer(s, r))]
               else []
  {
  }
}
