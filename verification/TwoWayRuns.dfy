/** Runs of a two-way pair that end, with nothing queued, where one would not want them to
    (internal/server/syncengine/engine.go:89-92, 151-229, internal/client/runner/app.go:240-275). */
module TwoWayRuns {
  import opened Prelude
  import opened Protocol
  import opened FileStateTable
  import opened Lww
  import opened Engine
  import opened SyncSystem
  import opened TwoWay

  // A run at whose end nothing is queued and the sides differ: the second
  // client's return to old content matches the first side's stale row, and nothing is sent.
  const PAIR: Pair := Pair("p", "a", "", "b", "", Bidirectional, true)

  const START: Sys := Sys(Server(map["p" := PAIR], map[]), map[], map["a" := map[Slot("p", "f") := "1"]])

  function WriteBy(side: Side, sha: Sha, now: int): Step {
    Handled(Report(ClientOf(PAIR, side), FileChanged("p", side, "f", sha, 1, 0, Write, false), now, 0), 3)
  }

  function Diverging(): seq<Step> {
    [WriteBy(A, "1", 10_000_000_000), Execute("b", true)]
    + [Edit("b", Slot("p", "f"), Some("2"))]
    + [WriteBy(B, "2", 20_000_000_000), Execute("a", true)]
    + [Edit("b", Slot("p", "f"), Some("1")), WriteBy(B, "1", 30_000_000_000)]
  }

  lemma {:induction false} RunConcat(s: Sys, p: seq<Step>, q: seq<Step>)
    ensures Run(s, p + q) == Run(Run(s, p), q)
  {
    if q == [] {
      assert p + q == p;
    } else {
      RunConcat(s, p, q[..|q| - 1]);
      assert (p + q)[..|p + q| - 1] == p + q[..|q| - 1];
    }
  }

  lemma RunTwo(s: Sys, x: Step, y: Step)
    ensures Run(s, [x, y]) == Next(Next(s, x), y)
  {
    assert [x, y][..1] == [x] && [x][..0] == [];
    assert Run(s, [x]) == Next(s, x);
  }

  lemma EnqueueOne(s: Sys, x: Send)
    ensures Enqueue(s, [x]) == s.(queues := s.queues[x.to := Queue(s, x.to) + [x.cmd]])
  {
    assert [x][..0] == [];
    assert Enqueue(s, []) == s;
  }

  // New content recorded by one side is sent across.
  lemma SentAcross(s: Server, side: Side, sha: Sha, now: int)
    requires side in {A, B} && sha != "" && s.pairs == map["p" := PAIR]
    requires Key("p", side, "f") in s.rows ==> s.rows[Key("p", side, "f")].serverModTime < now
    requires var other := Key("p", OtherSide(side), "f");
             other in s.rows ==>
               s.rows[other].op == Write && s.rows[other].sha != Some(sha)
               && s.rows[other].serverModTime + CONFLICT_WINDOW_NS <= now
    ensures var r := WriteBy(side, sha, now).r;
            var peer := ClientOf(PAIR, OtherSide(side));
            Handle(s, r, 3)
            == Outcome(Server(s.pairs, s.rows[Key("p", side, "f") := RowOf(r.ev, now)]),
                       [SyncSend(r.src, PAIR, Target(peer, OtherSide(side)), r.ev)], None)
  {
  }

  function Recorded(s: Server, side: Side, sha: Sha, now: int): Server {
    Server(s.pairs, s.rows[Key("p", side, "f") := RowOf(WriteBy(side, sha, now).r.ev, now)])
  }

  function FetchBy(side: Side, sha: Sha): Command {
    FileSync("p", side, "f", sha, Fetch, "", ClientOf(PAIR, OtherSide(side)))
  }

  lemma QueuedAcross(s: Sys, side: Side, sha: Sha, now: int)
    requires side in {A, B} && sha != "" && s.server.pairs == map["p" := PAIR]
    requires Queue(s, ClientOf(PAIR, OtherSide(side))) == []
    requires Key("p", side, "f") in s.server.rows ==> s.server.rows[Key("p", side, "f")].serverModTime < now
    requires var other := Key("p", OtherSide(side), "f");
             other in s.server.rows ==>
               s.server.rows[other].op == Write && s.server.rows[other].sha != Some(sha)
               && s.server.rows[other].serverModTime + CONFLICT_WINDOW_NS <= now
    ensures Next(s, WriteBy(side, sha, now))
            == Sys(Recorded(s.server, side, sha, now),
                   s.queues[ClientOf(PAIR, OtherSide(side)) := [FetchBy(OtherSide(side), sha)]], s.trees)
  {
    SentAcross(s.server, side, sha, now);
    var out := Handle(s.server, WriteBy(side, sha, now).r, 3);
    EnqueueOne(s.(server := out.server), out.sent[0]);
    assert Queue(s, out.sent[0].to) + [out.sent[0].cmd] == [FetchBy(OtherSide(side), sha)];
  }

  lemma UpdateTwice<K, V>(m: map<K, V>, k: K, v: V, w: V)
    ensures m[k := v][k := w] == m[k := w]
  {
  }

  lemma ThenFetches(s: Sys, step: Step, t: Sys, peer: ClientId, cmd: Command)
    requires Next(s, step) == t && Queue(t, peer) == [cmd] && cmd.op == Fetch
    ensures Run(s, [step, Execute(peer, true)])
            == Sys(t.server, t.queues[peer := []], t.trees[peer := TreeOf(t, peer)[Slot(cmd.pair, cmd.path) := cmd.sha]])
  {
    RunTwo(s, step, Execute(peer, true));
    ExecuteOnlyFetch(t, peer, cmd);
  }

  // One side records new content, and the other side's client fetches it.
  lemma PassesAcross(s: Sys, side: Side, sha: Sha, now: int)
    requires side in {A, B} && sha != "" && s.server.pairs == map["p" := PAIR]
    requires Queue(s, ClientOf(PAIR, OtherSide(side))) == []
    requires Key("p", side, "f") in s.server.rows ==> s.server.rows[Key("p", side, "f")].serverModTime < now
    requires var other := Key("p", OtherSide(side), "f");
             other in s.server.rows ==>
               s.server.rows[other].op == Write && s.server.rows[other].sha != Some(sha)
               && s.server.rows[other].serverModTime + CONFLICT_WINDOW_NS <= now
    ensures var peer := ClientOf(PAIR, OtherSide(side));
            Run(s, [WriteBy(side, sha, now), Execute(peer, true)])
            == Sys(Recorded(s.server, side, sha, now),
                   s.queues[peer := []], s.trees[peer := TreeOf(s, peer)[Slot("p", "f") := sha]])
  {
    var peer, cmd := ClientOf(PAIR, OtherSide(side)), FetchBy(OtherSide(side), sha);
    QueuedAcross(s, side, sha, now);
    ThenFetches(s, WriteBy(side, sha, now), Next(s, WriteBy(side, sha, now)), peer, cmd);
    UpdateTwice(s.queues, peer, [cmd], []);
  }

  lemma ExecuteOnlyFetch(s: Sys, c: ClientId, cmd: Command)
    requires Queue(s, c) == [cmd] && cmd.op == Fetch
    ensures Next(s, Execute(c, true))
            == s.(queues := s.queues[c := []], trees := s.trees[c := TreeOf(s, c)[Slot(cmd.pair, cmd.path) := cmd.sha]])
  {
    assert [cmd][1..] == [];
  }

  lemma TwoWayCanDiverge()
    ensures var end := Run(START, Diverging());
            && Queue(end, "a") == [] && Queue(end, "b") == []
            && At(TreeOf(end, "a"), Slot("p", "f")) == Some("2")
            && At(TreeOf(end, "b"), Slot("p", "f")) == Some("1")
  {
    var first, edit := [WriteBy(A, "1", 10_000_000_000), Execute("b", true)], Edit("b", Slot("p", "f"), Some("2"));
    var second := [WriteBy(B, "2", 20_000_000_000), Execute("a", true)];
    var undo, last := Edit("b", Slot("p", "f"), Some("1")), WriteBy(B, "1", 30_000_000_000);
    RunConcat(START, first + [edit] + second, [undo, last]);
    RunConcat(START, first + [edit], second);
    PassesAcross(START, A, "1", 10_000_000_000);
    var s2 := Run(START, first);
    var s3 := Next(s2, edit);
    assert (first + [edit])[..2] == first && Run(START, first + [edit]) == s3;
    PassesAcross(s3, B, "2", 20_000_000_000);
    var s5 := Run(s3, second);
    RunTwo(s5, undo, last);
    LastIsSilent(Next(s5, undo));
  }

  // The first side's row still says "1", so a second report of "1" is not sent across.
  lemma LastIsSilent(s: Sys)
    requires s.server.pairs == map["p" := PAIR]
    requires Key("p", A, "f") in s.server.rows
    requires s.server.rows[Key("p", A, "f")].op == Write && s.server.rows[Key("p", A, "f")].sha == Some("1")
    ensures Next(s, WriteBy(B, "1", 30_000_000_000)).queues == s.queues
    ensures Next(s, WriteBy(B, "1", 30_000_000_000)).trees == s.trees
  {
    var r := WriteBy(B, "1", 30_000_000_000).r;
    assert Handle(s.server, r, 3).sent == [];
  }

  const FILE: Slot := Slot("p", "f")

  // A client runs all that is queued for it, and then another client does.
  function Executes(c: ClientId, n: nat): seq<Step> { seq(n, _ => Execute(c, true)) }

  function DrainOf(s: Sys, c: ClientId, d: ClientId): seq<Step> {
    Executes(c, |Queue(s, c)|) + Executes(d, |Queue(s, d)|)
  }

  lemma {:induction false} ExecutesPop(s: Sys, c: ClientId, n: nat, d: ClientId)
    requires n <= |Queue(s, c)|
    ensures Queue(Run(s, Executes(c, n)), c) == Queue(s, c)[n..]
    ensures d != c ==> Queue(Run(s, Executes(c, n)), d) == Queue(s, d)
  {
    if n > 0 {
      ExecutesPop(s, c, n - 1, d);
      assert Executes(c, n)[..n - 1] == Executes(c, n - 1);
    }
  }

  // Every state can be drained.
  lemma DrainEmpties(s: Sys, c: ClientId, d: ClientId)
    requires c != d
    ensures Drain(DrainOf(s, c, d))
    ensures var end := Run(s, DrainOf(s, c, d)); Queue(end, c) == [] && Queue(end, d) == []
  {
    var n, m := |Queue(s, c)|, |Queue(s, d)|;
    RunConcat(s, Executes(c, n), Executes(d, m));
    ExecutesPop(s, c, n, d);
    ExecutesPop(Run(s, Executes(c, n)), d, m, c);
  }

  lemma DrainedTrees(s: Sys, c: ClientId, d: ClientId)
    requires c != d
    ensures var end := Run(s, DrainOf(s, c, d));
            Queue(end, c) == Queue(end, d) == [] && TreeOf(end, c) == View(s, c) && TreeOf(end, d) == View(s, d)
  {
    DrainEmpties(s, c, d);
    DrainKeepsViews(s, DrainOf(s, c, d), c);
    DrainKeepsViews(s, DrainOf(s, c, d), d);
  }

  // Commands cross: the second client edits while the first client's content waits in its
  // queue. Its report is sent across, and then each side takes over what the other gave up.
  lemma CrossingCommandsDiverge()
    ensures var s := Run(START, [WriteBy(A, "1", 10_000_000_000), Edit("b", FILE, Some("2")), WriteBy(B, "2", 20_000_000_000)]);
            var end := Run(s, DrainOf(s, "a", "b"));
            && Queue(end, "a") == [] && Queue(end, "b") == []
            && At(TreeOf(end, "a"), FILE) == Some("2") && At(TreeOf(end, "b"), FILE) == Some("1")
  {
    var first, edit, second := WriteBy(A, "1", 10_000_000_000), Edit("b", FILE, Some("2")), WriteBy(B, "2", 20_000_000_000);
    RunThree(START, first, edit, second);
    QueuedAcross(START, A, "1", 10_000_000_000);
    var s2 := Next(Next(START, first), edit);
    QueuedAcross(s2, B, "2", 20_000_000_000);
    var s := Next(s2, second);
    DrainedTrees(s, "a", "b");
    ExecAllOne(TreeOf(s, "a"), FetchBy(A, "2"));
    ExecAllOne(TreeOf(s, "b"), FetchBy(B, "1"));
  }

  lemma RunThree(s: Sys, x: Step, y: Step, z: Step)
    ensures Run(s, [x, y, z]) == Next(Next(Next(s, x), y), z)
  {
    RunTwo(s, x, y);
    assert [x, y, z][..2] == [x, y];
  }

  const LOSS_START: Sys := Sys(Server(map["p" := PAIR], map[]), map[], map["b" := map[FILE := "0"]])

  // Up to the report that conflicts.
  function Losing(): seq<Step> {
    [WriteBy(B, "0", 1_000_000_000), Edit("a", FILE, Some("1"))]
    + [WriteBy(A, "1", 10_000_000_000), Edit("b", FILE, Some("2"))]
  }

  function HalfWay(): Sys {
    Sys(Recorded(LOSS_START.server, B, "0", 1_000_000_000), map["a" := [FetchBy(A, "0")]],
        LOSS_START.trees["a" := map[FILE := "1"]])
  }

  function BeforeConflict(): Sys {
    Sys(Recorded(HalfWay().server, A, "1", 10_000_000_000), HalfWay().queues["b" := [FetchBy(B, "1")]],
        HalfWay().trees["b" := map[FILE := "2"]])
  }

  // One side records new content, and then somebody edits the file.
  lemma ReportThenEdit(s: Sys, side: Side, sha: Sha, now: int, c: ClientId, content: Sha)
    requires side in {A, B} && sha != "" && s.server.pairs == map["p" := PAIR]
    requires Queue(s, ClientOf(PAIR, OtherSide(side))) == []
    requires Key("p", side, "f") in s.server.rows ==> s.server.rows[Key("p", side, "f")].serverModTime < now
    requires var other := Key("p", OtherSide(side), "f");
             other in s.server.rows ==>
               s.server.rows[other].op == Write && s.server.rows[other].sha != Some(sha)
               && s.server.rows[other].serverModTime + CONFLICT_WINDOW_NS <= now
    ensures Run(s, [WriteBy(side, sha, now), Edit(c, FILE, Some(content))])
            == Sys(Recorded(s.server, side, sha, now),
                   s.queues[ClientOf(PAIR, OtherSide(side)) := [FetchBy(OtherSide(side), sha)]],
                   s.trees[c := TreeOf(s, c)[FILE := content]])
  {
    RunTwo(s, WriteBy(side, sha, now), Edit(c, FILE, Some(content)));
    QueuedAcross(s, side, sha, now);
  }

  lemma ReachesHalfWay()
    ensures Run(LOSS_START, [WriteBy(B, "0", 1_000_000_000), Edit("a", FILE, Some("1"))]) == HalfWay()
  {
    ReportThenEdit(LOSS_START, B, "0", 1_000_000_000, "a", "1");
  }

  lemma ReachesConflict()
    ensures Run(HalfWay(), [WriteBy(A, "1", 10_000_000_000), Edit("b", FILE, Some("2"))]) == BeforeConflict()
  {
    ReportThenEdit(HalfWay(), A, "1", 10_000_000_000, "b", "2");
    assert TreeOf(HalfWay(), "b")[FILE := "2"] == map[FILE := "2"];
  }

  lemma ViewsBeforeConflict()
    ensures View(BeforeConflict(), "a") == map[FILE := "0"] && View(BeforeConflict(), "b") == map[FILE := "1"]
  {
    ExecAllOne(TreeOf(BeforeConflict(), "a"), FetchBy(A, "0"));
    ExecAllOne(TreeOf(BeforeConflict(), "b"), FetchBy(B, "1"));
  }

  lemma ConflictsAtLast()
    ensures var r := WriteBy(B, "2", 12_000_000_000).r;
            && InConflict(BeforeConflict().server, r) && Peer(BeforeConflict().server, r) == "a"
            && BeforeConflict().server.rows[OtherKey(r.ev)].sha == Some("1")
  {
  }

  lemma NobodyHolds(s: Sys, r: Report)
    requires InConflict(s.server, r) && r.src == "b" && Peer(s.server, r) == "a" && SlotOf(r.ev) == FILE && r.ev.sha == "2"
    requires View(s, "a") == map[FILE := "0"] && View(s, "b") == map[FILE := "1"]
    ensures var t := Next(s, Handled(r, 3));
            forall slot :: At(View(t, "a"), slot) != Some("1") && At(View(t, "b"), slot) != Some("1")
  {
    ViewsAfterConflict(s, r, 3);
    DisplacingBringsNothing(View(s, "a"), FILE, Parked(s.server, r), "2", "1");
  }

  lemma DisplacingBringsNothing(view: Tree, slot: Slot, parked: Slot, sha: Sha, x: Sha)
    requires sha != x && forall q :: At(view, q) != Some(x)
    ensures forall q :: At(Displaced(view, slot, parked, sha), q) != Some(x)
  {
    assert slot in view ==> At(view, slot) != Some(x);
    forall q ensures At(Displaced(view, slot, parked, sha), q) != Some(x) {
      assert At(view, q) != Some(x);
    }
  }

  // A conflict that parks the wrong content: the loser's report "1" is in its row and was in its
  // tree, but an older fetch waits in its queue ahead of the rename. When all has run nobody
  // holds "1" any more.
  lemma ReportedContentCanBeLost()
    ensures var s := Run(LOSS_START, Losing());
            var r := WriteBy(B, "2", 12_000_000_000).r;
            && InConflict(s.server, r) && s.server.rows[OtherKey(r.ev)].sha == Some("1")
            && At(TreeOf(s, "a"), FILE) == Some("1")
            && var t := Next(s, Handled(r, 3));
               var end := Run(t, DrainOf(t, "a", "b"));
               && Queue(end, "a") == [] && Queue(end, "b") == []
               && forall slot :: At(TreeOf(end, "a"), slot) != Some("1") && At(TreeOf(end, "b"), slot) != Some("1")
  {
    var first := [WriteBy(B, "0", 1_000_000_000), Edit("a", FILE, Some("1"))];
    RunConcat(LOSS_START, first, [WriteBy(A, "1", 10_000_000_000), Edit("b", FILE, Some("2"))]);
    ReachesHalfWay();
    ReachesConflict();
    ViewsBeforeConflict();
    ConflictsAtLast();
    var r := WriteBy(B, "2", 12_000_000_000).r;
    NobodyHolds(BeforeConflict(), r);
    DrainedTrees(Next(BeforeConflict(), Handled(r, 3)), "a", "b");
  }
}
