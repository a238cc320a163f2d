/** The whole system: the server, one FIFO command queue per client and one file tree per
    client (internal/client/runner/app.go: handleSyncCommand). */
module SyncSystem {
  import opened Prelude
  import opened Protocol
  import opened Engine

  // A place in a client's tree. Module Paths shows that a pair and a path below its root
  // stand for one jail path as long as subscription roots are disjoint.
  datatype Slot = Slot(pair: PairId, path: Path)

  type Tree = map<Slot, Sha>

  datatype Sys = Sys(server: Server, queues: map<ClientId, seq<Command>>, trees: map<ClientId, Tree>)

  function Queue(s: Sys, c: ClientId): seq<Command> {
    if c in s.queues then s.queues[c] else []
  }

  function TreeOf(s: Sys, c: ClientId): Tree {
    if c in s.trees then s.trees[c] else map[]
  }

  function At<K>(tree: map<K, Sha>, k: K): Option<Sha> {
    if k in tree then Some(tree[k]) else None
  }

  // The effect of one command on a tree whose places are named by K. A failed command
  // changes nothing; removing or renaming a missing file changes nothing either.
  function Apply<K>(tree: map<K, Sha>, at: K, to: K, op: CommandOp, sha: Sha, ok: bool): map<K, Sha> {
    if !ok then tree
    else match op
         case Fetch => tree[at := sha]
         case Remove => tree - {at}
         case Rename => if at in tree then (tree - {at})[to := tree[at]] else tree
         case OtherCommand(_) => tree
  }

  function Exec(tree: Tree, cmd: Command, ok: bool): Tree {
    Apply(tree, Slot(cmd.pair, cmd.path), Slot(cmd.pair, cmd.newPath), cmd.op, cmd.sha, ok)
  }

  function ExecAll(tree: Tree, q: seq<Command>): Tree {
    if q == [] then tree else Exec(ExecAll(tree, q[..|q| - 1]), q[|q| - 1], true)
  }

  // The tree a client will have once everything queued for it has run.
  function View(s: Sys, c: ClientId): Tree {
    ExecAll(TreeOf(s, c), Queue(s, c))
  }

  function Touches(cmd: Command): set<Slot> {
    {Slot(cmd.pair, cmd.path)} + if cmd.op == Rename then {Slot(cmd.pair, cmd.newPath)} else {}
  }

  lemma ExecLocal(tree: Tree, cmd: Command, ok: bool, slot: Slot)
    requires slot !in Touches(cmd)
    ensures At(Exec(tree, cmd, ok), slot) == At(tree, slot)
  {
  }

  lemma {:induction false} ExecAllConcat(tree: Tree, p: seq<Command>, q: seq<Command>)
    ensures ExecAll(tree, p + q) == ExecAll(ExecAll(tree, p), q)
  {
    if q == [] {
      assert p + q == p;
    } else {
      ExecAllConcat(tree, p, q[..|q| - 1]);
      assert (p + q)[..|p + q| - 1] == p + q[..|q| - 1];
    }
  }

  // The commands of a log addressed to one client, in order.
  function CommandsFor(sent: seq<Send>, c: ClientId): seq<Command> {
    if sent == [] then []
    else CommandsFor(sent[..|sent| - 1], c)
         + if sent[|sent| - 1].to == c then [sent[|sent| - 1].cmd] else []
  }

  function Enqueue(s: Sys, sent: seq<Send>): Sys {
    if sent == [] then s
    else
      var before := Enqueue(s, sent[..|sent| - 1]);
      var x := sent[|sent| - 1];
      before.(queues := before.queues[x.to := Queue(before, x.to) + [x.cmd]])
  }

  lemma {:induction false} Enqueued(s: Sys, sent: seq<Send>, c: ClientId)
    ensures Queue(Enqueue(s, sent), c) == Queue(s, c) + CommandsFor(sent, c)
    ensures Enqueue(s, sent).trees == s.trees && Enqueue(s, sent).server == s.server
  {
    if sent != [] {
      Enqueued(s, sent[..|sent| - 1], c);
    }
  }

  // The server handles a report; a client runs its next command, which may fail; a user edits
  // a client's tree; a client's connection drops with what was queued on it.
  datatype Step =
    | Handled(r: Report, budget: nat)
    | Execute(c: ClientId, ok: bool)
    | Edit(c: ClientId, slot: Slot, content: Option<Sha>)
    | Disconnect(c: ClientId)

  function Next(s: Sys, step: Step): Sys {
    match step
    case Handled(r, budget) =>
      var out := Handle(s.server, r, budget);
      Enqueue(s.(server := out.server), out.sent)
    case Execute(c, ok) =>
      var q := Queue(s, c);
      if q == [] then s
      else s.(queues := s.queues[c := q[1..]], trees := s.trees[c := Exec(TreeOf(s, c), q[0], ok)])
    case Edit(c, slot, content) =>
      s.(trees := s.trees[c := match content
                               case Some(sha) => TreeOf(s, c)[slot := sha]
                               case None => TreeOf(s, c) - {slot}])
    case Disconnect(c) => s.(queues := s.queues[c := []])
  }

  lemma AfterHandled(s: Sys, r: Report, budget: nat, c: ClientId)
    ensures var t := Next(s, Handled(r, budget));
            && t.server == Handle(s.server, r, budget).server
            && t.trees == s.trees
            && Queue(t, c) == Queue(s, c) + CommandsFor(Handle(s.server, r, budget).sent, c)
  {
    var out := Handle(s.server, r, budget);
    Enqueued(s.(server := out.server), out.sent, c);
  }

  function Run(s: Sys, steps: seq<Step>): Sys {
    if steps == [] then s else Next(Run(s, steps[..|steps| - 1]), steps[|steps| - 1])
  }

  // Running a queued command that succeeds leaves the client's view as it was.
  lemma ExecuteKeepsView(s: Sys, c: ClientId)
    ensures View(Next(s, Execute(c, true)), c) == View(s, c)
  {
    var q := Queue(s, c);
    if q != [] {
      assert q == [q[0]] + q[1..];
      assert ExecAll(TreeOf(s, c), [q[0]]) == Exec(TreeOf(s, c), q[0], true) by {
        assert [q[0]][..0] == [];
      }
      ExecAllConcat(TreeOf(s, c), [q[0]], q[1..]);
    }
  }

  lemma DisjointCommandsCommute(tree: Tree, x: Command, y: Command)
    requires Touches(x) !! Touches(y)
    ensures Exec(Exec(tree, x, true), y, true) == Exec(Exec(tree, y, true), x, true)
  {
    ExecLocal(tree, y, true, Slot(x.pair, x.path));
    ExecLocal(tree, x, true, Slot(y.pair, y.path));
  }

  lemma ExecPair(tree: Tree, x: Command, y: Command)
    ensures ExecAll(tree, [x, y]) == Exec(Exec(tree, x, true), y, true)
  {
    assert [x, y][..1] == [x] && [x][..0] == [];
    assert ExecAll(tree, [x]) == Exec(tree, x, true);
  }

  ghost predicate Commute(x: Command, y: Command) {
    forall tree: Tree :: Exec(Exec(tree, x, true), y, true) == Exec(Exec(tree, y, true), x, true)
  }

  // Neither command is one that does nothing, they meet in a file, and they are not the same.
  predicate Clash(x: Command, y: Command) {
    !Idle(x) && !Idle(y) && !(Touches(x) !! Touches(y)) && !SameEffect(x, y)
  }

  predicate Idle(x: Command) { x.op.OtherCommand? || (x.op == Rename && x.newPath == x.path) }

  predicate SameEffect(x: Command, y: Command) {
    && x.op == y.op && x.pair == y.pair && x.path == y.path
    && (x.op == Fetch ==> x.sha == y.sha) && (x.op == Rename ==> x.newPath == y.newPath)
  }

  // Where the two orders lead to different content.
  ghost predicate Differ(tree: Tree, x: Command, y: Command, slot: Slot) {
    At(Exec(Exec(tree, x, true), y, true), slot) != At(Exec(Exec(tree, y, true), x, true), slot)
  }

  lemma FetchRenameDiffer(x: Command, y: Command)
    requires Clash(x, y) && x.op == Fetch && y.op == Rename
    ensures Differ(map[Slot(y.pair, y.path) := x.sha + "!"], x, y, Slot(x.pair, x.path))
  {
    assert x.sha + "!" != x.sha;
  }

  lemma RemoveRenameDiffer(x: Command, y: Command)
    requires Clash(x, y) && x.op == Remove && y.op == Rename
    ensures Differ(map[Slot(y.pair, y.path) := "1"], x, y, Slot(y.pair, y.newPath))
  {
  }

  lemma RenamesDiffer(x: Command, y: Command)
    requires Clash(x, y) && x.op == y.op == Rename
    ensures exists tree, slot :: Differ(tree, x, y, slot)
  {
    var a, b := Slot(x.pair, x.path), Slot(x.pair, x.newPath);
    var c, d := Slot(y.pair, y.path), Slot(y.pair, y.newPath);
    if a != c && b == d {
      assert Differ(map[a := "1", c := "2"], x, y, b);
    } else if a == d && b != c {
      assert Differ(map[c := "1"], x, y, a);
    } else {
      assert Differ(map[a := "1"], x, y, b);
    }
  }

  lemma PlainDiffer(x: Command, y: Command)
    requires Clash(x, y) && x.op in {Fetch, Remove} && y.op in {Fetch, Remove}
    ensures Differ(map[], x, y, Slot(x.pair, x.path))
  {
  }

  lemma DifferSwaps(tree: Tree, x: Command, y: Command, slot: Slot)
    requires Differ(tree, x, y, slot)
    ensures Differ(tree, y, x, slot)
  {
  }

  lemma ClashDiffers(x: Command, y: Command)
    requires Clash(x, y)
    ensures exists tree, slot :: Differ(tree, x, y, slot)
  {
    if x.op == y.op == Rename {
      RenamesDiffer(x, y);
    } else if y.op == Rename {
      if x.op == Fetch { FetchRenameDiffer(x, y); } else { RemoveRenameDiffer(x, y); }
    } else if x.op == Rename {
      if y.op == Fetch { FetchRenameDiffer(y, x); } else { RemoveRenameDiffer(y, x); }
      var tree, slot :| Differ(tree, y, x, slot);
      DifferSwaps(tree, y, x, slot);
    } else {
      PlainDiffer(x, y);
    }
  }

  lemma SameEffectCommutes(x: Command, y: Command, tree: Tree)
    requires SameEffect(x, y) || Idle(x) || Idle(y)
    ensures Exec(Exec(tree, x, true), y, true) == Exec(Exec(tree, y, true), x, true)
  {
    if SameEffect(x, y) {
      assert Exec(tree, x, true) == Exec(tree, y, true);
      assert Exec(Exec(tree, x, true), y, true) == Exec(Exec(tree, y, true), x, true);
    } else {
      IdleIsNothing(if Idle(x) then x else y, tree);
      IdleIsNothing(if Idle(x) then x else y, Exec(tree, if Idle(x) then y else x, true));
    }
  }

  lemma IdleIsNothing(x: Command, tree: Tree)
    requires Idle(x)
    ensures Exec(tree, x, true) == tree
  {
  }

  // Two commands of any kind may change places, on every tree, exactly when one of them does
  // nothing, they touch different files, or they do the same.
  lemma SameFileOrderMatters(x: Command, y: Command)
    ensures Commute(x, y) <==> !Clash(x, y)
  {
    if Clash(x, y) {
      ClashDiffers(x, y);
      var tree, slot :| Differ(tree, x, y, slot);
      assert Exec(Exec(tree, x, true), y, true) != Exec(Exec(tree, y, true), x, true);
    } else {
      forall tree: Tree ensures Exec(Exec(tree, x, true), y, true) == Exec(Exec(tree, y, true), x, true) {
        if SameEffect(x, y) || Idle(x) || Idle(y) {
          SameEffectCommutes(x, y, tree);
        } else {
          DisjointCommandsCommute(tree, x, y);
        }
      }
    }
  }

  // A client starts each command on its own. Two neighbours in a queue may change places,
  // without any effect on what the queue does to any tree, when they do not clash.
  lemma NeighboursMaySwap(p: seq<Command>, x: Command, y: Command, q: seq<Command>, tree: Tree)
    requires !Clash(x, y)
    ensures ExecAll(tree, p + [x, y] + q) == ExecAll(tree, p + [y, x] + q)
  {
    ExecAllConcat(tree, p + [x, y], q);
    ExecAllConcat(tree, p + [y, x], q);
    ExecAllConcat(tree, p, [x, y]);
    ExecAllConcat(tree, p, [y, x]);
    ExecPair(ExecAll(tree, p), x, y);
    ExecPair(ExecAll(tree, p), y, x);
    SameFileOrderMatters(x, y);
    assert Exec(Exec(ExecAll(tree, p), x, true), y, true) == Exec(Exec(ExecAll(tree, p), y, true), x, true);
  }
}
