/** The client's command and change handlers (internal/client/runner/app.go). */
module Runner {
  import opened Prelude
  import opened Protocol
  import SyncSystem
  import P = Paths
  import S = Suppressor

  const SUPPRESS_TTL: int := 2_000_000_000

  datatype Ack = Ack(cmd: Command, ok: bool)

  // What a command adds to the suppressor, and when.
  function Suppressed(m: S.Entries, root: Path, cmd: Command, now: int): S.Entries {
    var at, to := P.JoinPath(root, cmd.path), P.JoinPath(root, cmd.newPath);
    match cmd.op
    case Fetch => S.Add(m, at, cmd.sha, now + SUPPRESS_TTL)
    case Remove => S.Add(m, at, "", now + SUPPRESS_TTL)
    case Rename => S.Add(S.Add(m, at, "", now + SUPPRESS_TTL), to, "", now + SUPPRESS_TTL)
    case OtherCommand(_) => m
  }

  // The command's effect on the jail; `works` is whether the download, removal or rename
  // itself goes through.
  function Carried(tree: map<Path, Sha>, root: Path, cmd: Command, works: bool): map<Path, Sha> {
    SyncSystem.Apply(tree, P.JoinPath(root, cmd.path), P.JoinPath(root, cmd.newPath), cmd.op, cmd.sha, works)
  }

  // Removing a missing file is fine, renaming one is an error.
  predicate Succeeds(tree: map<Path, Sha>, root: Path, cmd: Command, works: bool) {
    works && !cmd.op.OtherCommand? && (cmd.op == Rename ==> P.JoinPath(root, cmd.path) in tree)
  }

  predicate IsEcho(m: S.Entries, ev: Event, now: int) {
    (ev.op == Write && S.HitWithSHA(m, ev.path, ev.sha, now)) || (ev.op == Delete && S.Hit(m, ev.path, now))
  }

  // A change of either kind is looked up, which drops an expired entry of its path.
  function LookedUp(m: S.Entries, ev: Event, now: int): S.Entries {
    if ev.op == Write || ev.op == Delete then S.Looked(m, ev.path, now) else m
  }

  /** One client. */
  class Runner {
    const reg: P.Registry
    const supp: S.Suppressor
    var tree: map<Path, Sha>
    var acks: seq<Ack>
    var reported: seq<Event>

    constructor (reg: P.Registry, supp: S.Suppressor)
      ensures this.reg == reg && this.supp == supp && tree == map[] && acks == [] && reported == []
    {
      this.reg, this.supp, tree, acks, reported := reg, supp, map[], [], [];
    }

    // The registry keeps each subscription under its pair.
    ghost predicate Keyed()
      reads this, reg
    {
      forall p :: p in reg.m ==> reg.m[p].pair == p
    }

    method LookupSubscription(pair: PairId) returns (sub: Option<P.Subscription>)
      requires Keyed()
      ensures sub == if pair in reg.m then Some(reg.m[pair]) else None
    {
      var todo := reg.m.Keys;
      while todo != {}
        invariant todo <= reg.m.Keys
        invariant pair in reg.m ==> pair in todo
        decreases todo
      {
        var p :| p in todo;
        if reg.m[p].pair == pair {
          return Some(reg.m[p]);
        }
        todo := todo - {p};
      }
      sub := None;
    }

    method HandleSyncCommand(cmd: Command, works: bool, now: int)
      requires Keyed()
      modifies this, supp
      ensures cmd.pair !in reg.m ==> tree == old(tree) && supp.m == old(supp.m) && acks == old(acks) + [Ack(cmd, false)]
      ensures cmd.pair in reg.m ==>
                var root := reg.m[cmd.pair].rootSubpath;
                && tree == Carried(old(tree), root, cmd, works)
                && supp.m == Suppressed(old(supp.m), root, cmd, now)
                && acks == old(acks) + [Ack(cmd, Succeeds(old(tree), root, cmd, works))]
      ensures reported == old(reported) && Keyed()
    {
      var sub := LookupSubscription(cmd.pair);
      if sub.None? {
        acks := acks + [Ack(cmd, false)];
        return;
      }
      var root := sub.value.rootSubpath;
      var jailRel := P.JoinPath(root, cmd.path);
      var ok := works;
      match cmd.op {
        case Fetch =>
          supp.DoAdd(jailRel, cmd.sha, SUPPRESS_TTL, now);
          if works {
            tree := tree[jailRel := cmd.sha];
          }
        case Remove =>
          supp.DoAdd(jailRel, "", SUPPRESS_TTL, now);
          if works {
            tree := tree - {jailRel};
          }
        case Rename =>
          var newJailRel := P.JoinPath(root, cmd.newPath);
          supp.DoAdd(jailRel, "", SUPPRESS_TTL, now);
          supp.DoAdd(newJailRel, "", SUPPRESS_TTL, now);
          ok := works && jailRel in tree;
          if ok {
            var sha := tree[jailRel];
            tree := (tree - {jailRel})[newJailRel := sha];
          }
        case OtherCommand(_) =>
          ok := false;
      }
      acks := acks + [Ack(cmd, ok)];
    }

    // A change is reported unless it is an echo, a write that cannot be uploaded, or the
    // connection fails.
    method HandleLocalChange(ev: Event, uploads: bool, sends: bool, now: int)
      requires Keyed()
      modifies this, supp
      ensures reported == old(reported)
                + if !IsEcho(old(supp.m), ev, now) && (ev.op == Write ==> ev.pair in reg.m && uploads) && sends
                  then [ev] else []
      ensures supp.m == LookedUp(old(supp.m), ev, now)
      ensures tree == old(tree) && acks == old(acks) && Keyed()
    {
      if ev.op == Write {
        var hit := supp.DoHitWithSHA(ev.path, ev.sha, now);
        if hit { return; }
      } else if ev.op == Delete {
        var hit := supp.DoHit(ev.path, now);
        if hit { return; }
      }
      if ev.op == Write {
        var sub := LookupSubscription(ev.pair);
        if sub.None? || !uploads { return; }
      }
      if sends {
        reported := reported + [ev];
      }
    }
  }

  // An acknowledgement tells what became of the files: a fetched file is there with its content,
  // a removed one is gone, a renamed one is at its new path; and a command that failed left the
  // files as they were.
  lemma AckTellsEffect(tree: map<Path, Sha>, root: Path, cmd: Command, works: bool)
    ensures var at, to := P.JoinPath(root, cmd.path), P.JoinPath(root, cmd.newPath);
            var tree' := Carried(tree, root, cmd, works);
            if Succeeds(tree, root, cmd, works) then
              match cmd.op
              case Fetch => tree' == tree[at := cmd.sha]
              case Remove => tree' == tree - {at}
              case Rename => at in tree && to in tree' && tree'[to] == tree[at] && tree' - {at, to} == tree - {at, to}
                             && (at != to ==> at !in tree')
              case OtherCommand(_) => false
            else tree' == tree
    ensures Succeeds(tree, root, cmd, works)
            <==> works && match cmd.op
                          case Rename => P.JoinPath(root, cmd.path) in tree
                          case OtherCommand(_) => false
                          case _ => true
  {
    var at, to := P.JoinPath(root, cmd.path), P.JoinPath(root, cmd.newPath);
    if cmd.op == Rename && at in tree {
      assert (tree - {at})[to := tree[at]] - {at, to} == tree - {at, to};
    }
  }

  // A file's path below a root, as plain components.
  predicate PlainPath(rel: seq<string>) {
    rel != [] && forall i :: 0 <= i < |rel| ==> P.Plain(rel[i])
  }

  // The change the watcher sees after a command names, for the pair's subscription, the
  // command's own path.
  lemma EchoNamesCommandPath(sub: P.Subscription, rel: seq<string>)
    requires P.Relative(sub.rootSubpath) && PlainPath(rel)
    ensures P.Normal(P.Components(sub.rootSubpath) + rel)
    ensures P.Match(sub, P.JoinPath(sub.rootSubpath, P.Render(rel))) == Some(P.Resolved(sub.pair, sub.side, P.Render(rel)))
  {
    var root := P.Components(sub.rootSubpath);
    P.ComponentsNormal(sub.rootSubpath);
    P.JoinAppends(sub.rootSubpath, rel);
    P.ComponentsOfRender(root + rel);
    P.MatchByComponents(sub, P.JoinPath(sub.rootSubpath, P.Render(rel)));
    assert (root + rel)[|root|..] == rel;
  }

  // The watcher's report of what a command has just done.
  predicate Echoes(ev: Event, cmd: Command) {
    (cmd.op == Fetch && ev.op == Write && ev.sha == cmd.sha) || (cmd.op == Remove && ev.op == Delete)
  }

  // Whatever the suppressor held before: the echo of a fetch or removal is swallowed on account
  // of its command exactly when the subscription's root is the jail's root, because the
  // suppressor is told the jail path and asked for the path below the subscription's root.
  lemma EchoSwallowedIff(m: S.Entries, sub: P.Subscription, rel: seq<string>, cmd: Command, now: int, later: int, ev: Event)
    requires P.Relative(sub.rootSubpath) && PlainPath(rel)
    requires cmd.path == P.Render(rel) && now <= later <= now + SUPPRESS_TTL && Echoes(ev, cmd)
    requires P.Match(sub, P.JoinPath(sub.rootSubpath, cmd.path)) == Some(P.Resolved(ev.pair, ev.side, ev.path))
    ensures IsEcho(Suppressed(m, sub.rootSubpath, cmd, now), ev, later)
            <==> P.Components(sub.rootSubpath) == [] || IsEcho(m, ev, later)
  {
    EchoNamesCommandPath(sub, rel);
    JailPathIsSubPathIff(sub.rootSubpath, rel);
    var at := P.JoinPath(sub.rootSubpath, cmd.path);
    AddedHits(m, at, if cmd.op == Fetch then cmd.sha else "", now + SUPPRESS_TTL, ev.path, later);
  }

  lemma AddedHits(m: S.Entries, at: Path, sha: Sha, expiry: int, asked: Path, now: int)
    requires now <= expiry
    ensures S.HitWithSHA(S.Add(m, at, sha, expiry), asked, sha, now) <==> asked == at || S.HitWithSHA(m, asked, sha, now)
    ensures S.Hit(S.Add(m, at, sha, expiry), asked, now) <==> asked == at || S.Hit(m, asked, now)
  {
  }

  lemma AddedAnyHits(m: S.Entries, at: Path, expiry: int, asked: Path, sha: Sha, now: int)
    requires now <= expiry
    ensures S.HitWithSHA(S.Add(m, at, "", expiry), asked, sha, now) <==> asked == at || S.HitWithSHA(m, asked, sha, now)
    ensures S.Hit(S.Add(m, at, "", expiry), asked, now) <==> asked == at || S.Hit(m, asked, now)
  {
  }

  // When the path below the root that one change names is the jail path of another.
  lemma NamesJailPathIff(root: Path, asked: seq<string>, rel: seq<string>)
    requires P.Normal(asked) && P.Normal(P.Components(root) + rel)
    ensures P.Render(asked) == P.JoinPath(root, P.Render(rel)) <==> asked == P.Components(root) + rel
  {
    P.JoinAppends(root, rel);
    if P.Render(asked) == P.Render(P.Components(root) + rel) {
      P.JoinInjective(asked, P.Components(root) + rel);
    }
  }

  // A rename has two echoes, the removal of one path and the write of another. Each is swallowed
  // on the rename's account exactly when the subscription's root is the jail's root or the path
  // it names below the root happens to be the jail path of the other.
  lemma RenameEchoSwallowedIff(m: S.Entries, sub: P.Subscription, rel: seq<string>, newRel: seq<string>, cmd: Command,
                               now: int, later: int, ev: Event)
    requires P.Relative(sub.rootSubpath) && PlainPath(rel) && PlainPath(newRel)
    requires cmd.op == Rename && cmd.path == P.Render(rel) && cmd.newPath == P.Render(newRel)
    requires now <= later <= now + SUPPRESS_TTL && (ev.op == Delete || ev.op == Write)
    requires P.Match(sub, P.JoinPath(sub.rootSubpath, if ev.op == Delete then cmd.path else cmd.newPath))
             == Some(P.Resolved(ev.pair, ev.side, ev.path))
    ensures IsEcho(Suppressed(m, sub.rootSubpath, cmd, now), ev, later)
            <==> var root := P.Components(sub.rootSubpath);
                 || root == []
                 || (if ev.op == Delete then rel == root + newRel else newRel == root + rel)
                 || IsEcho(m, ev, later)
  {
    var root := P.Components(sub.rootSubpath);
    var asked := if ev.op == Delete then rel else newRel;
    EchoNamesCommandPath(sub, rel);
    EchoNamesCommandPath(sub, newRel);
    NamesJailPathIff(sub.rootSubpath, asked, rel);
    NamesJailPathIff(sub.rootSubpath, asked, newRel);
    assert |root + asked| == |root| + |asked|;
    assert asked == root + asked <==> root == [];
    var at, to, expiry := P.JoinPath(sub.rootSubpath, cmd.path), P.JoinPath(sub.rootSubpath, cmd.newPath), now + SUPPRESS_TTL;
    AddedAnyHits(m, at, expiry, ev.path, ev.sha, later);
    AddedAnyHits(S.Add(m, at, "", expiry), to, expiry, ev.path, ev.sha, later);
  }

  // The path below the root is the jail path only below the jail's own root.
  lemma JailPathIsSubPathIff(root: Path, rel: seq<string>)
    requires P.Normal(P.Components(root) + rel) && P.Normal(rel)
    ensures P.JoinPath(root, P.Render(rel)) == P.Render(rel) <==> P.Components(root) == []
  {
    P.JoinAppends(root, rel);
    var all := P.Components(root) + rel;
    assert |all| == |P.Components(root)| + |rel|;
    if P.Components(root) == [] {
      assert all == rel;
    } else if P.Render(all) == P.Render(rel) {
      P.JoinInjective(all, rel);
    }
  }

  // A file's path below a subscription root: cleaned and made of plain components.
  ghost predicate FilePath(path: Path) {
    var parts := P.Components(path);
    parts != [] && path == P.Render(parts) && forall i :: 0 <= i < |parts| ==> P.Plain(parts[i])
  }

  // No subscription of the client lies inside another.
  ghost predicate DisjointRoots(roots: map<PairId, Path>) {
    && (forall p :: p in roots ==> P.Relative(roots[p]))
    && (forall p, q :: p in roots && q in roots && p != q ==> !(P.Components(roots[p]) <= P.Components(roots[q])))
  }

  lemma JailPathsDistinct(roots: map<PairId, Path>, p: PairId, x: Path, q: PairId, y: Path)
    requires DisjointRoots(roots) && p in roots && q in roots && FilePath(x) && FilePath(y)
    ensures P.JoinPath(roots[p], x) == P.JoinPath(roots[q], y) <==> p == q && x == y
  {
    P.ComponentsNormal(roots[p]);
    P.ComponentsNormal(roots[q]);
    P.PlacesAreDistinct(roots[p], P.Components(x), roots[q], P.Components(y));
  }

  // The slots of a client's pairs, read off its jail.
  ghost predicate Represents(jail: map<Path, Sha>, tree: SyncSystem.Tree, roots: map<PairId, Path>) {
    forall p, path :: p in roots && FilePath(path) ==>
      SyncSystem.At(tree, SyncSystem.Slot(p, path)) == SyncSystem.At(jail, P.JoinPath(roots[p], path))
  }

  // What handleSyncCommand does to the jail is what the system model does to the slots, so
  // the theorems about slots speak of the files in the jail.
  lemma {:induction false} CommandRefines(jail: map<Path, Sha>, tree: SyncSystem.Tree, roots: map<PairId, Path>, cmd: Command, works: bool)
    requires Represents(jail, tree, roots) && DisjointRoots(roots)
    requires cmd.pair in roots && FilePath(cmd.path) && (cmd.op == Rename ==> FilePath(cmd.newPath))
    ensures Represents(Carried(jail, roots[cmd.pair], cmd, works), SyncSystem.Exec(tree, cmd, works), roots)
  {
    var jail', tree' := Carried(jail, roots[cmd.pair], cmd, works), SyncSystem.Exec(tree, cmd, works);
    forall p, path | p in roots && FilePath(path)
      ensures SyncSystem.At(tree', SyncSystem.Slot(p, path)) == SyncSystem.At(jail', P.JoinPath(roots[p], path))
    {
      JailPathsDistinct(roots, p, path, cmd.pair, cmd.path);
      if cmd.op == Rename {
        JailPathsDistinct(roots, p, path, cmd.pair, cmd.newPath);
        assert SyncSystem.At(tree, SyncSystem.Slot(cmd.pair, cmd.path)) == SyncSystem.At(jail, P.JoinPath(roots[cmd.pair], cmd.path));
      }
      assert SyncSystem.At(tree, SyncSystem.Slot(p, path)) == SyncSystem.At(jail, P.JoinPath(roots[p], path));
    }
  }
}
