/** Which local changes a client withholds over a history of commands and changes
    (internal/client/runner/app.go:190-275, suppress.go). */
module EchoRuns {
  import opened Protocol
  import opened Runner
  import P = Paths
  import S = Suppressor

  // The client carries out a command below a subscription's root, looks at a local change, or
  // collects expired entries.
  datatype Act = Commanded(root: Path, cmd: Command, now: int) | Changed(ev: Event, now: int) | Swept(now: int)

  function Acted(m: S.Entries, act: Act): S.Entries {
    match act
    case Commanded(root, cmd, now) => Suppressed(m, root, cmd, now)
    case Changed(ev, now) => LookedUp(m, ev, now)
    case Swept(now) => S.Collected(m, now)
  }

  function SuppressorAfter(acts: seq<Act>): S.Entries {
    if acts == [] then map[] else Acted(SuppressorAfter(acts[..|acts| - 1]), acts[|acts| - 1])
  }

  // What an act means to the suppressor: a fetch adds its content at the path it writes, a removal
  // the path it removes, a rename both its paths, for two seconds.
  function StepsOf(act: Act): seq<S.Step> {
    match act
    case Commanded(root, cmd, now) =>
      (match cmd.op
       case Fetch => [S.DoAdd(P.JoinPath(root, cmd.path), cmd.sha, 2_000_000_000, now)]
       case Remove => [S.DoAdd(P.JoinPath(root, cmd.path), "", 2_000_000_000, now)]
       case Rename => [S.DoAdd(P.JoinPath(root, cmd.path), "", 2_000_000_000, now),
                       S.DoAdd(P.JoinPath(root, cmd.newPath), "", 2_000_000_000, now)]
       case OtherCommand(_) => [])
    case Changed(ev, now) => if ev.op == Write || ev.op == Delete then [S.Look(ev.path, now)] else []
    case Swept(now) => [S.Gc(now)]
  }

  function History(acts: seq<Act>): seq<S.Step> {
    if acts == [] then [] else History(acts[..|acts| - 1]) + StepsOf(acts[|acts| - 1])
  }

  lemma RunMore(steps: seq<S.Step>, step: S.Step)
    ensures S.Run(steps + [step]) == S.Next(S.Run(steps), step)
  {
    assert (steps + [step])[..|steps|] == steps;
  }

  lemma RunTwoMore(steps: seq<S.Step>, x: S.Step, y: S.Step)
    ensures S.Run(steps + [x, y]) == S.Next(S.Next(S.Run(steps), x), y)
  {
    assert steps + [x, y] == steps + [x] + [y];
    RunMore(steps, x);
    RunMore(steps + [x], y);
  }

  lemma CommandIsItsSteps(h: seq<S.Step>, root: Path, cmd: Command, now: int)
    ensures S.Run(h + StepsOf(Commanded(root, cmd, now))) == Suppressed(S.Run(h), root, cmd, now)
  {
    var more := StepsOf(Commanded(root, cmd, now));
    match cmd.op
    case Fetch => RunMore(h, more[0]);
    case Remove => RunMore(h, more[0]);
    case Rename => RunTwoMore(h, more[0], more[1]);
    case OtherCommand(_) => assert h + more == h;
  }

  lemma ActIsItsSteps(h: seq<S.Step>, act: Act)
    ensures S.Run(h + StepsOf(act)) == Acted(S.Run(h), act)
  {
    match act
    case Commanded(root, cmd, now) => CommandIsItsSteps(h, root, cmd, now);
    case Changed(ev, now) =>
      if StepsOf(act) == [] {
        assert h + StepsOf(act) == h;
      } else {
        RunMore(h, S.Look(ev.path, now));
      }
    case Swept(now) => RunMore(h, S.Gc(now));
  }

  lemma {:induction false} SuppressorIsHistory(acts: seq<Act>)
    ensures SuppressorAfter(acts) == S.Run(History(acts))
  {
    if acts != [] {
      var pre, last := acts[..|acts| - 1], acts[|acts| - 1];
      SuppressorIsHistory(pre);
      ActIsItsSteps(History(pre), last);
    }
  }

  // Over any history of the client with a clock that does not go back: a local write is withheld
  // exactly while some command's mark on the path is unexpired and, since the last mark without
  // content, none named content or one named this; a local removal exactly while some mark is
  // unexpired; and no other change is.
  lemma ChangeWithheldIff(acts: seq<Act>, ev: Event, now: int)
    requires S.Ordered(History(acts), now)
    ensures var h := History(acts);
            IsEcho(SuppressorAfter(acts), ev, now)
            <==> match ev.op
                 case Write =>
                   S.Unexpired(h, ev.path, now)
                   && ((forall x :: !S.Named(h, ev.path, x)) || S.Named(h, ev.path, ev.sha))
                 case Delete => S.Unexpired(h, ev.path, now)
                 case OtherOp(_) => false
  {
    SuppressorIsHistory(acts);
    S.ContentHits(History(acts), ev.path, ev.sha, now);
    S.HitIffUnexpired(History(acts), ev.path, now);
  }

  // After a fetch into a path that nothing marked, at the client's own root and within two
  // seconds: a write is withheld exactly when it is the fetched content, and a removal always.
  lemma FetchWithholdsItsContent(acts: seq<Act>, rel: seq<string>, cmd: Command, now: int, ev: Event, later: int)
    requires PlainPath(rel) && cmd.op == Fetch && cmd.sha != "" && cmd.path == P.Render(rel) && ev.path == cmd.path
    requires cmd.path !in SuppressorAfter(acts) && now <= later <= now + 2_000_000_000
    ensures IsEcho(SuppressorAfter(acts + [Commanded("", cmd, now)]), ev, later)
            <==> (ev.op == Write && ev.sha == cmd.sha) || ev.op == Delete
  {
    var all := acts + [Commanded("", cmd, now)];
    assert all[..|acts|] == acts;
    P.SplitPlain("");
    assert P.Components("") == [] by {
      assert [""][..0] == [];
    }
    JailPathIsSubPathIff("", rel);
    assert P.JoinPath("", cmd.path) == cmd.path;
  }
}
