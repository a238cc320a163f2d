/** What a reconnect diff sends, and what it does to the files of both sides
    (internal/server/syncengine/diff.go:55-121, engine.go:42-87, 151-229). */
module DiffEffects {
  import opened Prelude
  import opened Protocol
  import opened FileStateTable
  import opened Lww
  import opened ConflictName
  import opened Engine
  import opened SyncSystem
  import opened TwoWay
  import ConflictRuns
  import Mirror
  import R = ReconnectDiff

  // The sends of the i-th raised event, settled by the other side's row before the diff.
  function SendsOf(s: Server, peer: R.Peer, ev: Event, clock: R.Clock, i: nat): seq<Send>
    requires peer.pair in s.pairs
  {
    Delivered(Plan(s.pairs[peer.pair], R.ReportAt(peer, ev, clock, i), RowOf(ev, clock.event(i)),
                   Lookup(s.rows, OtherKey(ev))), clock.sends(i))
  }

  function SendsOfAll(s: Server, peer: R.Peer, evs: seq<Event>, clock: R.Clock): seq<Send>
    requires peer.pair in s.pairs
  {
    if evs == [] then []
    else SendsOfAll(s, peer, evs[..|evs| - 1], clock) + SendsOf(s, peer, evs[|evs| - 1], clock, |evs| - 1)
  }

  ghost predicate FromPeer(evs: seq<Event>, peer: R.Peer) {
    forall i :: 0 <= i < |evs| ==> evs[i].pair == peer.pair && evs[i].side == peer.side
  }

  // A diff sends exactly what each of its events makes the engine send against the rows there
  // were at the start: no event of a diff changes what another one sends.
  lemma {:induction false} DiffSendsExactly(s: Server, peer: R.Peer, evs: seq<Event>, clock: R.Clock)
    requires peer.pair in s.pairs && FromPeer(evs, peer)
    ensures R.HandleAll(s, peer, evs, clock).1 == SendsOfAll(s, peer, evs, clock)
    ensures R.HandleAll(s, peer, evs, clock).0.pairs == s.pairs
    ensures forall k: Key :: k.side != peer.side ==> Lookup(R.HandleAll(s, peer, evs, clock).0.rows, k) == Lookup(s.rows, k)
  {
    if evs != [] {
      var n := |evs| - 1;
      var pre := evs[..n];
      DiffSendsExactly(s, peer, pre, clock);
      var s1 := R.HandleAll(s, peer, pre, clock).0;
      assert OtherKey(evs[n]).side != peer.side;
      assert Lookup(s1.rows, OtherKey(evs[n])) == Lookup(s.rows, OtherKey(evs[n]));
    }
  }

  lemma {:induction false} SentByOne(s: Server, peer: R.Peer, evs: seq<Event>, clock: R.Clock, x: Send)
    requires peer.pair in s.pairs
    ensures x in SendsOfAll(s, peer, evs, clock) <==> exists i :: 0 <= i < |evs| && x in SendsOf(s, peer, evs[i], clock, i)
  {
    if evs != [] {
      var n := |evs| - 1;
      SentByOne(s, peer, evs[..n], clock, x);
      assert forall i :: 0 <= i < n ==> evs[..n][i] == evs[i];
    }
  }

  // The event a diff raises for a path: a write of a file that is unknown or known with other
  // content, or a removal of a file row that the snapshot lacks.
  ghost predicate Raises(t: Table, peer: R.Peer, snaps: seq<R.Snapshot>, ev: Event) {
    || (exists i :: 0 <= i < |snaps| && R.NeedsUpdate(t, peer, snaps[i]) && ev == R.WriteEvent(peer, snaps[i]))
    || (ev == R.DeleteEvent(peer, ev.path) && R.PeerKey(peer, ev.path) in t
        && R.Gone(snaps, ev.path, t[R.PeerKey(peer, ev.path)]))
  }

  lemma DiffEventsExact(t: Table, listed: seq<(Path, Row)>, peer: R.Peer, snaps: seq<R.Snapshot>, ev: Event)
    requires R.DistinctPaths(snaps) && Lists(listed, t, peer.pair, peer.side)
    ensures ev in R.DiffEvents(t, listed, peer, snaps) <==> Raises(t, peer, snaps, ev)
  {
    R.WriteEventsExact(t, peer, snaps);
    R.DeleteEventsExact(listed, peer, snaps);
    if ev in R.DeleteEvents(listed, peer, snaps) {
      var i :| 0 <= i < |listed| && R.Gone(snaps, listed[i].0, listed[i].1) && ev == R.DeleteEvent(peer, listed[i].0);
      assert Key(peer.pair, peer.side, listed[i].0) in t;
    }
    if ev == R.DeleteEvent(peer, ev.path) && R.PeerKey(peer, ev.path) in t && R.Gone(snaps, ev.path, t[R.PeerKey(peer, ev.path)]) {
      assert Named(listed, R.PeerKey(peer, ev.path).path);
      var i :| 0 <= i < |listed| && listed[i].0 == ev.path;
      assert t[Key(peer.pair, peer.side, listed[i].0)] == listed[i].1;
    }
  }

  // Path by path, for either kind of pair: what is sent about a path is what the event raised
  // for it makes the engine send, and nothing when none is raised.
  lemma SentAboutPath(s: Server, listed: seq<(Path, Row)>, peer: R.Peer, snaps: seq<R.Snapshot>, clock: R.Clock, x: Send)
    requires peer.pair in s.pairs && R.DistinctPaths(snaps) && Lists(listed, s.rows, peer.pair, peer.side)
    ensures var evs := R.DiffEvents(s.rows, listed, peer, snaps);
            x in R.HandleAll(s, peer, evs, clock).1
            <==> exists i :: 0 <= i < |evs| && Raises(s.rows, peer, snaps, evs[i]) && evs[i].path == x.cmd.path
                             && x in SendsOf(s, peer, evs[i], clock, i)
  {
    var evs := R.DiffEvents(s.rows, listed, peer, snaps);
    R.DiffEventsOfPeer(s.rows, listed, peer, snaps);
    DiffSendsExactly(s, peer, evs, clock);
    SentByOne(s, peer, evs, clock, x);
    forall i | 0 <= i < |evs| && x in SendsOf(s, peer, evs[i], clock, i)
      ensures Raises(s.rows, peer, snaps, evs[i]) && evs[i].path == x.cmd.path
    {
      assert evs[i] in evs;
      DiffEventsExact(s.rows, listed, peer, snaps, evs[i]);
      PlanStaysInPair(s.pairs[peer.pair], R.ReportAt(peer, evs[i], clock, i), RowOf(evs[i], clock.event(i)),
                      Lookup(s.rows, OtherKey(evs[i])));
    }
  }

  // The whole system after a diff.
  function Diffed(s: Sys, peer: R.Peer, evs: seq<Event>, clock: R.Clock): Sys {
    if evs == [] then s
    else
      var n := |evs| - 1;
      Next(Diffed(s, peer, evs[..n], clock), Handled(R.ReportAt(peer, evs[n], clock, n), clock.sends(n)))
  }

  lemma {:induction false} CommandsConcat(u: seq<Send>, v: seq<Send>, c: ClientId)
    ensures CommandsFor(u + v, c) == CommandsFor(u, c) + CommandsFor(v, c)
  {
    if v == [] {
      assert u + v == u;
    } else {
      CommandsConcat(u, v[..|v| - 1], c);
      assert (u + v)[..|u + v| - 1] == u + v[..|v| - 1];
    }
  }

  lemma DiffedOneMore(s: Sys, peer: R.Peer, evs: seq<Event>, ev: Event, clock: R.Clock)
    ensures Diffed(s, peer, evs + [ev], clock)
            == Next(Diffed(s, peer, evs, clock), Handled(R.ReportAt(peer, ev, clock, |evs|), clock.sends(|evs|)))
  {
    assert (evs + [ev])[..|evs|] == evs;
  }

  lemma HandledSends(t: Sys, r: Report, budget: nat, s: Sys, before: seq<Send>, c: ClientId)
    requires t.trees == s.trees && Queue(t, c) == Queue(s, c) + CommandsFor(before, c)
    ensures var u := Next(t, Handled(r, budget));
            var out := Handle(t.server, r, budget);
            && u.server == out.server && u.trees == s.trees
            && Queue(u, c) == Queue(s, c) + CommandsFor(before + out.sent, c)
  {
    AfterHandled(t, r, budget, c);
    CommandsConcat(before, Handle(t.server, r, budget).sent, c);
    ConcatAssoc(Queue(s, c), CommandsFor(before, c), CommandsFor(Handle(t.server, r, budget).sent, c));
  }

  lemma ConcatAssoc(p: seq<Command>, q: seq<Command>, r: seq<Command>)
    ensures p + q + r == p + (q + r)
  {
  }

  lemma {:induction false} DiffedIsHandleAll(s: Sys, peer: R.Peer, evs: seq<Event>, clock: R.Clock, c: ClientId)
    ensures Diffed(s, peer, evs, clock).server == R.HandleAll(s.server, peer, evs, clock).0
    ensures Diffed(s, peer, evs, clock).trees == s.trees
    ensures Queue(Diffed(s, peer, evs, clock), c)
            == Queue(s, c) + CommandsFor(R.HandleAll(s.server, peer, evs, clock).1, c)
  {
    if evs != [] {
      var n := |evs| - 1;
      var pre, last := evs[..n], evs[n];
      assert evs == pre + [last];
      DiffedIsHandleAll(s, peer, pre, clock, c);
      DiffedOneMore(s, peer, pre, last, clock);
      R.HandleAllOneMore(s.server, peer, pre, last, clock);
      HandledSends(Diffed(s, peer, pre, clock), R.ReportAt(peer, last, clock, n), clock.sends(n), s,
                   R.HandleAll(s.server, peer, pre, clock).1, c);
    }
  }

  lemma {:induction false} UntouchedContent(tree: Tree, q: seq<Command>, slot: Slot)
    requires Mirror.NoneTouches(q, slot)
    ensures At(ExecAll(tree, q), slot) == At(tree, slot)
  {
    if q != [] {
      var n := |q| - 1;
      assert q[n] in q && forall x :: x in q[..n] ==> x in q;
      UntouchedContent(tree, q[..n], slot);
      ExecLocal(ExecAll(tree, q[..n]), q[n], true, slot);
    }
  }

  // No conflict of the report would park a file on the path.
  ghost predicate KeepsOff(r: Report, path: Path) {
    forall d :: ConflictFilename(r.ev.path, d, r.conflictNow) != path
  }

  lemma OtherReportLeaves(s: Sys, r: Report, budget: nat, path: Path, c: ClientId)
    requires ValidPairs(s.server.pairs) && r.ev.path != path && KeepsOff(r, path)
    ensures var t := Next(s, Handled(r, budget));
            && At(View(t, c), Slot(r.ev.pair, path)) == At(View(s, c), Slot(r.ev.pair, path))
            && (forall side :: Lookup(t.server.rows, Key(r.ev.pair, side, path))
                               == Lookup(s.server.rows, Key(r.ev.pair, side, path)))
            && t.server.pairs == s.server.pairs
  {
    AfterHandled(s, r, budget, c);
    ViewAfterReport(s, r, budget, c);
    var more := CommandsFor(Handle(s.server, r, budget).sent, c);
    forall x | x in more ensures Slot(r.ev.pair, path) !in Touches(x) {
      if Slot(r.ev.pair, path) in Touches(x) {
        ConflictRuns.QueuedNames(s.server, r, budget, c, x, r.ev.pair, path);
      }
    }
    UntouchedContent(View(s, c), more, Slot(r.ev.pair, path));
  }

  ghost predicate AllKeepOff(peer: R.Peer, evs: seq<Event>, clock: R.Clock, path: Path) {
    forall i :: 0 <= i < |evs| ==> KeepsOff(R.ReportAt(peer, evs[i], clock, i), path)
  }

  // The state is as before for a path, its rows and both clients' content.
  ghost predicate SameAt(s: Sys, t: Sys, p: PairId, path: Path, c: ClientId) {
    && At(View(t, c), Slot(p, path)) == At(View(s, c), Slot(p, path))
    && (forall side :: Lookup(t.server.rows, Key(p, side, path)) == Lookup(s.server.rows, Key(p, side, path)))
    && t.server.pairs == s.server.pairs
  }

  lemma {:induction false} DiffLeaves(s: Sys, peer: R.Peer, evs: seq<Event>, clock: R.Clock, path: Path, c: ClientId)
    requires ValidPairs(s.server.pairs) && FromPeer(evs, peer) && AllKeepOff(peer, evs, clock, path)
    requires forall i :: 0 <= i < |evs| ==> evs[i].path != path
    ensures SameAt(s, Diffed(s, peer, evs, clock), peer.pair, path, c)
  {
    if evs != [] {
      var n := |evs| - 1;
      var pre := evs[..n];
      assert forall i :: 0 <= i < n ==> pre[i] == evs[i];
      DiffLeaves(s, peer, pre, clock, path, c);
      OtherReportLeaves(Diffed(s, peer, pre, clock), R.ReportAt(peer, evs[n], clock, n), clock.sends(n), path, c);
    }
  }

  lemma ElsewhereOnly(evs: seq<Event>, peer: R.Peer, i: nat)
    requires FromPeer(evs, peer) && R.DistinctKeys(evs) && i < |evs|
    ensures forall j :: 0 <= j < |evs| && j != i ==> evs[j].path != evs[i].path
  {
    forall j | 0 <= j < |evs| && j != i ensures evs[j].path != evs[i].path {
      assert KeyOf(evs[j]) != KeyOf(evs[i]);
    }
  }

  // Around the event of a path, the rest of a diff leaves the path alone.
  lemma {:induction false} AroundEvent(s: Sys, peer: R.Peer, evs: seq<Event>, clock: R.Clock, i: nat, c: ClientId)
    requires ValidPairs(s.server.pairs) && FromPeer(evs, peer) && R.DistinctKeys(evs) && i < |evs|
    requires AllKeepOff(peer, evs, clock, evs[i].path)
    ensures SameAt(s, Diffed(s, peer, evs[..i], clock), peer.pair, evs[i].path, c)
    ensures SameAt(Diffed(s, peer, evs[..i + 1], clock), Diffed(s, peer, evs, clock), peer.pair, evs[i].path, c)
  {
    var n := |evs| - 1;
    var pre, last, path := evs[..n], evs[n], evs[i].path;
    ElsewhereOnly(evs, peer, i);
    PrefixOk(peer, evs, clock, path);
    if i == n {
      assert evs[..i + 1] == evs && forall j :: 0 <= j < n ==> pre[j] == evs[j];
      DiffLeaves(s, peer, pre, clock, path, c);
    } else {
      assert evs == pre + [last] && pre[i] == evs[i] && pre[..i] == evs[..i] && pre[..i + 1] == evs[..i + 1];
      AroundEvent(s, peer, pre, clock, i, c);
      DiffedPairs(s, peer, pre, clock);
      DiffedOneMore(s, peer, pre, last, clock);
      OtherReportLeaves(Diffed(s, peer, pre, clock), R.ReportAt(peer, last, clock, n), clock.sends(n), path, c);
    }
  }

  lemma PrefixOk(peer: R.Peer, evs: seq<Event>, clock: R.Clock, path: Path)
    requires evs != [] && FromPeer(evs, peer) && R.DistinctKeys(evs) && AllKeepOff(peer, evs, clock, path)
    ensures var pre := evs[..|evs| - 1]; FromPeer(pre, peer) && R.DistinctKeys(pre) && AllKeepOff(peer, pre, clock, path)
  {
    assert forall j :: 0 <= j < |evs| - 1 ==> evs[..|evs| - 1][j] == evs[j];
  }

  lemma DiffedPairs(s: Sys, peer: R.Peer, evs: seq<Event>, clock: R.Clock)
    ensures Diffed(s, peer, evs, clock).server.pairs == s.server.pairs
  {
    if evs != [] {
      var n := |evs| - 1;
      DiffedPairs(s, peer, evs[..n], clock);
      AfterHandled(Diffed(s, peer, evs[..n], clock), R.ReportAt(peer, evs[n], clock, n), clock.sends(n), "");
    }
  }

  // The same, with the event's own step in the middle.
  lemma AtEvent(s: Sys, peer: R.Peer, evs: seq<Event>, clock: R.Clock, i: nat, c: ClientId)
    requires ValidPairs(s.server.pairs) && FromPeer(evs, peer) && R.DistinctKeys(evs) && i < |evs|
    requires AllKeepOff(peer, evs, clock, evs[i].path)
    ensures var mid := Diffed(s, peer, evs[..i], clock);
            var step := Handled(R.ReportAt(peer, evs[i], clock, i), clock.sends(i));
            && SameAt(s, mid, peer.pair, evs[i].path, c)
            && SameAt(Next(mid, step), Diffed(s, peer, evs, clock), peer.pair, evs[i].path, c)
  {
    AroundEvent(s, peer, evs, clock, i, c);
    DiffedUpTo(s, peer, evs, clock, i);
  }

  lemma DiffedUpTo(s: Sys, peer: R.Peer, evs: seq<Event>, clock: R.Clock, i: nat)
    requires i < |evs|
    ensures Diffed(s, peer, evs[..i + 1], clock)
            == Next(Diffed(s, peer, evs[..i], clock), Handled(R.ReportAt(peer, evs[i], clock, i), clock.sends(i)))
  {
    assert evs[..i + 1] == evs[..i] + [evs[i]];
    DiffedOneMore(s, peer, evs[..i], evs[i], clock);
  }

  // A report's effect does not depend on what is the same before and after.
  lemma EffectCarries(s: Sys, mid: Sys, end: Sys, r: Report, budget: nat)
    requires TwoWayReport(s.server, r) && WellFormed(r.ev) && RowInOrder(s.server, r) && budget >= 3
    requires SameAt(s, mid, r.ev.pair, r.ev.path, r.src) && SameAt(s, mid, r.ev.pair, r.ev.path, Peer(s.server, r))
    requires SameAt(Next(mid, Handled(r, budget)), end, r.ev.pair, r.ev.path, r.src)
    requires SameAt(Next(mid, Handled(r, budget)), end, r.ev.pair, r.ev.path, Peer(s.server, r))
    ensures At(View(end, r.src), SlotOf(r.ev)) == MineAfter(s.server, r, At(View(s, r.src), SlotOf(r.ev)))
    ensures At(View(end, Peer(s.server, r)), SlotOf(r.ev))
            == TheirsAfter(s.server, r, At(View(s, Peer(s.server, r)), SlotOf(r.ev)))
  {
    assert Lookup(mid.server.rows, OtherKey(r.ev)) == Lookup(s.server.rows, OtherKey(r.ev));
    SameDecision(s.server, mid.server, r);
    ReportEffect(mid, r, budget);
  }

  lemma SameDecision(s: Server, t: Server, r: Report)
    requires TwoWayReport(s, r) && s.pairs == t.pairs && Lookup(s.rows, OtherKey(r.ev)) == Lookup(t.rows, OtherKey(r.ev))
    ensures TwoWayReport(t, r) && Peer(t, r) == Peer(s, r) && (RowInOrder(s, r) ==> RowInOrder(t, r))
    ensures InConflict(s, r) <==> InConflict(t, r)
    ensures forall x :: MineAfter(s, r, x) == MineAfter(t, r, x) && TheirsAfter(s, r, x) == TheirsAfter(t, r, x)
  {
  }

  // A diff of a two-way pair, with sends that get through: for the path of each event, what both
  // sides hold once all has run is what that one report makes of it.
  lemma TwoWayDiffEffect(s: Sys, peer: R.Peer, evs: seq<Event>, clock: R.Clock, i: nat)
    requires FromPeer(evs, peer) && R.DistinctKeys(evs) && i < |evs| && AllKeepOff(peer, evs, clock, evs[i].path)
    requires var r := R.ReportAt(peer, evs[i], clock, i);
             TwoWayReport(s.server, r) && WellFormed(r.ev) && RowInOrder(s.server, r) && clock.sends(i) >= 3
    ensures var r := R.ReportAt(peer, evs[i], clock, i);
            var end, slot, other := Diffed(s, peer, evs, clock), SlotOf(evs[i]), Peer(s.server, r);
            && At(View(end, peer.client), slot) == MineAfter(s.server, r, At(View(s, peer.client), slot))
            && At(View(end, other), slot) == TheirsAfter(s.server, r, At(View(s, other), slot))
  {
    var r := R.ReportAt(peer, evs[i], clock, i);
    AtEvent(s, peer, evs, clock, i, peer.client);
    AtEvent(s, peer, evs, clock, i, Peer(s.server, r));
    EffectCarries(s, Diffed(s, peer, evs[..i], clock), Diffed(s, peer, evs, clock), r, clock.sends(i));
  }

  // So the two sides agree on a path after the diff exactly when that report makes them, or, for a
  // path without an event, when they agreed before.
  lemma AgreeAfterDiffIff(s: Sys, peer: R.Peer, evs: seq<Event>, clock: R.Clock, i: nat)
    requires FromPeer(evs, peer) && R.DistinctKeys(evs) && i < |evs| && AllKeepOff(peer, evs, clock, evs[i].path)
    requires var r := R.ReportAt(peer, evs[i], clock, i);
             TwoWayReport(s.server, r) && WellFormed(r.ev) && RowInOrder(s.server, r) && clock.sends(i) >= 3
    ensures var r := R.ReportAt(peer, evs[i], clock, i);
            var end, slot, other := Diffed(s, peer, evs, clock), SlotOf(evs[i]), Peer(s.server, r);
            At(View(end, peer.client), slot) == At(View(end, other), slot)
            <==> AgreeAfter(s.server, r, At(View(s, peer.client), slot), At(View(s, other), slot))
  {
    TwoWayDiffEffect(s, peer, evs, clock, i);
  }

  // What a diff means for a path the other side has reported more recently: the other side's file
  // is replaced by the snapshot's exactly when the diff raises a write for the path and the other
  // side's row does not name the same content. The rows' times do not matter.
  lemma DiffReplacesIff(s: Sys, listed: seq<(Path, Row)>, peer: R.Peer, snaps: seq<R.Snapshot>, clock: R.Clock, i: nat)
    requires ValidPairs(s.server.pairs) && R.DistinctPaths(snaps) && Lists(listed, s.server.rows, peer.pair, peer.side)
    requires i < |snaps| && !snaps[i].isDir && snaps[i].sha != ""
    requires var evs := R.DiffEvents(s.server.rows, listed, peer, snaps);
             && AllKeepOff(peer, evs, clock, snaps[i].path)
             && forall j :: 0 <= j < |evs| && evs[j].path == snaps[i].path ==>
                  var r := R.ReportAt(peer, evs[j], clock, j);
                  TwoWayReport(s.server, r) && RowInOrder(s.server, r) && clock.sends(j) >= 3
    requires peer.pair in s.server.pairs
    ensures var end := Diffed(s, peer, R.DiffEvents(s.server.rows, listed, peer, snaps), clock);
            var slot := Slot(peer.pair, snaps[i].path);
            var other := ClientOf(s.server.pairs[peer.pair], OtherSide(peer.side));
            var row := Lookup(s.server.rows, Key(peer.pair, OtherSide(peer.side), snaps[i].path));
            At(View(end, other), slot)
            == if R.NeedsUpdate(s.server.rows, peer, snaps[i]) && (row.None? || row.value.sha != Some(snaps[i].sha))
               then Some(snaps[i].sha) else At(View(s, other), slot)
  {
    var t, path := s.server.rows, snaps[i].path;
    var evs := R.DiffEvents(t, listed, peer, snaps);
    var other := ClientOf(s.server.pairs[peer.pair], OtherSide(peer.side));
    R.DiffEventsDistinct(t, listed, peer, snaps);
    R.DiffEventsOfPeer(t, listed, peer, snaps);
    assert FromPeer(evs, peer) by {
      assert forall j :: 0 <= j < |evs| ==> evs[j] in evs;
    }
    if R.NeedsUpdate(t, peer, snaps[i]) {
      var ev := R.WriteEvent(peer, snaps[i]);
      assert Raises(t, peer, snaps, ev);
      DiffEventsExact(t, listed, peer, snaps, ev);
      var j :| 0 <= j < |evs| && evs[j] == ev;
      TwoWayDiffEffect(s, peer, evs, clock, j);
    } else {
      forall j | 0 <= j < |evs| ensures evs[j].path != path {
        assert evs[j] in evs;
        DiffEventsExact(t, listed, peer, snaps, evs[j]);
        SilentPath(t, peer, snaps, i, evs[j]);
      }
      DiffLeaves(s, peer, evs, clock, path, other);
    }
  }

  // A file of the snapshot that needs no update has no event.
  lemma SilentPath(t: Table, peer: R.Peer, snaps: seq<R.Snapshot>, i: nat, ev: Event)
    requires R.DistinctPaths(snaps) && i < |snaps| && !R.NeedsUpdate(t, peer, snaps[i]) && Raises(t, peer, snaps, ev)
    ensures ev.path != snaps[i].path
  {
    if ev.path == snaps[i].path {
      assert R.Present(snaps, snaps[i].path);
    }
  }

  // A newer report undone: the other side reported its content, the fetch for it was lost, and
  // this side, which has no row for the file, still holds older content. Its diff replaces the
  // newer content on the other side.
  lemma DiffUndoesNewerReport(s: Sys, listed: seq<(Path, Row)>, peer: R.Peer, snaps: seq<R.Snapshot>, clock: R.Clock, i: nat)
    requires ValidPairs(s.server.pairs) && R.DistinctPaths(snaps) && Lists(listed, s.server.rows, peer.pair, peer.side)
    requires i < |snaps| && !snaps[i].isDir && snaps[i].sha != "" && peer.pair in s.server.pairs
    requires var evs := R.DiffEvents(s.server.rows, listed, peer, snaps);
             && AllKeepOff(peer, evs, clock, snaps[i].path)
             && forall j :: 0 <= j < |evs| && evs[j].path == snaps[i].path ==>
                  var r := R.ReportAt(peer, evs[j], clock, j);
                  TwoWayReport(s.server, r) && RowInOrder(s.server, r) && clock.sends(j) >= 3
    requires var newer := Key(peer.pair, OtherSide(peer.side), snaps[i].path);
             newer in s.server.rows && s.server.rows[newer].sha != Some(snaps[i].sha)
    requires R.PeerKey(peer, snaps[i].path) !in s.server.rows
    ensures var end := Diffed(s, peer, R.DiffEvents(s.server.rows, listed, peer, snaps), clock);
            At(View(end, ClientOf(s.server.pairs[peer.pair], OtherSide(peer.side))), Slot(peer.pair, snaps[i].path))
            == Some(snaps[i].sha)
  {
    DiffReplacesIff(s, listed, peer, snaps, clock, i);
  }

  // A file missing from this side's snapshot, of which its row says it is there: it comes back if
  // the other side's row is a write, with that row's content; otherwise it goes from the other
  // side if that has no row. So a fetch lost behind the rename of a conflict is sent again.
  lemma MissingFileEffect(s: Sys, listed: seq<(Path, Row)>, peer: R.Peer, snaps: seq<R.Snapshot>, clock: R.Clock, path: Path)
    requires ValidPairs(s.server.pairs) && R.DistinctPaths(snaps) && Lists(listed, s.server.rows, peer.pair, peer.side)
    requires R.PeerKey(peer, path) in s.server.rows && R.Gone(snaps, path, s.server.rows[R.PeerKey(peer, path)])
    requires var evs := R.DiffEvents(s.server.rows, listed, peer, snaps);
             && AllKeepOff(peer, evs, clock, path)
             && forall j :: 0 <= j < |evs| && evs[j].path == path ==>
                  var r := R.ReportAt(peer, evs[j], clock, j);
                  TwoWayReport(s.server, r) && RowInOrder(s.server, r) && clock.sends(j) >= 3
    requires peer.pair in s.server.pairs
    ensures var end := Diffed(s, peer, R.DiffEvents(s.server.rows, listed, peer, snaps), clock);
            var slot := Slot(peer.pair, path);
            var other := ClientOf(s.server.pairs[peer.pair], OtherSide(peer.side));
            var row := Lookup(s.server.rows, Key(peer.pair, OtherSide(peer.side), path));
            && At(View(end, peer.client), slot)
               == (if row.Some? && row.value.op == Write then row.value.sha else At(View(s, peer.client), slot))
            && At(View(end, other), slot) == (if row.None? then None else At(View(s, other), slot))
  {
    var evs := R.DiffEvents(s.server.rows, listed, peer, snaps);
    R.DiffEventsDistinct(s.server.rows, listed, peer, snaps);
    R.DiffEventsOfPeer(s.server.rows, listed, peer, snaps);
    assert FromPeer(evs, peer) by {
      assert forall j :: 0 <= j < |evs| ==> evs[j] in evs;
    }
    var ev := R.DeleteEvent(peer, path);
    assert Raises(s.server.rows, peer, snaps, ev);
    DiffEventsExact(s.server.rows, listed, peer, snaps, ev);
    var j :| 0 <= j < |evs| && evs[j] == ev;
    TwoWayDiffEffect(s, peer, evs, clock, j);
  }

  // What a snapshot says of a path that is not one of its directories.
  function Wanted(snaps: seq<R.Snapshot>, path: Path): Option<Sha> {
    if snaps == [] then None
    else if snaps[|snaps| - 1].path == path then Some(snaps[|snaps| - 1].sha)
    else Wanted(snaps[..|snaps| - 1], path)
  }

  lemma {:induction false} WantedIs(snaps: seq<R.Snapshot>, path: Path)
    requires R.DistinctPaths(snaps)
    ensures forall i :: 0 <= i < |snaps| && snaps[i].path == path ==> Wanted(snaps, path) == Some(snaps[i].sha)
    ensures !R.Present(snaps, path) ==> Wanted(snaps, path) == None
  {
    if snaps != [] {
      var n := |snaps| - 1;
      WantedIs(snaps[..n], path);
      assert forall i :: 0 <= i < n ==> snaps[..n][i] == snaps[i];
      if R.Present(snaps[..n], path) {
        var i :| 0 <= i < n && snaps[..n][i].path == path;
        assert snaps[i].path == path;
      }
      assert snaps[n].path == path ==> R.Present(snaps, path);
    }
  }

  lemma OneWayReportEffect(s: Sys, r: Report, src: Side, budget: nat)
    requires ValidPairs(s.server.pairs) && src in {A, B} && Mirror.PassesOn(s.server, r.ev, src) && budget >= 1
    ensures At(View(Next(s, Handled(r, budget)), Mirror.Destination(s.server, r.ev.pair, src)), SlotOf(r.ev)) == Mirror.Content(r.ev)
  {
    var dst := Mirror.Destination(s.server, r.ev.pair, src);
    var t := Next(s, Handled(r, budget));
    Mirror.PassedOnQueue(s, r, budget, src);
    var cmd := Queue(t, dst)[|Queue(s, dst)|];
    assert Queue(t, dst) == Queue(s, dst) + [cmd];
    ExecAllConcat(TreeOf(s, dst), Queue(s, dst), [cmd]);
    ExecAllOne(View(s, dst), cmd);
  }

  ghost predicate RaisedOn(t: Table, peer: R.Peer, snaps: seq<R.Snapshot>, path: Path) {
    exists ev :: Raises(t, peer, snaps, ev) && ev.path == path
  }

  lemma RaisedTellsWanted(t: Table, peer: R.Peer, snaps: seq<R.Snapshot>, ev: Event)
    requires R.DistinctPaths(snaps) && Raises(t, peer, snaps, ev)
    ensures Mirror.Content(ev) == Wanted(snaps, ev.path)
  {
    WantedIs(snaps, ev.path);
  }

  // When a diff of a one-way pair's source makes good what was lost on the way, for any snapshot:
  // the destination, once its queue has run, has what the snapshot says of a path exactly when
  // the diff raises an event for the path or the destination has it already.
  lemma SourceDiffRestoresIff(s: Sys, listed: seq<(Path, Row)>, peer: R.Peer, snaps: seq<R.Snapshot>, clock: R.Clock, path: Path)
    requires ValidPairs(s.server.pairs) && peer.pair in s.server.pairs && peer.side in {A, B}
    requires Mirror.OneWayFrom(s.server.pairs[peer.pair], peer.side)
    requires R.DistinctPaths(snaps) && Lists(listed, s.server.rows, peer.pair, peer.side)
    requires var evs := R.DiffEvents(s.server.rows, listed, peer, snaps);
             AllKeepOff(peer, evs, clock, path) && forall i: nat :: clock.sends(i) >= 1
    ensures var end := Diffed(s, peer, R.DiffEvents(s.server.rows, listed, peer, snaps), clock);
            var dst := Mirror.Destination(s.server, peer.pair, peer.side);
            At(View(end, dst), Slot(peer.pair, path)) == Wanted(snaps, path)
            <==> RaisedOn(s.server.rows, peer, snaps, path) || At(View(s, dst), Slot(peer.pair, path)) == Wanted(snaps, path)
  {
    var t := s.server.rows;
    var evs := R.DiffEvents(t, listed, peer, snaps);
    R.DiffEventsDistinct(t, listed, peer, snaps);
    R.DiffEventsOfPeer(t, listed, peer, snaps);
    assert FromPeer(evs, peer) by {
      assert forall j :: 0 <= j < |evs| ==> evs[j] in evs;
    }
    if RaisedOn(t, peer, snaps, path) {
      var ev :| Raises(t, peer, snaps, ev) && ev.path == path;
      DiffEventsExact(t, listed, peer, snaps, ev);
      var i :| 0 <= i < |evs| && evs[i] == ev;
      OneWayEventEffect(s, peer, evs, clock, i);
      RaisedTellsWanted(t, peer, snaps, ev);
    } else {
      forall j | 0 <= j < |evs| ensures evs[j].path != path {
        assert evs[j] in evs;
        DiffEventsExact(t, listed, peer, snaps, evs[j]);
      }
      DiffLeaves(s, peer, evs, clock, path, Mirror.Destination(s.server, peer.pair, peer.side));
    }
  }

  // On a one-way pair whose sends get through, a file that was removed at the source while its
  // client was away goes from the destination.
  lemma MissingFileGoes(s: Sys, listed: seq<(Path, Row)>, peer: R.Peer, snaps: seq<R.Snapshot>, clock: R.Clock, path: Path)
    requires ValidPairs(s.server.pairs) && peer.pair in s.server.pairs && peer.side in {A, B}
    requires Mirror.OneWayFrom(s.server.pairs[peer.pair], peer.side)
    requires R.DistinctPaths(snaps) && Lists(listed, s.server.rows, peer.pair, peer.side)
    requires var k := Key(peer.pair, peer.side, path);
             k in s.server.rows && s.server.rows[k].op == Write && !s.server.rows[k].isDir
    requires forall i :: 0 <= i < |snaps| ==> snaps[i].path != path
    requires AllKeepOff(peer, R.DiffEvents(s.server.rows, listed, peer, snaps), clock, path)
    requires forall i: nat :: clock.sends(i) >= 1
    ensures var end := Diffed(s, peer, R.DiffEvents(s.server.rows, listed, peer, snaps), clock);
            At(View(end, Mirror.Destination(s.server, peer.pair, peer.side)), Slot(peer.pair, path)) == None
  {
    var evs := R.DiffEvents(s.server.rows, listed, peer, snaps);
    R.MissingPathRaises(s.server.rows, listed, peer, snaps, path);
    R.AboutFinds(evs, path);
    var ev := R.About(evs, path)[0];
    assert ev in evs;
    var i :| 0 <= i < |evs| && evs[i] == ev;
    R.DiffEventsDistinct(s.server.rows, listed, peer, snaps);
    R.DiffEventsOfPeer(s.server.rows, listed, peer, snaps);
    assert FromPeer(evs, peer) by {
      assert forall j :: 0 <= j < |evs| ==> evs[j] in evs;
    }
    OneWayEventEffect(s, peer, evs, clock, i);
  }

  lemma OneWayEventEffect(s: Sys, peer: R.Peer, evs: seq<Event>, clock: R.Clock, i: nat)
    requires ValidPairs(s.server.pairs) && peer.pair in s.server.pairs && peer.side in {A, B}
    requires Mirror.OneWayFrom(s.server.pairs[peer.pair], peer.side)
    requires FromPeer(evs, peer) && R.DistinctKeys(evs) && i < |evs| && AllKeepOff(peer, evs, clock, evs[i].path)
    requires clock.sends(i) >= 1
    ensures At(View(Diffed(s, peer, evs, clock), Mirror.Destination(s.server, peer.pair, peer.side)), SlotOf(evs[i]))
            == Mirror.Content(evs[i])
  {
    AtEvent(s, peer, evs, clock, i, Mirror.Destination(s.server, peer.pair, peer.side));
    OneWayReportEffect(Diffed(s, peer, evs[..i], clock), R.ReportAt(peer, evs[i], clock, i), peer.side, clock.sends(i));
  }
}
