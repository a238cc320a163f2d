/** The reconnect diff (internal/server/syncengine/diff.go). */
module ReconnectDiff {
  import opened Prelude
  import opened Protocol
  import opened FileStateTable
  import opened Engine
  import Mirror

  datatype Snapshot = Snapshot(path: Path, sha: Sha, size: int, modTime: int, isDir: bool)

  // Whose state is compared, and with what.
  datatype Peer = Peer(client: ClientId, pair: PairId, side: Side)

  // What the i-th raised event reads from the clock, and how many of its sends get through
  // before one fails: each event tries its connections afresh.
  datatype Clock = Clock(event: nat -> int, conflict: nat -> nat, sends: nat -> nat)

  function WriteEvent(peer: Peer, f: Snapshot): Event {
    FileChanged(peer.pair, peer.side, f.path, f.sha, f.size, f.modTime, Write, false)
  }

  function DeleteEvent(peer: Peer, path: Path): Event {
    FileChanged(peer.pair, peer.side, path, "", 0, 0, Delete, false)
  }

  function PeerKey(peer: Peer, path: Path): Key { Key(peer.pair, peer.side, path) }

  // A file the table does not know, or knows with other content; a row without content
  // (a tombstone) asks for nothing.
  predicate NeedsUpdate(t: Table, peer: Peer, f: Snapshot) {
    && !f.isDir
    && var k := PeerKey(peer, f.path);
       k in t ==> t[k].sha.Some? && t[k].sha.value != f.sha
  }

  predicate Present(snaps: seq<Snapshot>, path: Path) {
    exists i :: 0 <= i < |snaps| && snaps[i].path == path
  }

  predicate Gone(snaps: seq<Snapshot>, path: Path, row: Row) {
    !row.isDir && !Present(snaps, path) && row.op != Delete
  }

  function WriteEvents(t: Table, peer: Peer, snaps: seq<Snapshot>): seq<Event> {
    if snaps == [] then []
    else
      var f := snaps[|snaps| - 1];
      WriteEvents(t, peer, snaps[..|snaps| - 1]) + if NeedsUpdate(t, peer, f) then [WriteEvent(peer, f)] else []
  }

  function DeleteEvents(listed: seq<(Path, Row)>, peer: Peer, snaps: seq<Snapshot>): seq<Event> {
    if listed == [] then []
    else
      var (path, row) := listed[|listed| - 1];
      DeleteEvents(listed[..|listed| - 1], peer, snaps)
      + if Gone(snaps, path, row) then [DeleteEvent(peer, path)] else []
  }

  function DiffEvents(t: Table, listed: seq<(Path, Row)>, peer: Peer, snaps: seq<Snapshot>): seq<Event> {
    WriteEvents(t, peer, snaps) + DeleteEvents(listed, peer, snaps)
  }

  function ReportAt(peer: Peer, ev: Event, clock: Clock, i: nat): Report {
    Report(peer.client, ev, clock.event(i), clock.conflict(i))
  }

  // Raising the events one after the other; an error of one is logged and the rest go on.
  function HandleAll(s: Server, peer: Peer, evs: seq<Event>, clock: Clock): (Server, seq<Send>) {
    if evs == [] then (s, [])
    else
      var n := |evs| - 1;
      var (s1, sent1) := HandleAll(s, peer, evs[..n], clock);
      var out := Handle(s1, ReportAt(peer, evs[n], clock, n), clock.sends(n));
      (out.server, sent1 + out.sent)
  }

  method ApplyDiff(e: Engine, peer: Peer, snaps: seq<Snapshot>, clock: Clock)
    returns (ghost listed: seq<(Path, Row)>)
    modifies e.db, e.sender
    ensures Lists(listed, old(e.db.fileState), peer.pair, peer.side)
    ensures var all := HandleAll(old(e.State()), peer, DiffEvents(old(e.db.fileState), listed, peer, snaps), clock);
            e.State() == all.0 && e.sender.log == old(e.sender.log) + all.1
  {
    var dbStates := e.db.ListFileStates(peer.pair, peer.side);
    listed := dbStates;
    var dbByPath := IndexByPath(dbStates);
    var clientByPath := PathsOf(snaps);
    var n := RaiseWrites(e, peer, snaps, dbStates, dbByPath, clock);
    RaiseDeletes(e, peer, snaps, dbStates, clientByPath, clock, n,
                 old(e.State()), old(e.sender.log), WriteEvents(old(e.db.fileState), peer, snaps));
  }

  ghost predicate Indexes(byPath: map<Path, Row>, rows: seq<(Path, Row)>) {
    && (forall path :: path in byPath <==> Named(rows, path))
    && (forall j :: 0 <= j < |rows| ==> rows[j].0 in byPath && byPath[rows[j].0] == rows[j].1)
  }

  method IndexByPath(dbStates: seq<(Path, Row)>) returns (dbByPath: map<Path, Row>)
    requires forall i, j :: 0 <= i < j < |dbStates| ==> dbStates[i].0 != dbStates[j].0
    ensures Indexes(dbByPath, dbStates)
  {
    dbByPath := map[];
    for i := 0 to |dbStates|
      invariant Indexes(dbByPath, dbStates[..i])
    {
      NamedOneMore(dbStates, i);
      dbByPath := dbByPath[dbStates[i].0 := dbStates[i].1];
    }
    assert dbStates[..|dbStates|] == dbStates;
  }

  method PathsOf(snaps: seq<Snapshot>) returns (clientByPath: set<Path>)
    ensures forall path :: path in clientByPath <==> Present(snaps, path)
  {
    clientByPath := {};
    for i := 0 to |snaps|
      invariant forall path :: path in clientByPath <==> Present(snaps[..i], path)
    {
      PresentOneMore(snaps, i);
      clientByPath := clientByPath + {snaps[i].path};
    }
    assert snaps[..|snaps|] == snaps;
  }

  // The loop over the snapshot. n counts the clock readings taken.
  method RaiseWrites(e: Engine, peer: Peer, snaps: seq<Snapshot>, ghost dbStates: seq<(Path, Row)>,
                     dbByPath: map<Path, Row>, clock: Clock) returns (n: nat)
    requires Lists(dbStates, e.db.fileState, peer.pair, peer.side)
    requires Indexes(dbByPath, dbStates)
    modifies e.db, e.sender
    ensures n == |WriteEvents(old(e.db.fileState), peer, snaps)|
    ensures Raised(e, old(e.State()), old(e.sender.log), peer,
                   WriteEvents(old(e.db.fileState), peer, snaps), clock)
  {
    ghost var t, s, log := e.db.fileState, e.State(), e.sender.log;
    n := 0;
    assert HandleAll(s, peer, [], clock) == (s, []);
    for i := 0 to |snaps|
      invariant n == |WriteEvents(t, peer, snaps[..i])|
      invariant Raised(e, s, log, peer, WriteEvents(t, peer, snaps[..i]), clock)
    {
      var f := snaps[i];
      WriteEventsOneMore(t, peer, snaps, i);
      if f.isDir {
        continue;
      }
      var needUpdate := f.path !in dbByPath;
      if f.path in dbByPath {
        var sha := dbByPath[f.path].sha;
        needUpdate := sha.Some? && sha.value != f.sha;
      }
      ListedRow(dbStates, t, peer, f.path, dbByPath);
      if !needUpdate {
        continue;
      }
      n := Raise(e, peer, WriteEvent(peer, f), clock, n, s, log, WriteEvents(t, peer, snaps[..i]));
    }
    assert snaps[..|snaps|] == snaps;
  }

  // The loop over the rows read at the start.
  method RaiseDeletes(e: Engine, peer: Peer, snaps: seq<Snapshot>, dbStates: seq<(Path, Row)>,
                      clientByPath: set<Path>, clock: Clock, n: nat,
                      ghost s: Server, ghost log: seq<Send>, ghost writes: seq<Event>)
    requires forall path :: path in clientByPath <==> Present(snaps, path)
    requires n == |writes| && Raised(e, s, log, peer, writes, clock)
    modifies e.db, e.sender
    ensures Raised(e, s, log, peer, writes + DeleteEvents(dbStates, peer, snaps), clock)
  {
    var m := n;
    assert writes + [] == writes;
    for i := 0 to |dbStates|
      invariant m == n + |DeleteEvents(dbStates[..i], peer, snaps)|
      invariant Raised(e, s, log, peer, writes + DeleteEvents(dbStates[..i], peer, snaps), clock)
    {
      var (path, row) := dbStates[i];
      DeleteEventsOneMore(dbStates, peer, snaps, i, writes);
      if row.isDir || path in clientByPath || row.op == Delete {
        continue;
      }
      ghost var before := writes + DeleteEvents(dbStates[..i], peer, snaps);
      m := Raise(e, peer, DeleteEvent(peer, path), clock, m, s, log, before);
    }
    assert dbStates[..|dbStates|] == dbStates;
  }

  // One event; its error is logged and dropped.
  method Raise(e: Engine, peer: Peer, ev: Event, clock: Clock, n: nat,
               ghost s: Server, ghost log: seq<Send>, ghost raised: seq<Event>) returns (m: nat)
    requires n == |raised| && Raised(e, s, log, peer, raised, clock)
    modifies e.db, e.sender
    ensures m == n + 1 && Raised(e, s, log, peer, raised + [ev], clock)
  {
    ghost var before := HandleAll(s, peer, raised, clock);
    e.sender.budget := clock.sends(n);
    var _ := e.HandleFileChanged(ReportAt(peer, ev, clock, n));
    m := n + 1;
    ghost var out := Handle(before.0, ReportAt(peer, ev, clock, n), clock.sends(n));
    HandleAllOneMore(s, peer, raised, ev, clock);
    RaisedAt(e, s, log, peer, raised + [ev], clock, before.1, out.sent);
  }

  lemma RaisedAt(e: Engine, s: Server, log: seq<Send>, peer: Peer, evs: seq<Event>, clock: Clock,
                 before: seq<Send>, sent: seq<Send>)
    requires HandleAll(s, peer, evs, clock) == (e.State(), before + sent)
    requires e.sender.log == log + before + sent
    ensures Raised(e, s, log, peer, evs, clock)
  {
    assert log + before + sent == log + (before + sent);
  }

  lemma HandleAllOneMore(s: Server, peer: Peer, raised: seq<Event>, ev: Event, clock: Clock)
    ensures var (s1, sent1) := HandleAll(s, peer, raised, clock);
            var out := Handle(s1, ReportAt(peer, ev, clock, |raised|), clock.sends(|raised|));
            HandleAll(s, peer, raised + [ev], clock) == (out.server, sent1 + out.sent)
  {
    assert (raised + [ev])[..|raised|] == raised;
  }

  // The engine is where handling the raised events takes it.
  ghost predicate Raised(e: Engine, s: Server, log: seq<Send>, peer: Peer, raised: seq<Event>, clock: Clock)
    reads e, e.db, e.sender
  {
    var all := HandleAll(s, peer, raised, clock);
    e.State() == all.0 && e.sender.log == log + all.1
  }

  lemma WriteEventsOneMore(t: Table, peer: Peer, snaps: seq<Snapshot>, i: nat)
    requires i < |snaps|
    ensures WriteEvents(t, peer, snaps[..i + 1])
            == if NeedsUpdate(t, peer, snaps[i]) then WriteEvents(t, peer, snaps[..i]) + [WriteEvent(peer, snaps[i])]
               else WriteEvents(t, peer, snaps[..i])
  {
    assert snaps[..i + 1][..i] == snaps[..i];
  }

  lemma DeleteEventsOneMore(rows: seq<(Path, Row)>, peer: Peer, snaps: seq<Snapshot>, i: nat, writes: seq<Event>)
    requires i < |rows|
    ensures var before := writes + DeleteEvents(rows[..i], peer, snaps);
            writes + DeleteEvents(rows[..i + 1], peer, snaps)
            == if Gone(snaps, rows[i].0, rows[i].1) then before + [DeleteEvent(peer, rows[i].0)] else before
  {
    assert rows[..i + 1][..i] == rows[..i];
  }

  lemma NamedOneMore(rows: seq<(Path, Row)>, i: nat)
    requires i < |rows|
    ensures forall path :: Named(rows[..i + 1], path) <==> Named(rows[..i], path) || path == rows[i].0
  {
    forall path ensures Named(rows[..i + 1], path) <==> Named(rows[..i], path) || path == rows[i].0 {
      if Named(rows[..i], path) {
        var j :| 0 <= j < i && rows[..i][j].0 == path;
        assert rows[..i + 1][j].0 == path;
      }
      assert rows[..i + 1][i] == rows[i];
      assert forall j :: 0 <= j < i ==> rows[..i + 1][j] == rows[..i][j];
    }
  }

  lemma PresentOneMore(snaps: seq<Snapshot>, i: nat)
    requires i < |snaps|
    ensures forall path :: Present(snaps[..i + 1], path) <==> Present(snaps[..i], path) || path == snaps[i].path
  {
    forall path ensures Present(snaps[..i + 1], path) <==> Present(snaps[..i], path) || path == snaps[i].path {
      if Present(snaps[..i], path) {
        var j :| 0 <= j < i && snaps[..i][j].path == path;
        assert snaps[..i + 1][j].path == path;
      }
      assert snaps[..i + 1][i] == snaps[i];
      assert forall j :: 0 <= j < i ==> snaps[..i + 1][j] == snaps[..i][j];
    }
  }

  // The index by path is the table restricted to the listed pair and side.
  lemma ListedRow(rows: seq<(Path, Row)>, t: Table, peer: Peer, path: Path, byPath: map<Path, Row>)
    requires Lists(rows, t, peer.pair, peer.side)
    requires Indexes(byPath, rows)
    ensures path in byPath <==> PeerKey(peer, path) in t
    ensures path in byPath ==> byPath[path] == t[PeerKey(peer, path)]
  {
    if path in byPath {
      var j :| 0 <= j < |rows| && rows[j].0 == path;
      assert byPath[rows[j].0] == rows[j].1;
    }
  }

  ghost predicate DistinctPaths(snaps: seq<Snapshot>) {
    forall i, j :: 0 <= i < j < |snaps| ==> snaps[i].path != snaps[j].path
  }

  ghost predicate DistinctKeys(evs: seq<Event>) {
    forall i, j :: 0 <= i < j < |evs| ==> KeyOf(evs[i]) != KeyOf(evs[j])
  }

  lemma {:induction false} WriteEventsExact(t: Table, peer: Peer, snaps: seq<Snapshot>)
    requires DistinctPaths(snaps)
    ensures forall ev :: ev in WriteEvents(t, peer, snaps)
                         <==> exists i :: 0 <= i < |snaps| && NeedsUpdate(t, peer, snaps[i]) && ev == WriteEvent(peer, snaps[i])
    ensures DistinctKeys(WriteEvents(t, peer, snaps))
  {
    if snaps != [] {
      var n := |snaps| - 1;
      var pre := snaps[..n];
      WriteEventsExact(t, peer, pre);
      var evs := WriteEvents(t, peer, pre);
      assert forall i :: 0 <= i < n ==> pre[i] == snaps[i];
      forall ev ensures ev in WriteEvents(t, peer, snaps)
                        <==> exists i :: 0 <= i < |snaps| && NeedsUpdate(t, peer, snaps[i]) && ev == WriteEvent(peer, snaps[i])
      {
        if i :| 0 <= i < |snaps| && NeedsUpdate(t, peer, snaps[i]) && ev == WriteEvent(peer, snaps[i]) && i < n {
          assert pre[i] == snaps[i];
        }
      }
      forall j | 0 <= j < |evs| ensures evs[j].path != snaps[n].path {
        assert evs[j] in evs;
        var i :| 0 <= i < |pre| && NeedsUpdate(t, peer, pre[i]) && evs[j] == WriteEvent(peer, pre[i]);
        assert pre[i] == snaps[i];
      }
    }
  }

  lemma {:induction false} DeleteEventsExact(listed: seq<(Path, Row)>, peer: Peer, snaps: seq<Snapshot>)
    requires forall i, j :: 0 <= i < j < |listed| ==> listed[i].0 != listed[j].0
    ensures forall ev :: ev in DeleteEvents(listed, peer, snaps)
                         <==> exists i :: 0 <= i < |listed| && Gone(snaps, listed[i].0, listed[i].1) && ev == DeleteEvent(peer, listed[i].0)
    ensures DistinctKeys(DeleteEvents(listed, peer, snaps))
  {
    if listed != [] {
      var n := |listed| - 1;
      var pre := listed[..n];
      DeleteEventsExact(pre, peer, snaps);
      var evs := DeleteEvents(pre, peer, snaps);
      assert forall i :: 0 <= i < n ==> pre[i] == listed[i];
      forall ev ensures ev in DeleteEvents(listed, peer, snaps)
                        <==> exists i :: 0 <= i < |listed| && Gone(snaps, listed[i].0, listed[i].1) && ev == DeleteEvent(peer, listed[i].0)
      {
        if i :| 0 <= i < |listed| && Gone(snaps, listed[i].0, listed[i].1) && ev == DeleteEvent(peer, listed[i].0) && i < n {
          assert pre[i] == listed[i];
        }
      }
      forall j | 0 <= j < |evs| ensures evs[j].path != listed[n].0 {
        assert evs[j] in evs;
        var i :| 0 <= i < |pre| && Gone(snaps, pre[i].0, pre[i].1) && evs[j] == DeleteEvent(peer, pre[i].0);
        assert pre[i] == listed[i];
      }
    }
  }

  // Every reading is later than what the table holds.
  ghost predicate Later(t: Table, clock: Clock) {
    forall k, i: nat :: k in t ==> t[k].serverModTime < clock.event(i)
  }

  lemma HandleOne(s: Server, r: Report, budget: nat)
    requires r.ev.pair in s.pairs
    requires KeyOf(r.ev) in s.rows ==> s.rows[KeyOf(r.ev)].serverModTime < r.now
    ensures Handle(s, r, budget).server == Server(s.pairs, s.rows[KeyOf(r.ev) := RowOf(r.ev, r.now)])
  {
  }

  // Each event became its row, all else stayed.
  ghost predicate RowsRecorded(t: Table, t': Table, evs: seq<Event>, clock: Clock) {
    && (forall i :: 0 <= i < |evs| ==> Lookup(t', KeyOf(evs[i])) == Some(RowOf(evs[i], clock.event(i))))
    && (forall k :: (forall ev :: ev in evs ==> KeyOf(ev) != k) ==> Lookup(t', k) == Lookup(t, k))
  }

  lemma OneMoreRecorded(t: Table, t': Table, evs: seq<Event>, ev: Event, clock: Clock)
    requires RowsRecorded(t, t', evs, clock) && DistinctKeys(evs + [ev])
    ensures RowsRecorded(t, t'[KeyOf(ev) := RowOf(ev, clock.event(|evs|))], evs + [ev], clock)
    ensures Lookup(t', KeyOf(ev)) == Lookup(t, KeyOf(ev))
  {
    var all := evs + [ev];
    forall i | 0 <= i < |evs| ensures KeyOf(evs[i]) != KeyOf(ev) {
      assert all[i] == evs[i] && all[|evs|] == ev;
    }
    assert ev in all;
    assert forall e :: e in evs ==> e in all;
  }

  // Events on distinct keys at later times are all recorded.
  lemma {:induction false} HandleAllRows(s: Server, peer: Peer, evs: seq<Event>, clock: Clock)
    requires peer.pair in s.pairs && (forall ev :: ev in evs ==> ev.pair == peer.pair)
    requires DistinctKeys(evs) && Later(s.rows, clock)
    ensures HandleAll(s, peer, evs, clock).0.pairs == s.pairs
    ensures RowsRecorded(s.rows, HandleAll(s, peer, evs, clock).0.rows, evs, clock)
  {
    if evs != [] {
      var n := |evs| - 1;
      var pre, last := evs[..n], evs[n];
      assert evs == pre + [last] && last in evs;
      HandleAllRows(s, peer, pre, clock);
      var (s1, sent1) := HandleAll(s, peer, pre, clock);
      OneMoreRecorded(s.rows, s1.rows, pre, last, clock);
      HandleOne(s1, ReportAt(peer, last, clock, n), clock.sends(n));
      HandleAllOneMore(s, peer, pre, last, clock);
    }
  }

  lemma DiffEventsDistinct(t: Table, listed: seq<(Path, Row)>, peer: Peer, snaps: seq<Snapshot>)
    requires DistinctPaths(snaps) && Lists(listed, t, peer.pair, peer.side)
    ensures DistinctKeys(DiffEvents(t, listed, peer, snaps))
    ensures forall ev :: ev in DiffEvents(t, listed, peer, snaps) ==> ev.pair == peer.pair
  {
    var ws, ds := WriteEvents(t, peer, snaps), DeleteEvents(listed, peer, snaps);
    WriteEventsExact(t, peer, snaps);
    DeleteEventsExact(listed, peer, snaps);
    forall i, j | 0 <= i < |ws| && 0 <= j < |ds| ensures KeyOf(ws[i]) != KeyOf(ds[j]) {
      assert ws[i] in ws && ds[j] in ds;
      var a :| 0 <= a < |snaps| && NeedsUpdate(t, peer, snaps[a]) && ws[i] == WriteEvent(peer, snaps[a]);
      var b :| 0 <= b < |listed| && Gone(snaps, listed[b].0, listed[b].1) && ds[j] == DeleteEvent(peer, listed[b].0);
      assert Present(snaps, snaps[a].path);
    }
    assert forall i :: 0 <= i < |ws| ==> ws[i] in ws;
  }

  // The table after a diff, in full.
  ghost predicate Reconciled(t: Table, t': Table, peer: Peer, snaps: seq<Snapshot>) {
    // A file that needed an update is a write row with the snapshot's content.
    && (forall i :: 0 <= i < |snaps| && NeedsUpdate(t, peer, snaps[i]) ==>
          var row := Lookup(t', PeerKey(peer, snaps[i].path));
          row.Some? && row.value.op == Write && !row.value.isDir
          && row.value.sha == if snaps[i].sha == "" then None else Some(snaps[i].sha))
    // A file row missing from the snapshot is a tombstone.
    && (forall path :: PeerKey(peer, path) in t && Gone(snaps, path, t[PeerKey(peer, path)]) ==>
          var row := Lookup(t', PeerKey(peer, path));
          row.Some? && row.value.op == Delete && !row.value.isDir && row.value.sha.None?)
    // Everything else stays, on this side and on all other sides and pairs.
    && (forall k :: Unaffected(t, peer, snaps, k) ==> Lookup(t', k) == Lookup(t, k))
  }

  ghost predicate Unaffected(t: Table, peer: Peer, snaps: seq<Snapshot>, k: Key) {
    || k.pair != peer.pair || k.side != peer.side
    || ((forall i :: 0 <= i < |snaps| && snaps[i].path == k.path ==> !NeedsUpdate(t, peer, snaps[i]))
        && (k in t ==> !Gone(snaps, k.path, t[k])))
  }

  lemma DiffReconciles(s: Server, listed: seq<(Path, Row)>, peer: Peer, snaps: seq<Snapshot>, clock: Clock)
    requires peer.pair in s.pairs && DistinctPaths(snaps) && Later(s.rows, clock)
    requires Lists(listed, s.rows, peer.pair, peer.side)
    ensures Reconciled(s.rows, HandleAll(s, peer, DiffEvents(s.rows, listed, peer, snaps), clock).0.rows, peer, snaps)
  {
    var evs := DiffEvents(s.rows, listed, peer, snaps);
    var ws, ds := WriteEvents(s.rows, peer, snaps), DeleteEvents(listed, peer, snaps);
    DiffEventsDistinct(s.rows, listed, peer, snaps);
    WriteEventsExact(s.rows, peer, snaps);
    DeleteEventsExact(listed, peer, snaps);
    HandleAllRows(s, peer, evs, clock);
    var t' := HandleAll(s, peer, evs, clock).0.rows;
    forall i | 0 <= i < |snaps| && NeedsUpdate(s.rows, peer, snaps[i])
      ensures var row := Lookup(t', PeerKey(peer, snaps[i].path));
              row.Some? && row.value.op == Write && !row.value.isDir
              && row.value.sha == if snaps[i].sha == "" then None else Some(snaps[i].sha)
    {
      assert WriteEvent(peer, snaps[i]) in ws;
      assert WriteEvent(peer, snaps[i]) in evs;
      var j :| 0 <= j < |evs| && evs[j] == WriteEvent(peer, snaps[i]);
      assert Lookup(t', KeyOf(evs[j])) == Some(RowOf(evs[j], clock.event(j)));
    }
    forall path | PeerKey(peer, path) in s.rows && Gone(snaps, path, s.rows[PeerKey(peer, path)])
      ensures var row := Lookup(t', PeerKey(peer, path));
              row.Some? && row.value.op == Delete && !row.value.isDir && row.value.sha.None?
    {
      assert Named(listed, PeerKey(peer, path).path);
      var i :| 0 <= i < |listed| && listed[i].0 == path;
      assert DeleteEvent(peer, listed[i].0) in ds;
      assert DeleteEvent(peer, path) in evs;
      var j :| 0 <= j < |evs| && evs[j] == DeleteEvent(peer, path);
      assert Lookup(t', KeyOf(evs[j])) == Some(RowOf(evs[j], clock.event(j)));
    }
    forall k | Unaffected(s.rows, peer, snaps, k) ensures Lookup(t', k) == Lookup(s.rows, k) {
      forall ev | ev in evs ensures KeyOf(ev) != k {
        assert ev in ws || ev in ds;
      }
    }
  }

  lemma {:induction false} NoWriteEvents(t: Table, peer: Peer, snaps: seq<Snapshot>)
    requires forall i :: 0 <= i < |snaps| ==> !NeedsUpdate(t, peer, snaps[i])
    ensures WriteEvents(t, peer, snaps) == []
  {
    if snaps != [] {
      NoWriteEvents(t, peer, snaps[..|snaps| - 1]);
    }
  }

  lemma {:induction false} NoDeleteEvents(listed: seq<(Path, Row)>, peer: Peer, snaps: seq<Snapshot>)
    requires forall i :: 0 <= i < |listed| ==> !Gone(snaps, listed[i].0, listed[i].1)
    ensures DeleteEvents(listed, peer, snaps) == []
  {
    if listed != [] {
      NoDeleteEvents(listed[..|listed| - 1], peer, snaps);
    }
  }

  // A second run with the same snapshot raises nothing.
  lemma SecondDiffIsSilent(t: Table, t': Table, listed: seq<(Path, Row)>, peer: Peer, snaps: seq<Snapshot>)
    requires DistinctPaths(snaps) && Reconciled(t, t', peer, snaps)
    requires Lists(listed, t', peer.pair, peer.side)
    ensures DiffEvents(t', listed, peer, snaps) == []
  {
    forall i | 0 <= i < |snaps| ensures !NeedsUpdate(t', peer, snaps[i]) {
      var k := PeerKey(peer, snaps[i].path);
      if !NeedsUpdate(t, peer, snaps[i]) {
        assert Present(snaps, snaps[i].path);
        assert Unaffected(t, peer, snaps, k);
        assert Lookup(t', k) == Lookup(t, k);
      }
    }
    forall i | 0 <= i < |listed| ensures !Gone(snaps, listed[i].0, listed[i].1) {
      var path := listed[i].0;
      var k := PeerKey(peer, path);
      if !Present(snaps, path) {
        if !(k in t && Gone(snaps, path, t[k])) {
          assert forall j :: 0 <= j < |snaps| ==> snaps[j].path != path;
          assert Unaffected(t, peer, snaps, k);
          assert Lookup(t', k) == Lookup(t, k);
        }
      }
    }
    NoWriteEvents(t', peer, snaps);
    NoDeleteEvents(listed, peer, snaps);
  }

  // The two runs together: whatever happens between them to the sends, the second finds
  // nothing to do.
  lemma DiffIsIdempotent(s: Server, listed: seq<(Path, Row)>, again: seq<(Path, Row)>, peer: Peer,
                         snaps: seq<Snapshot>, clock: Clock)
    requires peer.pair in s.pairs && DistinctPaths(snaps) && Later(s.rows, clock)
    requires Lists(listed, s.rows, peer.pair, peer.side)
    requires var t' := HandleAll(s, peer, DiffEvents(s.rows, listed, peer, snaps), clock).0.rows;
             Lists(again, t', peer.pair, peer.side)
    ensures var t' := HandleAll(s, peer, DiffEvents(s.rows, listed, peer, snaps), clock).0.rows;
            DiffEvents(t', again, peer, snaps) == []
  {
    DiffReconciles(s, listed, peer, snaps, clock);
    SecondDiffIsSilent(s.rows, HandleAll(s, peer, DiffEvents(s.rows, listed, peer, snaps), clock).0.rows,
                       again, peer, snaps);
  }

  // The row tells the truth about a snapshot file after the diff, except about a file that
  // came back while its client was away: its tombstone stays.
  lemma TombstonesStay(t: Table, t': Table, peer: Peer, snaps: seq<Snapshot>, i: nat)
    requires DistinctPaths(snaps) && Reconciled(t, t', peer, snaps)
    requires i < |snaps| && !snaps[i].isDir && snaps[i].sha != ""
    requires var k := PeerKey(peer, snaps[i].path);
             k in t ==> (t[k].op == Write && t[k].sha.Some?) || (t[k].op == Delete && t[k].sha.None?)
    ensures var k := PeerKey(peer, snaps[i].path);
            (k in t' && t'[k].op == Write && t'[k].sha == Some(snaps[i].sha)) <==> !(k in t && t[k].op == Delete)
  {
    var k := PeerKey(peer, snaps[i].path);
    if !NeedsUpdate(t, peer, snaps[i]) {
      assert Present(snaps, snaps[i].path);
      assert Unaffected(t, peer, snaps, k);
      assert Lookup(t', k) == Lookup(t, k);
    }
  }

  // A diff of the destination of a one-way pair records its files and sends nothing.
  lemma {:induction false} DestinationDiffSendsNothing(s: Server, peer: Peer, src: Side, evs: seq<Event>, clock: Clock)
    requires peer.pair in s.pairs && Mirror.OneWayFrom(s.pairs[peer.pair], src) && peer.side != src
    requires forall ev :: ev in evs ==> ev.pair == peer.pair && ev.side == peer.side
    ensures HandleAll(s, peer, evs, clock).0.pairs == s.pairs
    ensures HandleAll(s, peer, evs, clock).1 == []
  {
    if evs != [] {
      var n := |evs| - 1;
      DestinationDiffSendsNothing(s, peer, src, evs[..n], clock);
      assert evs[n] in evs;
    }
  }

  lemma DiffEventsOfPeer(t: Table, listed: seq<(Path, Row)>, peer: Peer, snaps: seq<Snapshot>)
    ensures forall ev :: ev in DiffEvents(t, listed, peer, snaps) ==> ev.pair == peer.pair && ev.side == peer.side
  {
    WriteEventsOfPeer(t, peer, snaps);
    DeleteEventsOfPeer(listed, peer, snaps);
  }

  lemma {:induction false} WriteEventsOfPeer(t: Table, peer: Peer, snaps: seq<Snapshot>)
    ensures forall ev :: ev in WriteEvents(t, peer, snaps) ==> ev.pair == peer.pair && ev.side == peer.side
  {
    if snaps != [] {
      WriteEventsOfPeer(t, peer, snaps[..|snaps| - 1]);
    }
  }

  lemma {:induction false} DeleteEventsOfPeer(listed: seq<(Path, Row)>, peer: Peer, snaps: seq<Snapshot>)
    ensures forall ev :: ev in DeleteEvents(listed, peer, snaps) ==> ev.pair == peer.pair && ev.side == peer.side
  {
    if listed != [] {
      DeleteEventsOfPeer(listed[..|listed| - 1], peer, snaps);
    }
  }

  // What a dropped connection cost the destination of a one-way pair is not made good by a
  // reconnection: neither the destination's own diff, whatever it holds, nor a second diff of
  // an unchanged source sends anything.
  lemma LostCommandsAreNotResent(s: Server, src: Peer, dst: Peer, snaps: seq<Snapshot>, held: seq<Snapshot>,
                                 listed: seq<(Path, Row)>, again: seq<(Path, Row)>, listedDst: seq<(Path, Row)>,
                                 clock: Clock, later: Clock)
    requires src.pair == dst.pair && src.pair in s.pairs && src.side != dst.side
    requires Mirror.OneWayFrom(s.pairs[src.pair], src.side)
    requires DistinctPaths(snaps) && Later(s.rows, clock) && Lists(listed, s.rows, src.pair, src.side)
    requires var s1 := HandleAll(s, src, DiffEvents(s.rows, listed, src, snaps), clock).0;
             Lists(again, s1.rows, src.pair, src.side)
    ensures var s1 := HandleAll(s, src, DiffEvents(s.rows, listed, src, snaps), clock).0;
            && HandleAll(s1, src, DiffEvents(s1.rows, again, src, snaps), later).1 == []
            && HandleAll(s1, dst, DiffEvents(s1.rows, listedDst, dst, held), later).1 == []
  {
    var s1 := HandleAll(s, src, DiffEvents(s.rows, listed, src, snaps), clock).0;
    DiffIsIdempotent(s, listed, again, src, snaps, clock);
    DiffEventsDistinct(s.rows, listed, src, snaps);
    HandleAllRows(s, src, DiffEvents(s.rows, listed, src, snaps), clock);
    DiffEventsOfPeer(s1.rows, listedDst, dst, held);
    DestinationDiffSendsNothing(s1, dst, src.side, DiffEvents(s1.rows, listedDst, dst, held), later);
  }

  // The events about one path, in order.
  function About(evs: seq<Event>, path: Path): seq<Event> {
    if evs == [] then []
    else About(evs[..|evs| - 1], path) + if evs[|evs| - 1].path == path then [evs[|evs| - 1]] else []
  }

  lemma {:induction false} AboutConcat(u: seq<Event>, v: seq<Event>, path: Path)
    ensures About(u + v, path) == About(u, path) + About(v, path)
  {
    if v == [] {
      assert u + v == u;
    } else {
      AboutConcat(u, v[..|v| - 1], path);
      assert (u + v)[..|u + v| - 1] == u + v[..|v| - 1];
    }
  }

  lemma AboutOne(evs: seq<Event>, ev: Event, path: Path)
    ensures About(evs + [ev], path) == About(evs, path) + if ev.path == path then [ev] else []
  {
    assert (evs + [ev])[..|evs|] == evs;
  }

  lemma {:induction false} WritesElsewhere(t: Table, peer: Peer, snaps: seq<Snapshot>, path: Path)
    requires !Present(snaps, path)
    ensures About(WriteEvents(t, peer, snaps), path) == []
  {
    if snaps != [] {
      var n := |snaps| - 1;
      assert forall i :: 0 <= i < n ==> snaps[..n][i] == snaps[i];
      assert !Present(snaps[..n], path) && snaps[n].path != path;
      WritesElsewhere(t, peer, snaps[..n], path);
      if NeedsUpdate(t, peer, snaps[n]) {
        AboutOne(WriteEvents(t, peer, snaps[..n]), WriteEvent(peer, snaps[n]), path);
      } else {
        assert WriteEvents(t, peer, snaps) == WriteEvents(t, peer, snaps[..n]);
      }
    }
  }

  lemma {:induction false} WritesAbout(t: Table, peer: Peer, snaps: seq<Snapshot>, i: nat)
    requires DistinctPaths(snaps) && i < |snaps|
    ensures About(WriteEvents(t, peer, snaps), snaps[i].path)
            == if NeedsUpdate(t, peer, snaps[i]) then [WriteEvent(peer, snaps[i])] else []
  {
    var n := |snaps| - 1;
    var pre, path := snaps[..n], snaps[i].path;
    assert forall j :: 0 <= j < n ==> pre[j] == snaps[j];
    if i == n {
      assert !Present(pre, path);
      WritesElsewhere(t, peer, pre, path);
    } else {
      WritesAbout(t, peer, pre, i);
    }
    if NeedsUpdate(t, peer, snaps[n]) {
      AboutOne(WriteEvents(t, peer, pre), WriteEvent(peer, snaps[n]), path);
    } else {
      assert WriteEvents(t, peer, snaps) == WriteEvents(t, peer, pre);
    }
  }

  lemma {:induction false} DeletesElsewhere(listed: seq<(Path, Row)>, peer: Peer, snaps: seq<Snapshot>, path: Path)
    requires !Named(listed, path)
    ensures About(DeleteEvents(listed, peer, snaps), path) == []
  {
    if listed != [] {
      var n := |listed| - 1;
      assert forall i :: 0 <= i < n ==> listed[..n][i] == listed[i];
      assert !Named(listed[..n], path) && listed[n].0 != path;
      DeletesElsewhere(listed[..n], peer, snaps, path);
      if Gone(snaps, listed[n].0, listed[n].1) {
        AboutOne(DeleteEvents(listed[..n], peer, snaps), DeleteEvent(peer, listed[n].0), path);
      } else {
        assert DeleteEvents(listed, peer, snaps) == DeleteEvents(listed[..n], peer, snaps);
      }
    }
  }

  lemma {:induction false} DeletesAbout(listed: seq<(Path, Row)>, peer: Peer, snaps: seq<Snapshot>, i: nat)
    requires (forall a, b :: 0 <= a < b < |listed| ==> listed[a].0 != listed[b].0) && i < |listed|
    ensures About(DeleteEvents(listed, peer, snaps), listed[i].0)
            == if Gone(snaps, listed[i].0, listed[i].1) then [DeleteEvent(peer, listed[i].0)] else []
  {
    var n := |listed| - 1;
    var pre, path := listed[..n], listed[i].0;
    assert forall j :: 0 <= j < n ==> pre[j] == listed[j];
    if i == n {
      assert !Named(pre, path);
      DeletesElsewhere(pre, peer, snaps, path);
    } else {
      DeletesAbout(pre, peer, snaps, i);
    }
    if Gone(snaps, listed[n].0, listed[n].1) {
      AboutOne(DeleteEvents(pre, peer, snaps), DeleteEvent(peer, listed[n].0), path);
    } else {
      assert DeleteEvents(listed, peer, snaps) == DeleteEvents(pre, peer, snaps);
    }
  }

  lemma ListedAt(listed: seq<(Path, Row)>, t: Table, peer: Peer, path: Path) returns (i: nat)
    requires Lists(listed, t, peer.pair, peer.side) && PeerKey(peer, path) in t
    ensures i < |listed| && listed[i] == (path, t[PeerKey(peer, path)])
  {
    assert Named(listed, PeerKey(peer, path).path);
    i :| 0 <= i < |listed| && listed[i].0 == path;
    assert t[Key(peer.pair, peer.side, listed[i].0)] == listed[i].1;
  }

  // What a diff raises for a file of the snapshot: one write, with the snapshot's content, if the
  // table has no row for it or a row naming other content, and otherwise nothing.
  lemma SnapshotFileRaises(t: Table, listed: seq<(Path, Row)>, peer: Peer, snaps: seq<Snapshot>, i: nat)
    requires DistinctPaths(snaps) && Lists(listed, t, peer.pair, peer.side) && i < |snaps|
    ensures var f := snaps[i];
            var k := Key(peer.pair, peer.side, f.path);
            About(DiffEvents(t, listed, peer, snaps), f.path)
            == if !f.isDir && (k !in t || (t[k].sha.Some? && t[k].sha != Some(f.sha))) then
                 [FileChanged(peer.pair, peer.side, f.path, f.sha, f.size, f.modTime, Write, false)]
               else []
  {
    var path := snaps[i].path;
    assert Present(snaps, path);
    AboutConcat(WriteEvents(t, peer, snaps), DeleteEvents(listed, peer, snaps), path);
    WritesAbout(t, peer, snaps, i);
    if PeerKey(peer, path) in t {
      var j := ListedAt(listed, t, peer, path);
      DeletesAbout(listed, peer, snaps, j);
    } else {
      assert forall j :: 0 <= j < |listed| ==> Key(peer.pair, peer.side, listed[j].0) in t;
      DeletesElsewhere(listed, peer, snaps, path);
    }
  }

  // And for a path the snapshot lacks: one removal if the table has a row for it that is neither a
  // directory nor a tombstone, and otherwise nothing.
  lemma MissingPathRaises(t: Table, listed: seq<(Path, Row)>, peer: Peer, snaps: seq<Snapshot>, path: Path)
    requires Lists(listed, t, peer.pair, peer.side) && forall i :: 0 <= i < |snaps| ==> snaps[i].path != path
    ensures var k := Key(peer.pair, peer.side, path);
            About(DiffEvents(t, listed, peer, snaps), path)
            == if k in t && !t[k].isDir && t[k].op != Delete then
                 [FileChanged(peer.pair, peer.side, path, "", 0, 0, Delete, false)]
               else []
  {
    AboutConcat(WriteEvents(t, peer, snaps), DeleteEvents(listed, peer, snaps), path);
    WritesElsewhere(t, peer, snaps, path);
    if PeerKey(peer, path) in t {
      var j := ListedAt(listed, t, peer, path);
      DeletesAbout(listed, peer, snaps, j);
    } else {
      assert forall j :: 0 <= j < |listed| ==> Key(peer.pair, peer.side, listed[j].0) in t;
      DeletesElsewhere(listed, peer, snaps, path);
    }
  }

  lemma {:induction false} AboutFinds(evs: seq<Event>, path: Path)
    ensures forall ev :: ev in About(evs, path) <==> ev in evs && ev.path == path
  {
    if evs != [] {
      var n := |evs| - 1;
      AboutFinds(evs[..n], path);
      assert evs == evs[..n] + [evs[n]];
    }
  }

  // The row of any path of the peer after a diff.
  lemma RowAfterDiff(s: Server, listed: seq<(Path, Row)>, peer: Peer, snaps: seq<Snapshot>, clock: Clock, path: Path)
    requires peer.pair in s.pairs && DistinctPaths(snaps) && Later(s.rows, clock)
    requires Lists(listed, s.rows, peer.pair, peer.side)
    ensures var evs := DiffEvents(s.rows, listed, peer, snaps);
            var row := Lookup(HandleAll(s, peer, evs, clock).0.rows, Key(peer.pair, peer.side, path));
            if About(evs, path) == [] then row == Lookup(s.rows, Key(peer.pair, peer.side, path))
            else
              var ev := About(evs, path)[0];
              row.Some? && row.value.op == ev.op && !row.value.isDir && row.value.modTime == ev.modTime
              && row.value.sha == (if ev.sha == "" then None else Some(ev.sha))
  {
    var evs := DiffEvents(s.rows, listed, peer, snaps);
    DiffEventsDistinct(s.rows, listed, peer, snaps);
    DiffEventsOfPeer(s.rows, listed, peer, snaps);
    DiffEventsAreFiles(s.rows, listed, peer, snaps);
    HandleAllRows(s, peer, evs, clock);
    AboutFinds(evs, path);
    var rows := HandleAll(s, peer, evs, clock).0.rows;
    if About(evs, path) == [] {
      assert forall ev :: ev in evs ==> KeyOf(ev) != PeerKey(peer, path);
      assert Lookup(rows, PeerKey(peer, path)) == Lookup(s.rows, PeerKey(peer, path));
    } else {
      var ev := About(evs, path)[0];
      assert ev in evs;
      var i :| 0 <= i < |evs| && evs[i] == ev;
      assert Lookup(rows, KeyOf(evs[i])) == Some(RowOf(evs[i], clock.event(i)));
    }
  }

  lemma DiffEventsAreFiles(t: Table, listed: seq<(Path, Row)>, peer: Peer, snaps: seq<Snapshot>)
    requires DistinctPaths(snaps) && Lists(listed, t, peer.pair, peer.side)
    ensures forall ev :: ev in DiffEvents(t, listed, peer, snaps) ==> !ev.isDir
  {
    WriteEventsExact(t, peer, snaps);
    DeleteEventsExact(listed, peer, snaps);
  }

  // A file that was removed while its client was away has a tombstone after the diff.
  lemma MissingFileIsDeleted(s: Server, listed: seq<(Path, Row)>, peer: Peer, snaps: seq<Snapshot>, clock: Clock, path: Path)
    requires peer.pair in s.pairs && DistinctPaths(snaps) && Later(s.rows, clock)
    requires Lists(listed, s.rows, peer.pair, peer.side)
    requires var k := Key(peer.pair, peer.side, path); k in s.rows && s.rows[k].op == Write && !s.rows[k].isDir
    requires forall i :: 0 <= i < |snaps| ==> snaps[i].path != path
    ensures var evs := DiffEvents(s.rows, listed, peer, snaps);
            var row := Lookup(HandleAll(s, peer, evs, clock).0.rows, Key(peer.pair, peer.side, path));
            && |About(evs, path)| == 1 && About(evs, path)[0].op == Delete
            && row.Some? && row.value.op == Delete && row.value.sha == None && !row.value.isDir
  {
    MissingPathRaises(s.rows, listed, peer, snaps, path);
    RowAfterDiff(s, listed, peer, snaps, clock, path);
  }
}
