/** The content that queued fetches name, and the blob store
    (internal/client/runner/app.go:207-228, internal/server/blobstore/gc.go:14-85). */
module FetchedBlobs {
  import opened Prelude
  import opened Protocol
  import opened FileStateTable
  import opened Engine
  import opened SyncSystem
  import Mirror
  import EditsOutliveDeletes

  // The system, and the names of the blobs in the store.
  datatype World = World(sys: Sys, stored: set<Sha>)

  // A step of the system, an upload that succeeds, a collection that removes blobs.
  datatype Act = Does(step: Step) | Uploads(sha: Sha) | Collects(gone: set<Sha>)

  function After(w: World, act: Act): World {
    match act
    case Does(step) => w.(sys := Next(w.sys, step))
    case Uploads(sha) => w.(stored := w.stored + {sha})
    case Collects(gone) => w.(stored := w.stored - gone)
  }

  function AfterAll(w: World, acts: seq<Act>): World {
    if acts == [] then w else After(AfterAll(w, acts[..|acts| - 1]), acts[|acts| - 1])
  }

  predicate Fetches(x: Command, sha: Sha) { x.op == Fetch && x.sha == sha }

  ghost predicate Queued(s: Sys, sha: Sha) {
    exists c, x :: x in Queue(s, c) && Fetches(x, sha)
  }

  ghost predicate NamedByRow(t: Table, sha: Sha) {
    exists k :: k in t && t[k].sha == Some(sha)
  }

  // Every queued fetch and every row names content that is in the store.
  ghost predicate Backed(w: World) {
    && (forall sha :: Queued(w.sys, sha) ==> sha in w.stored)
    && (forall sha :: NamedByRow(w.sys.server.rows, sha) ==> sha in w.stored)
  }

  // Rows as well-formed events leave them.
  ghost predicate RowsInOrder(t: Table) {
    forall k :: k in t ==> (t[k].op == Write && t[k].sha.Some?) || (t[k].op == Delete && t[k].sha.None?)
  }

  // What a report makes the engine ask for is the report's own content or the other side's.
  lemma SentFetch(s: Server, r: Report, budget: nat, x: Send)
    requires ValidPairs(s.pairs) && RowsInOrder(s.rows) && WellFormed(r.ev)
    requires x in Handle(s, r, budget).sent && x.cmd.op == Fetch
    ensures (r.ev.op == Write && x.cmd.sha == r.ev.sha) || NamedByRow(s.rows, x.cmd.sha)
  {
    var pair := s.pairs[r.ev.pair];
    if pair.direction == Bidirectional {
      EditsOutliveDeletes.SendsFromRows(s, EditsOutliveDeletes.Call(r, budget), x);
    } else {
      assert x in MirrorSends(pair, r);
    }
  }

  lemma HandledRows(s: Server, r: Report, budget: nat, sha: Sha)
    requires NamedByRow(Handle(s, r, budget).server.rows, sha)
    ensures NamedByRow(s.rows, sha) || (r.ev.pair in s.pairs && r.ev.sha == sha && sha != "")
  {
    var rows := Handle(s, r, budget).server.rows;
    var k :| k in rows && rows[k].sha == Some(sha);
    if k in s.rows && rows[k] == s.rows[k] {
      assert s.rows[k].sha == Some(sha);
    }
  }

  lemma ReportKeepsOrder(s: Server, r: Report, budget: nat)
    requires RowsInOrder(s.rows) && WellFormed(r.ev)
    ensures RowsInOrder(Handle(s, r, budget).server.rows)
  {
  }

  // A report keeps everything backed if its content was uploaded first, and, when its row is
  // recorded, only then.
  lemma ReportKeepsBackedIff(w: World, r: Report, budget: nat)
    requires ValidPairs(w.sys.server.pairs) && RowsInOrder(w.sys.server.rows) && Backed(w) && WellFormed(r.ev)
    requires r.ev.pair in w.sys.server.pairs
    requires KeyOf(r.ev) in w.sys.server.rows ==> w.sys.server.rows[KeyOf(r.ev)].serverModTime < r.now
    ensures Backed(After(w, Does(Handled(r, budget)))) <==> (r.ev.op == Write ==> r.ev.sha in w.stored)
  {
    if r.ev.op == Write ==> r.ev.sha in w.stored {
      ReportKeepsBacked(w, r, budget);
    } else {
      var rows := After(w, Does(Handled(r, budget))).sys.server.rows;
      AfterHandled(w.sys, r, budget, "");
      assert rows[KeyOf(r.ev)].sha == Some(r.ev.sha);
      assert NamedByRow(rows, r.ev.sha);
    }
  }

  lemma ReportKeepsBacked(w: World, r: Report, budget: nat)
    requires ValidPairs(w.sys.server.pairs) && RowsInOrder(w.sys.server.rows) && Backed(w) && WellFormed(r.ev)
    requires r.ev.op == Write ==> r.ev.sha in w.stored
    ensures Backed(After(w, Does(Handled(r, budget))))
  {
    var s := w.sys;
    var t := Next(s, Handled(r, budget));
    AfterHandled(s, r, budget, "");
    forall sha | NamedByRow(t.server.rows, sha) ensures sha in w.stored {
      HandledRows(s.server, r, budget, sha);
    }
    forall sha | Queued(t, sha) ensures sha in w.stored {
      var c, x :| x in Queue(t, c) && Fetches(x, sha);
      AfterHandled(s, r, budget, c);
      if x in Queue(s, c) {
        assert Queued(s, sha);
      } else {
        var sent := Handle(s.server, r, budget).sent;
        Mirror.CommandsComeFromSends(sent, c);
        var y :| y in sent && y.cmd == x;
        SentFetch(s.server, r, budget, y);
      }
    }
  }

  lemma OtherStepsKeepBacked(w: World, step: Step)
    requires Backed(w) && !step.Handled?
    ensures Backed(After(w, Does(step))) && After(w, Does(step)).sys.server == w.sys.server
  {
    var t := Next(w.sys, step);
    forall sha | Queued(t, sha) ensures Queued(w.sys, sha) {
      var c, x :| x in Queue(t, c) && Fetches(x, sha);
      assert x in Queue(w.sys, c);
    }
  }

  // A collection that spares what rows name leaves every queued fetch its blob exactly when it
  // removes nothing that is still queued: rows name the newest content of a path, a queue may
  // still name what it replaced.
  lemma CollectionKeepsBackedIff(w: World, gone: set<Sha>)
    requires Backed(w) && (forall sha :: sha in gone ==> !NamedByRow(w.sys.server.rows, sha))
    ensures Backed(After(w, Collects(gone))) <==> forall sha :: sha in gone ==> !Queued(w.sys, sha)
  {
  }

  // Clients upload what they report, and collections spare what rows and queues name.
  ghost predicate Careful(w: World, act: Act) {
    match act
    case Does(Handled(r, _)) => WellFormed(r.ev) && (r.ev.op == Write ==> r.ev.sha in w.stored)
    case Collects(gone) => forall sha :: sha in gone ==> !NamedByRow(w.sys.server.rows, sha) && !Queued(w.sys, sha)
    case _ => true
  }

  ghost predicate CarefulRun(w: World, acts: seq<Act>) {
    acts == [] || (CarefulRun(w, acts[..|acts| - 1]) && Careful(AfterAll(w, acts[..|acts| - 1]), acts[|acts| - 1]))
  }

  // Then over every run each queued fetch, and each row, names a blob that is in the store.
  lemma {:induction false} FetchesAreBacked(w: World, acts: seq<Act>)
    requires ValidPairs(w.sys.server.pairs) && RowsInOrder(w.sys.server.rows) && Backed(w) && CarefulRun(w, acts)
    ensures var end := AfterAll(w, acts);
            Backed(end) && RowsInOrder(end.sys.server.rows) && end.sys.server.pairs == w.sys.server.pairs
  {
    if acts != [] {
      var pre := acts[..|acts| - 1];
      FetchesAreBacked(w, pre);
      var m := AfterAll(w, pre);
      match acts[|acts| - 1]
      case Does(step) =>
        if step.Handled? {
          ReportKeepsBacked(m, step.r, step.budget);
          ReportKeepsOrder(m.sys.server, step.r, step.budget);
          AfterHandled(m.sys, step.r, step.budget, "");
        } else {
          OtherStepsKeepBacked(m, step);
        }
      case Uploads(sha) =>
      case Collects(gone) => CollectionKeepsBackedIff(m, gone);
    }
  }
}
