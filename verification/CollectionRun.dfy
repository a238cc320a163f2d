/** Uploads and reports while a collection is going on
    (internal/server/blobstore/gc.go:14-62, fs.go:92-142). */
module CollectionRun {
  import opened Prelude
  import opened Protocol
  import opened FileStateTable
  import opened BlobStore

  // What a collection fixed when it started: the references it read and the cutoff.
  datatype Setup = Setup(h: Digest, refs: set<Sha>, cutoff: int)

  // `todo` is what is left of the listing, with the ages that were listed.
  datatype State = State(disk: Disk, rows: Table, todo: seq<BlobInfo>)

  // A client uploads a blob whole or a range of it, a report is recorded, the collection takes up
  // its next blob.
  datatype Step =
    | Upload(sha: Sha, r: Reader, expectedSize: int, now: int)
    | UploadRange(sha: Sha, offset: int, r: Reader, totalSize: int, now: int)
    | Record(u: Upsert)
    | Visit

  // Disk and answer of an upload.
  function Uploaded(y: Setup, d: Disk, step: Step): Result
    requires step.Upload? || step.UploadRange?
  {
    match step
    case Upload(sha, r, expectedSize, now) => PutResult(y.h, d, sha, r, expectedSize, now)
    case UploadRange(sha, offset, r, totalSize, now) => PutRangeResult(y.h, d, sha, offset, r, totalSize, now)
  }

  function Next(y: Setup, s: State, step: Step): State {
    match step
    case Upload(_, _, _, _) => s.(disk := Uploaded(y, s.disk, step).0)
    case UploadRange(_, _, _, _, _) => s.(disk := Uploaded(y, s.disk, step).0)
    case Record(u) => s.(rows := Upserted(s.rows, u))
    case Visit =>
      if s.todo == [] then s
      else s.(disk := Collect(s.disk, [s.todo[0]], y.refs, y.cutoff), todo := s.todo[1..])
  }

  function Run(y: Setup, s: State, steps: seq<Step>): State
    decreases |steps|
  {
    if steps == [] then s else Run(y, Next(y, s, steps[0]), steps[1..])
  }

  // The listing names blobs that are there, each once.
  ghost predicate Listed(s: State) {
    && (forall i :: 0 <= i < |s.todo| ==> s.todo[i].sha in s.disk.blobs)
    && (forall i, j :: 0 <= i < j < |s.todo| ==> s.todo[i].sha != s.todo[j].sha)
  }

  // The collection will remove this blob when it comes to it.
  ghost predicate Doomed(y: Setup, s: State, sha: Sha) {
    sha in s.disk.blobs && Condemned(s.todo, y.refs, y.cutoff, sha)
  }

  lemma CondemnedHead(todo: seq<BlobInfo>, refs: set<Sha>, cutoff: int, sha: Sha)
    requires todo != []
    ensures Condemned(todo, refs, cutoff, sha)
            <==> Condemned(todo[..1], refs, cutoff, sha) || Condemned(todo[1..], refs, cutoff, sha)
    ensures Condemned(todo[..1], refs, cutoff, sha)
            <==> ValidateSHA(sha) && todo[0].sha == sha && Collectable(todo[0], refs, cutoff)
  {
    var head, tail := todo[..1], todo[1..];
    assert head[0] == todo[0] && forall i :: 0 <= i < |tail| ==> tail[i] == todo[i + 1];
    if Condemned(todo, refs, cutoff, sha) {
      var i :| 0 <= i < |todo| && todo[i].sha == sha && Collectable(todo[i], refs, cutoff);
      if i > 0 {
        assert tail[i - 1].sha == sha && Collectable(tail[i - 1], refs, cutoff);
      }
    }
    if Condemned(tail, refs, cutoff, sha) {
      var i :| 0 <= i < |tail| && tail[i].sha == sha && Collectable(tail[i], refs, cutoff);
      assert todo[i + 1].sha == sha && Collectable(todo[i + 1], refs, cutoff);
    }
  }

  lemma VisitRemovesIff(y: Setup, s: State, sha: Sha)
    requires s.todo != []
    ensures var t := Next(y, s, Visit);
            && (sha in t.disk.blobs <==> sha in s.disk.blobs && !Condemned(s.todo[..1], y.refs, y.cutoff, sha))
            && (sha in t.disk.blobs ==> t.disk.blobs[sha] == s.disk.blobs[sha])
  {
    assert s.todo[..1] == [s.todo[0]];
    CollectExact(s.disk, [s.todo[0]], y.refs, y.cutoff);
  }

  lemma StepKeepsListed(y: Setup, s: State, step: Step)
    requires Listed(s)
    ensures Listed(Next(y, s, step))
  {
    if step.Visit? && s.todo != [] {
      var t := Next(y, s, step);
      forall i | 0 <= i < |t.todo| ensures t.todo[i].sha in t.disk.blobs {
        assert t.todo[i] == s.todo[i + 1];
        VisitRemovesIff(y, s, t.todo[i].sha);
        CondemnedHead(s.todo, y.refs, y.cutoff, t.todo[i].sha);
      }
    }
  }

  predicate Uploads(step: Step, sha: Sha) { (step.Upload? || step.UploadRange?) && step.sha == sha }

  // A blob that is there and not doomed stays, and one that is doomed stays doomed or goes,
  // whatever is uploaded in its place.
  lemma StepKeepsFate(y: Setup, s: State, step: Step, sha: Sha)
    requires Listed(s) && sha in s.disk.blobs
    ensures var t := Next(y, s, step);
            && (!Doomed(y, s, sha) ==> sha in t.disk.blobs && !Doomed(y, t, sha))
            && (Doomed(y, s, sha) ==>
                  (sha in t.disk.blobs && Doomed(y, t, sha)) || (sha !in t.disk.blobs && !Mentions(t.todo, sha)))
  {
    var t := Next(y, s, step);
    if step.Visit? && s.todo != [] {
      VisitRemovesIff(y, s, sha);
      CondemnedHead(s.todo, y.refs, y.cutoff, sha);
      if s.todo[0].sha == sha {
        forall i | 0 <= i < |t.todo| ensures t.todo[i].sha != sha {
          assert t.todo[i] == s.todo[i + 1];
        }
      }
    }
  }

  // A blob that is neither there nor listed stays away until it is uploaded again.
  lemma StaysAway(y: Setup, s: State, step: Step, sha: Sha)
    requires sha !in s.disk.blobs && !Mentions(s.todo, sha) && !Uploads(step, sha)
    ensures sha !in Next(y, s, step).disk.blobs && !Mentions(Next(y, s, step).todo, sha)
  {
    var t := Next(y, s, step);
    if step.Visit? && s.todo != [] {
      VisitRemovesIff(y, s, sha);
      forall i | 0 <= i < |t.todo| ensures t.todo[i].sha != sha {
        assert t.todo[i] == s.todo[i + 1];
      }
    }
  }

  lemma {:induction false} GoneStaysGone(y: Setup, s: State, steps: seq<Step>, sha: Sha)
    requires sha !in s.disk.blobs && !Mentions(s.todo, sha)
    requires forall i :: 0 <= i < |steps| ==> !Uploads(steps[i], sha)
    ensures sha !in Run(y, s, steps).disk.blobs
    decreases |steps|
  {
    if steps != [] {
      StaysAway(y, s, steps[0], sha);
      GoneStaysGone(y, Next(y, s, steps[0]), steps[1..], sha);
    }
  }

  // Whatever else is uploaded and reported: a blob that is there survives the rest of the
  // collection exactly when it is not doomed.
  lemma {:induction false} SurvivesIff(y: Setup, s: State, steps: seq<Step>, sha: Sha)
    requires Listed(s) && sha in s.disk.blobs
    requires forall i :: 0 <= i < |steps| ==> !Uploads(steps[i], sha)
    requires Run(y, s, steps).todo == []
    ensures sha in Run(y, s, steps).disk.blobs <==> !Doomed(y, s, sha)
    decreases |steps|
  {
    if steps != [] {
      var t := Next(y, s, steps[0]);
      StepKeepsListed(y, s, steps[0]);
      StepKeepsFate(y, s, steps[0], sha);
      if sha in t.disk.blobs {
        SurvivesIff(y, t, steps[1..], sha);
      } else {
        GoneStaysGone(y, t, steps[1..], sha);
      }
    }
  }

  // An upload that is accepted during a collection, and not repeated, outlives it exactly when
  // its blob was not doomed before. Put takes a blob that exists for uploaded, and PutRange
  // replaces it; the collection goes by the age it was listed with in either case.
  lemma AcceptedUploadSurvivesIff(y: Setup, s: State, up: Step, steps: seq<Step>)
    requires Listed(s) && (up.Upload? || up.UploadRange?) && Uploaded(y, s.disk, up).1 == None
    requires forall i :: 0 <= i < |steps| ==> !Uploads(steps[i], up.sha)
    requires Run(y, Next(y, s, up), steps).todo == []
    ensures up.sha in Run(y, Next(y, s, up), steps).disk.blobs <==> !Doomed(y, s, up.sha)
  {
    var t := Next(y, s, up);
    StepKeepsListed(y, s, up);
    UploadKeepsFate(y, s, up);
    SurvivesIff(y, t, steps, up.sha);
  }

  lemma UploadKeepsFate(y: Setup, s: State, up: Step)
    requires Listed(s) && (up.Upload? || up.UploadRange?) && Uploaded(y, s.disk, up).1 == None
    ensures up.sha in Next(y, s, up).disk.blobs
    ensures Doomed(y, Next(y, s, up), up.sha) <==> Doomed(y, s, up.sha)
  {
    var t := Next(y, s, up);
    assert t.todo == s.todo && up.sha in t.disk.blobs;
    if Condemned(s.todo, y.refs, y.cutoff, up.sha) {
      var i :| 0 <= i < |s.todo| && s.todo[i].sha == up.sha;
      assert s.todo[i].sha in s.disk.blobs;
    }
  }

  // So a row recorded during a collection, by a client that uploaded first as clients do, may
  // lose its blob: for every doomed blob and every accepted upload of it there is such a run.
  lemma LateReferenceLosesBlob(y: Setup, s: State, up: Step, u: Upsert)
    requires Listed(s) && (up.Upload? || up.UploadRange?) && Uploaded(y, s.disk, up).1 == None && Doomed(y, s, up.sha)
    requires u.row.sha == Some(up.sha) && (u.key in s.rows ==> s.rows[u.key].serverModTime < u.row.serverModTime)
    ensures var end := Run(y, s, [up, Record(u)] + Visits(|s.todo|));
            && end.todo == [] && u.key in end.rows && end.rows[u.key].sha == Some(up.sha) && up.sha !in end.disk.blobs
  {
    var t := Next(y, Next(y, s, up), Record(u));
    var steps := [Record(u)] + Visits(|s.todo|);
    assert ([up, Record(u)] + Visits(|s.todo|))[1..] == steps && steps[1..] == Visits(|s.todo|);
    VisitsFinish(y, t);
    AcceptedUploadSurvivesIff(y, s, up, steps);
  }

  // A whole upload that finds the blob there is always accepted.
  lemma FoundIsAccepted(y: Setup, s: State, up: Step)
    requires up.Upload? && Doomed(y, s, up.sha)
    ensures Uploaded(y, s.disk, up).1 == None
  {
  }

  function Visits(n: nat): seq<Step> { seq(n, _ => Visit) }

  lemma {:induction false} VisitsFinish(y: Setup, s: State)
    ensures Run(y, s, Visits(|s.todo|)).todo == [] && Run(y, s, Visits(|s.todo|)).rows == s.rows
    decreases |s.todo|
  {
    if s.todo != [] {
      assert Visits(|s.todo|)[1..] == Visits(|s.todo| - 1);
      VisitsFinish(y, Next(y, s, Visit));
    }
  }

  // What a row already referred to when the references were read is never removed.
  lemma {:induction false} ReferencedSurvives(y: Setup, s: State, steps: seq<Step>, sha: Sha)
    requires Listed(s) && sha in s.disk.blobs && sha in y.refs
    ensures sha in Run(y, s, steps).disk.blobs
    decreases |steps|
  {
    if steps != [] {
      StepKeepsListed(y, s, steps[0]);
      StepKeepsFate(y, s, steps[0], sha);
      ReferencedSurvives(y, Next(y, s, steps[0]), steps[1..], sha);
    }
  }

  // Visits alone are the collection of the store.
  lemma {:induction false} VisitsCollect(y: Setup, s: State)
    ensures Run(y, s, Visits(|s.todo|)).disk == Collect(s.disk, s.todo, y.refs, y.cutoff)
    decreases |s.todo|
  {
    if s.todo != [] {
      assert Visits(|s.todo|)[1..] == Visits(|s.todo| - 1);
      VisitsCollect(y, Next(y, s, Visit));
      assert s.todo == [s.todo[0]] + s.todo[1..];
      CollectConcat(s.disk, [s.todo[0]], s.todo[1..], y.refs, y.cutoff);
    }
  }

  lemma {:induction false} CollectConcat(d: Disk, p: seq<BlobInfo>, q: seq<BlobInfo>, refs: set<Sha>, cutoff: int)
    ensures Collect(d, p + q, refs, cutoff) == Collect(Collect(d, p, refs, cutoff), q, refs, cutoff)
  {
    if q == [] {
      assert p + q == p;
    } else {
      CollectConcat(d, p, q[..|q| - 1], refs, cutoff);
      assert (p + q)[..|p + q| - 1] == p + q[..|q| - 1];
    }
  }
}
