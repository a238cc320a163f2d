/** Echo suppression (internal/client/runner/suppress.go). */
module Suppressor {
  import opened Protocol

  // An empty set of contents stands for any content.
  datatype Entry = Entry(expiresAt: int, shas: set<Sha>)

  type Entries = map<Path, Entry>

  function Add(m: Entries, rel: Path, sha: Sha, expiry: int): Entries {
    var given: set<Sha> := if sha != "" then {sha} else {};
    if rel !in m then m[rel := Entry(expiry, given)]
    else
      var e := m[rel];
      m[rel := Entry(if expiry > e.expiresAt then expiry else e.expiresAt, if sha != "" then e.shas + given else {})]
  }

  predicate Hit(m: Entries, rel: Path, now: int) {
    rel in m && now <= m[rel].expiresAt
  }

  predicate HitWithSHA(m: Entries, rel: Path, sha: Sha, now: int) {
    Hit(m, rel, now) && (m[rel].shas == {} || sha in m[rel].shas)
  }

  // A look-up drops an entry it finds expired.
  function Looked(m: Entries, rel: Path, now: int): Entries {
    if rel in m && now > m[rel].expiresAt then m - {rel} else m
  }

  function Collected(m: Entries, now: int): Entries {
    map rel | rel in m && now <= m[rel].expiresAt :: m[rel]
  }

  datatype Step = DoAdd(rel: Path, sha: Sha, ttl: int, now: int) | Look(rel: Path, now: int) | Gc(now: int)

  function Next(m: Entries, step: Step): Entries {
    match step
    case DoAdd(rel, sha, ttl, now) => Add(m, rel, sha, now + ttl)
    case Look(rel, now) => Looked(m, rel, now)
    case Gc(now) => Collected(m, now)
  }

  function Run(steps: seq<Step>): Entries {
    if steps == [] then map[] else Next(Run(steps[..|steps| - 1]), steps[|steps| - 1])
  }

  // The clock does not go back, and `now` is not before its last reading.
  ghost predicate Ordered(steps: seq<Step>, now: int) {
    && (forall i, j :: 0 <= i < j < |steps| ==> steps[i].now <= steps[j].now)
    && (forall i :: 0 <= i < |steps| ==> steps[i].now <= now)
  }

  predicate AddsTo(step: Step, rel: Path) { step.DoAdd? && step.rel == rel }

  // Some Add of the path has not expired.
  ghost predicate Unexpired(steps: seq<Step>, rel: Path, now: int) {
    exists i :: 0 <= i < |steps| && AddsTo(steps[i], rel) && steps[i].now + steps[i].ttl >= now
  }

  // What the map knows of the history: an unexpired Add is in it, and its expiry is some Add's.
  ghost predicate Knows(m: Entries, steps: seq<Step>, rel: Path, now: int) {
    && (forall i :: 0 <= i < |steps| && AddsTo(steps[i], rel) && steps[i].now + steps[i].ttl >= now ==>
          rel in m && steps[i].now + steps[i].ttl <= m[rel].expiresAt)
    && (rel in m ==> exists i :: 0 <= i < |steps| && AddsTo(steps[i], rel) && steps[i].now + steps[i].ttl == m[rel].expiresAt)
  }

  lemma {:induction false} RunKnows(steps: seq<Step>, rel: Path, now: int)
    requires Ordered(steps, now)
    ensures Knows(Run(steps), steps, rel, now)
  {
    if steps != [] {
      var n := |steps| - 1;
      var pre := steps[..n];
      RunKnows(pre, rel, now);
      var m, m' := Run(pre), Run(steps);
      assert forall i :: 0 <= i < n ==> pre[i] == steps[i];
      if rel in m {
        var i :| 0 <= i < |pre| && AddsTo(pre[i], rel) && pre[i].now + pre[i].ttl == m[rel].expiresAt;
        assert AddsTo(steps[i], rel) && steps[i].now + steps[i].ttl == m[rel].expiresAt;
      }
      if AddsTo(steps[n], rel) {
        assert rel in m';
      }
      forall i | 0 <= i < |steps| && AddsTo(steps[i], rel) && steps[i].now + steps[i].ttl >= now
        ensures rel in m' && steps[i].now + steps[i].ttl <= m'[rel].expiresAt
      {
        if i < n {
          assert AddsTo(pre[i], rel);
        }
      }
    }
  }

  // Under any history with a clock that does not go back, whenever entries were collected: a
  // path is suppressed exactly while some Add of it has not expired.
  lemma {:induction false} HitIffUnexpired(steps: seq<Step>, rel: Path, now: int)
    requires Ordered(steps, now)
    ensures Hit(Run(steps), rel, now) <==> Unexpired(steps, rel, now)
  {
    RunKnows(steps, rel, now);
    var m := Run(steps);
    if Hit(m, rel, now) {
      var i :| 0 <= i < |steps| && AddsTo(steps[i], rel) && steps[i].now + steps[i].ttl == m[rel].expiresAt;
      assert Unexpired(steps, rel, now);
    }
  }

  // A look-up of the path or a collection, either of which drops the path's entry if expired.
  predicate Sweeps(step: Step, rel: Path) {
    step.Gc? || (step.Look? && step.rel == rel)
  }

  // An Add whose entry has not been dropped since: every later sweep found some Add of the path
  // unexpired. The current entry began with the earliest such Add.
  ghost predicate Current(steps: seq<Step>, rel: Path, i: int) {
    && 0 <= i < |steps| && AddsTo(steps[i], rel)
    && forall j :: i < j < |steps| && Sweeps(steps[j], rel) ==> Unexpired(steps[..j], rel, steps[j].now)
  }

  // An Add to the current entry that names content, after the last one that names none.
  ghost predicate Naming(steps: seq<Step>, rel: Path, i: int) {
    && Current(steps, rel, i) && steps[i].sha != ""
    && forall j :: i < j < |steps| && AddsTo(steps[j], rel) ==> steps[j].sha != ""
  }

  ghost predicate Named(steps: seq<Step>, rel: Path, sha: Sha) {
    exists i :: Naming(steps, rel, i) && steps[i].sha == sha
  }

  ghost predicate HasEntry(steps: seq<Step>, rel: Path) {
    exists i :: Current(steps, rel, i)
  }

  lemma CurrentOneMore(steps: seq<Step>, step: Step, rel: Path, i: int)
    ensures Current(steps + [step], rel, i)
            <==> (i == |steps| && AddsTo(step, rel))
                 || (Current(steps, rel, i) && (Sweeps(step, rel) ==> Unexpired(steps, rel, step.now)))
  {
    var all := steps + [step];
    assert all[..|steps|] == steps;
    forall j | 0 <= j < |steps| ensures all[j] == steps[j] && all[..j] == steps[..j] {}
  }

  lemma NamingOneMore(steps: seq<Step>, step: Step, rel: Path, i: int)
    ensures Naming(steps + [step], rel, i)
            <==> if AddsTo(step, rel) then step.sha != "" && (i == |steps| || Naming(steps, rel, i))
                 else Naming(steps, rel, i) && (Sweeps(step, rel) ==> Unexpired(steps, rel, step.now))
  {
    var all := steps + [step];
    CurrentOneMore(steps, step, rel, i);
    assert all[|steps|] == step;
    assert forall j :: 0 <= j < |steps| ==> all[j] == steps[j];
  }

  // What the map holds of a path, told by the history.
  ghost predicate Tells(m: Entries, steps: seq<Step>, rel: Path) {
    && (rel in m <==> HasEntry(steps, rel))
    && (rel in m ==> forall sha :: sha in m[rel].shas <==> Named(steps, rel, sha))
  }

  // A step other than an Add of the path drops its entry exactly when it sweeps it expired.
  lemma SweptStep(steps: seq<Step>, step: Step, rel: Path)
    requires Ordered(steps, step.now) && !AddsTo(step, rel) && Tells(Run(steps), steps, rel)
    ensures Tells(Next(Run(steps), step), steps + [step], rel)
  {
    var m, m' := Run(steps), Next(Run(steps), step);
    HitIffUnexpired(steps, rel, step.now);
    var kept := Sweeps(step, rel) ==> Unexpired(steps, rel, step.now);
    assert rel in m' <==> rel in m && kept;
    assert rel in m' ==> m'[rel] == m[rel];
    forall i ensures Current(steps + [step], rel, i) <==> Current(steps, rel, i) && kept {
      CurrentOneMore(steps, step, rel, i);
    }
    forall i ensures Naming(steps + [step], rel, i) <==> Naming(steps, rel, i) && kept {
      NamingOneMore(steps, step, rel, i);
    }
    assert HasEntry(steps + [step], rel) <==> HasEntry(steps, rel) && kept;
    SameNames(steps, step, rel, kept);
  }

  lemma SameNames(steps: seq<Step>, step: Step, rel: Path, kept: bool)
    requires forall i :: Naming(steps + [step], rel, i) <==> Naming(steps, rel, i) && kept
    ensures forall sha :: Named(steps + [step], rel, sha) <==> Named(steps, rel, sha) && kept
  {
    var all := steps + [step];
    assert forall i :: 0 <= i < |steps| ==> all[i] == steps[i];
    forall sha ensures Named(all, rel, sha) <==> Named(steps, rel, sha) && kept {
      if Named(all, rel, sha) {
        var i :| Naming(all, rel, i) && all[i].sha == sha;
        assert Naming(steps, rel, i) && steps[i].sha == sha;
      }
      if Named(steps, rel, sha) && kept {
        var i :| Naming(steps, rel, i) && steps[i].sha == sha;
        assert Naming(all, rel, i) && all[i].sha == sha;
      }
    }
  }

  lemma AddedStep(steps: seq<Step>, step: Step, rel: Path)
    requires AddsTo(step, rel) && Tells(Run(steps), steps, rel)
    ensures Tells(Next(Run(steps), step), steps + [step], rel)
  {
    var m, m', all := Run(steps), Next(Run(steps), step), steps + [step];
    CurrentOneMore(steps, step, rel, |steps|);
    assert HasEntry(all, rel);
    if rel !in m {
      forall i ensures !Naming(steps, rel, i) {}
    }
    forall sha ensures sha in m'[rel].shas <==> Named(all, rel, sha) {
      AddedNames(steps, step, rel, sha);
    }
  }

  lemma AddedNames(steps: seq<Step>, step: Step, rel: Path, sha: Sha)
    requires AddsTo(step, rel)
    ensures Named(steps + [step], rel, sha) <==> step.sha != "" && (sha == step.sha || Named(steps, rel, sha))
  {
    var all := steps + [step];
    assert all[|steps|] == step && forall i :: 0 <= i < |steps| ==> all[i] == steps[i];
    forall i ensures Naming(all, rel, i) <==> step.sha != "" && (i == |steps| || Naming(steps, rel, i)) {
      NamingOneMore(steps, step, rel, i);
    }
    if Named(all, rel, sha) {
      var i :| Naming(all, rel, i) && all[i].sha == sha;
      assert i < |steps| ==> Naming(steps, rel, i) && steps[i].sha == sha;
    }
    if step.sha != "" && Named(steps, rel, sha) {
      var i :| Naming(steps, rel, i) && steps[i].sha == sha;
      assert Naming(all, rel, i) && all[i].sha == sha;
    }
    if step.sha != "" && sha == step.sha {
      assert Naming(all, rel, |steps|);
    }
  }

  lemma {:induction false} RunTells(steps: seq<Step>, rel: Path)
    requires forall i, j :: 0 <= i < j < |steps| ==> steps[i].now <= steps[j].now
    ensures Tells(Run(steps), steps, rel)
  {
    if steps != [] {
      var pre, last := steps[..|steps| - 1], steps[|steps| - 1];
      RunTells(pre, rel);
      assert steps == pre + [last];
      if AddsTo(last, rel) {
        AddedStep(pre, last, rel);
      } else {
        SweptStep(pre, last, rel);
      }
    }
  }

  // Under any history with a clock that does not go back: a content is suppressed exactly while
  // some Add of the path has not expired and, of the Adds to the current entry since the last one
  // without content, none was made or one named this content, however long ago that one expired.
  lemma ContentHits(steps: seq<Step>, rel: Path, sha: Sha, now: int)
    requires Ordered(steps, now)
    ensures HitWithSHA(Run(steps), rel, sha, now)
            <==> Unexpired(steps, rel, now) && ((forall x :: !Named(steps, rel, x)) || Named(steps, rel, sha))
  {
    RunTells(steps, rel);
    HitIffUnexpired(steps, rel, now);
    var m := Run(steps);
    if rel in m {
      assert m[rel].shas == {} <==> forall x :: !Named(steps, rel, x) by {
        if m[rel].shas != {} {
          var x :| x in m[rel].shas;
          assert Named(steps, rel, x);
        }
      }
    }
  }

  // Some string is in no finite set of strings.
  lemma {:induction false} LongerString(s: set<Sha>) returns (longer: Sha)
    ensures forall x :: x in s ==> |x| < |longer|
    decreases s
  {
    if s == {} {
      longer := "";
    } else {
      var x :| x in s;
      var rest := LongerString(s - {x});
      longer := seq(|x| + |rest| + 1, _ => 'x');
      assert forall y :: y in s ==> y == x || y in s - {x};
    }
  }

  // Every content is suppressed exactly while some Add has not expired and the last Add to the
  // current entry named none: a single Add with content ends it.
  lemma AnyContentUntil(steps: seq<Step>, rel: Path, now: int)
    requires Ordered(steps, now)
    ensures (forall sha :: HitWithSHA(Run(steps), rel, sha, now))
            <==> Unexpired(steps, rel, now) && forall x :: !Named(steps, rel, x)
  {
    var m := Run(steps);
    RunTells(steps, rel);
    HitIffUnexpired(steps, rel, now);
    if forall sha :: HitWithSHA(m, rel, sha, now) {
      assert HitWithSHA(m, rel, "", now);
      var longer := LongerString(m[rel].shas);
      assert HitWithSHA(m, rel, longer, now);
      assert m[rel].shas == {};
      forall x ensures !Named(steps, rel, x) {
        assert x !in m[rel].shas;
      }
    }
    if Unexpired(steps, rel, now) && forall x :: !Named(steps, rel, x) {
      forall sha ensures HitWithSHA(m, rel, sha, now) {
        ContentHits(steps, rel, sha, now);
      }
    }
  }

  // On a path added only with content, every content whose own Add has not expired is
  // suppressed.
  lemma UnexpiredContentHits(steps: seq<Step>, rel: Path, now: int, i: nat)
    requires Ordered(steps, now) && i < |steps| && AddsTo(steps[i], rel) && steps[i].now + steps[i].ttl >= now
    requires forall j :: 0 <= j < |steps| && AddsTo(steps[j], rel) ==> steps[j].sha != ""
    ensures HitWithSHA(Run(steps), rel, steps[i].sha, now)
  {
    forall j | i < j < |steps| && Sweeps(steps[j], rel) ensures Unexpired(steps[..j], rel, steps[j].now) {
      assert AddsTo(steps[..j][i], rel);
    }
    assert Naming(steps, rel, i);
    assert Unexpired(steps, rel, now);
    ContentHits(steps, rel, steps[i].sha, now);
  }

  // But a content also goes on being suppressed after its own Add has expired, for as long as
  // other Adds keep the entry alive or nothing has swept it: a change back to old content is
  // taken for an echo.
  lemma ExpiredContentHits(rel: Path)
    ensures var steps := [DoAdd(rel, "1", 2, 0), DoAdd(rel, "2", 2, 10)];
            Ordered(steps, 11) && HitWithSHA(Run(steps), rel, "1", 11) && steps[0].now + steps[0].ttl < 11
  {
    var steps := [DoAdd(rel, "1", 2, 0), DoAdd(rel, "2", 2, 10)];
    assert Naming(steps, rel, 0) && steps[0].sha == "1";
    assert AddsTo(steps[1], rel) && steps[1].now + steps[1].ttl >= 11;
    ContentHits(steps, rel, "1", 11);
  }

  /** The suppressor; each method runs under `mu` and is given the clock's reading. */
  class Suppressor {
    var m: Entries

    constructor ()
      ensures m == map[]
    {
      m := map[];
    }

    method DoAdd(rel: Path, sha: Sha, ttl: int, now: int)
      modifies this
      ensures m == Add(old(m), rel, sha, now + ttl)
    {
      var newExpiry := now + ttl;
      if rel !in m {
        var shas: set<Sha> := {};
        if sha != "" {
          shas := {sha};
        }
        m := m[rel := Entry(newExpiry, shas)];
        return;
      }
      var e := m[rel];
      if newExpiry > e.expiresAt {
        e := e.(expiresAt := newExpiry);
      }
      if sha != "" {
        e := e.(shas := e.shas + {sha});
      } else {
        e := e.(shas := {});
      }
      m := m[rel := e];
    }

    method DoHit(rel: Path, now: int) returns (hit: bool)
      modifies this
      ensures hit <==> Hit(old(m), rel, now)
      ensures m == Looked(old(m), rel, now)
    {
      if rel !in m {
        return false;
      }
      if now > m[rel].expiresAt {
        m := m - {rel};
        return false;
      }
      return true;
    }

    method DoHitWithSHA(rel: Path, sha: Sha, now: int) returns (hit: bool)
      modifies this
      ensures hit <==> HitWithSHA(old(m), rel, sha, now)
      ensures m == Looked(old(m), rel, now)
    {
      if rel !in m {
        return false;
      }
      var e := m[rel];
      if now > e.expiresAt {
        m := m - {rel};
        return false;
      }
      if e.shas == {} {
        return true;
      }
      return sha in e.shas;
    }

    method GcOnce(now: int)
      modifies this
      ensures m == Collected(old(m), now)
    {
      var todo := m.Keys;
      while todo != {}
        invariant todo <= m.Keys <= old(m).Keys
        invariant forall k :: k in m ==> m[k] == old(m)[k]
        invariant forall k :: k in old(m) && k !in todo ==> (k in m <==> now <= old(m)[k].expiresAt)
        decreases todo
      {
        var k :| k in todo;
        todo := todo - {k};
        if now > m[k].expiresAt {
          m := m - {k};
        }
      }
    }
  }
}
