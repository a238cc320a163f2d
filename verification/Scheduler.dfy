/** Two-level job admission (internal/server/syncengine/scheduler.go). */
module Scheduler {
  import opened Prelude
  import opened Protocol

  datatype JobKey = JobKey(client: ClientId, pair: PairId, path: Path)

  // Where one job is: before its call of Acquire, waiting for the global permit, holding it
  // and waiting for the client's, holding both, with only the global permit left to return,
  // with only its pending entry left to remove, over, or turned away as a duplicate.
  datatype Phase =
    Idle | WantGlobal | WantClient | Running | GivingBack | Leaving | Finished | Duplicate

  // The finite set of jobs and the two limits.
  datatype Setup = Setup(globalLimit: int, perClientLimit: int, keys: seq<JobKey>)

  datatype State = State(
    globalUsed: int, perCli: map<ClientId, int>, pending: set<JobKey>, phase: seq<Phase>)

  // The atomic sections of Acquire and of the release closure, and ctx cancellation at either wait.
  datatype Step =
    | Enter(j: nat) | TakeGlobal(j: nat) | TakeClient(j: nat) | Cancel(j: nat)
    | Release(j: nat) | GiveGlobal(j: nat) | Leave(j: nat)

  function Initial(y: Setup): State {
    State(0, map[], {}, seq(|y.keys|, _ => Idle))
  }

  predicate CanStep(y: Setup, s: State, step: Step) {
    step.j < |y.keys| && step.j < |s.phase|
    && var c := y.keys[step.j].client;
       match step
       case Enter(j) => s.phase[j] == Idle
       case TakeGlobal(j) => s.phase[j] == WantGlobal && s.globalUsed + 1 <= y.globalLimit
       case TakeClient(j) => s.phase[j] == WantClient && c in s.perCli && s.perCli[c] + 1 <= y.perClientLimit
       case Cancel(j) => s.phase[j] == WantGlobal || s.phase[j] == WantClient
       case Release(j) => s.phase[j] == Running && c in s.perCli
       case GiveGlobal(j) => s.phase[j] == GivingBack
       case Leave(j) => s.phase[j] == Leaving
  }

  function Next(y: Setup, s: State, step: Step): State
    requires CanStep(y, s, step)
  {
    var key := y.keys[step.j];
    var c := key.client;
    match step
    case Enter(j) =>
      if key in s.pending then s.(phase := s.phase[j := Duplicate])
      else s.(pending := s.pending + {key}, perCli := if c in s.perCli then s.perCli else s.perCli[c := 0],
              phase := s.phase[j := WantGlobal])
    case TakeGlobal(j) => s.(globalUsed := s.globalUsed + 1, phase := s.phase[j := WantClient])
    case TakeClient(j) => s.(perCli := s.perCli[c := s.perCli[c] + 1], phase := s.phase[j := Running])
    case Cancel(j) => s.(phase := s.phase[j := if s.phase[j] == WantGlobal then Leaving else GivingBack])
    case Release(j) => s.(perCli := s.perCli[c := s.perCli[c] - 1], phase := s.phase[j := GivingBack])
    case GiveGlobal(j) => s.(globalUsed := s.globalUsed - 1, phase := s.phase[j := Leaving])
    case Leave(j) => s.(pending := s.pending - {key}, phase := s.phase[j := Finished])
  }

  ghost predicate IsRun(y: Setup, s: State, steps: seq<Step>, end: State)
    decreases |steps|
  {
    if steps == [] then s == end
    else CanStep(y, s, steps[0]) && IsRun(y, Next(y, s, steps[0]), steps[1..], end)
  }

  ghost predicate Reachable(y: Setup, s: State) {
    exists steps :: IsRun(y, Initial(y), steps, s)
  }

  predicate HoldsGlobal(p: Phase) { p == WantClient || p == Running || p == GivingBack }

  predicate Live(p: Phase) { p != Idle && p != Finished && p != Duplicate }

  predicate Over(p: Phase) { p == Finished || p == Duplicate }

  // The jobs that hold a global permit, and those that hold one of client c.
  function GlobalHolders(s: State): seq<bool> {
    seq(|s.phase|, i requires 0 <= i < |s.phase| => HoldsGlobal(s.phase[i]))
  }

  function ClientHolders(y: Setup, s: State, c: ClientId): seq<bool>
    requires |s.phase| == |y.keys|
  {
    seq(|s.phase|, i requires 0 <= i < |s.phase| => s.phase[i] == Running && y.keys[i].client == c)
  }

  // What holds in every reachable state: the counts are the holders, within the limits;
  // live keys are distinct and `pending` is exactly those keys.
  ghost predicate Safe(y: Setup, s: State) {
    && |s.phase| == |y.keys|
    && CountsExact(y, s)
    && PendingExact(y, s)
  }

  ghost predicate CountsExact(y: Setup, s: State)
    requires |s.phase| == |y.keys|
  {
    && s.globalUsed == Count(GlobalHolders(s))
    && s.globalUsed <= Max(y.globalLimit, 0)
    && (forall j :: 0 <= j < |y.keys| && Live(s.phase[j]) ==> y.keys[j].client in s.perCli)
    && (forall c :: c in s.perCli ==>
          s.perCli[c] == Count(ClientHolders(y, s, c)) && s.perCli[c] <= Max(y.perClientLimit, 0))
  }

  ghost predicate PendingExact(y: Setup, s: State)
    requires |s.phase| == |y.keys|
  {
    && (forall i, j :: 0 <= i < j < |y.keys| && Live(s.phase[i]) && Live(s.phase[j]) ==> y.keys[i] != y.keys[j])
    && (forall k :: k in s.pending <==> LiveKey(y, s, k))
  }

  ghost predicate LiveKey(y: Setup, s: State, k: JobKey)
    requires |s.phase| == |y.keys|
  {
    exists j :: 0 <= j < |y.keys| && Live(s.phase[j]) && y.keys[j] == k
  }

  function Max(a: int, b: int): int { if a > b then a else b }

  // How a step moves the two counts.
  lemma CountsMove(y: Setup, s: State, j: nat, p: Phase)
    requires |s.phase| == |y.keys| && j < |s.phase|
    ensures var t := s.(phase := s.phase[j := p]);
            && Count(GlobalHolders(t))
               == Count(GlobalHolders(s)) - (if HoldsGlobal(s.phase[j]) then 1 else 0) + (if HoldsGlobal(p) then 1 else 0)
            && (forall c ::
                  Count(ClientHolders(y, t, c))
                  == Count(ClientHolders(y, s, c))
                     - (if s.phase[j] == Running && y.keys[j].client == c then 1 else 0)
                     + (if p == Running && y.keys[j].client == c then 1 else 0))
  {
    var t := s.(phase := s.phase[j := p]);
    CountUpdate(GlobalHolders(s), j, HoldsGlobal(p));
    assert GlobalHolders(t) == GlobalHolders(s)[j := HoldsGlobal(p)];
    forall c ensures Count(ClientHolders(y, t, c))
                     == Count(ClientHolders(y, s, c))
                        - (if s.phase[j] == Running && y.keys[j].client == c then 1 else 0)
                        + (if p == Running && y.keys[j].client == c then 1 else 0)
    {
      CountUpdate(ClientHolders(y, s, c), j, p == Running && y.keys[j].client == c);
      assert ClientHolders(y, t, c) == ClientHolders(y, s, c)[j := p == Running && y.keys[j].client == c];
    }
  }

  // Only the moving job's key can become or cease to be live.
  lemma LiveKeyMoves(y: Setup, s: State, t: State, j: nat, k: JobKey)
    requires j < |s.phase| == |t.phase| == |y.keys|
    requires forall i :: 0 <= i < |y.keys| && i != j ==> t.phase[i] == s.phase[i]
    requires k == y.keys[j] ==> (Live(s.phase[j]) <==> Live(t.phase[j]))
    ensures LiveKey(y, s, k) <==> LiveKey(y, t, k)
  {
    if i :| 0 <= i < |y.keys| && Live(s.phase[i]) && y.keys[i] == k {
      assert Live(t.phase[i]);
    }
    if i :| 0 <= i < |y.keys| && Live(t.phase[i]) && y.keys[i] == k {
      assert Live(s.phase[i]);
    }
  }

  lemma StepKeepsPending(y: Setup, s: State, step: Step)
    requires CanStep(y, s, step) && |s.phase| == |y.keys| && PendingExact(y, s)
    ensures PendingExact(y, Next(y, s, step))
  {
    var t := Next(y, s, step);
    var j := step.j;
    forall k ensures k in t.pending <==> LiveKey(y, t, k) {
      if k == y.keys[j] {
        if Live(t.phase[j]) {
          assert LiveKey(y, t, k);
        }
        if Live(s.phase[j]) {
          assert LiveKey(y, s, k);
        }
        if Live(s.phase[j]) == Live(t.phase[j]) {
          LiveKeyMoves(y, s, t, j, k);
        }
      } else {
        LiveKeyMoves(y, s, t, j, k);
      }
    }
  }

  lemma StepKeepsGlobalCount(y: Setup, s: State, step: Step)
    requires CanStep(y, s, step) && |s.phase| == |y.keys| && CountsExact(y, s)
    ensures var t := Next(y, s, step);
            t.globalUsed == Count(GlobalHolders(t)) && t.globalUsed <= Max(y.globalLimit, 0)
  {
    var t := Next(y, s, step);
    CountsMove(y, s, step.j, t.phase[step.j]);
    assert GlobalHolders(t) == GlobalHolders(s.(phase := s.phase[step.j := t.phase[step.j]]));
  }

  lemma StepKeepsClientCount(y: Setup, s: State, step: Step, c: ClientId)
    requires CanStep(y, s, step) && |s.phase| == |y.keys| && CountsExact(y, s)
    requires c in Next(y, s, step).perCli
    ensures var t := Next(y, s, step);
            t.perCli[c] == Count(ClientHolders(y, t, c)) && t.perCli[c] <= Max(y.perClientLimit, 0)
  {
    var t := Next(y, s, step);
    CountsMove(y, s, step.j, t.phase[step.j]);
    assert ClientHolders(y, t, c) == ClientHolders(y, s.(phase := s.phase[step.j := t.phase[step.j]]), c);
    if c !in s.perCli {
      CountZero(ClientHolders(y, s, c));
    }
  }

  lemma StepKeepsCounts(y: Setup, s: State, step: Step)
    requires CanStep(y, s, step) && |s.phase| == |y.keys| && CountsExact(y, s)
    ensures CountsExact(y, Next(y, s, step))
  {
    var t := Next(y, s, step);
    StepKeepsGlobalCount(y, s, step);
    forall c | c in t.perCli
      ensures t.perCli[c] == Count(ClientHolders(y, t, c)) && t.perCli[c] <= Max(y.perClientLimit, 0)
    {
      StepKeepsClientCount(y, s, step, c);
    }
  }

  lemma StepKeepsSafe(y: Setup, s: State, step: Step)
    requires CanStep(y, s, step) && Safe(y, s)
    ensures Safe(y, Next(y, s, step))
  {
    StepKeepsPending(y, s, step);
    StepKeepsCounts(y, s, step);
  }

  lemma {:induction false} RunKeepsSafe(y: Setup, s: State, steps: seq<Step>, end: State)
    requires Safe(y, s) && IsRun(y, s, steps, end)
    ensures Safe(y, end)
    decreases |steps|
  {
    if steps != [] {
      StepKeepsSafe(y, s, steps[0]);
      RunKeepsSafe(y, Next(y, s, steps[0]), steps[1..], end);
    }
  }

  lemma InitialSafe(y: Setup)
    ensures Safe(y, Initial(y))
  {
    CountZero(GlobalHolders(Initial(y)));
  }

  // In every reachable state the permits in use are the jobs that hold them, within both
  // limits, live keys are distinct, and `pending` is exactly those keys.
  lemma ReachableSafe(y: Setup, s: State)
    requires Reachable(y, s)
    ensures Safe(y, s)
  {
    var steps :| IsRun(y, Initial(y), steps, s);
    InitialSafe(y);
    RunKeepsSafe(y, Initial(y), steps, s);
  }

  // When all jobs are over everything has been returned.
  lemma AllReturned(y: Setup, s: State)
    requires Reachable(y, s) && (forall j :: 0 <= j < |s.phase| ==> Over(s.phase[j]))
    ensures s.globalUsed == 0 && s.pending == {} && forall c :: c in s.perCli ==> s.perCli[c] == 0
  {
    ReachableSafe(y, s);
    CountZero(GlobalHolders(s));
    forall c | c in s.perCli ensures s.perCli[c] == 0 {
      CountZero(ClientHolders(y, s, c));
    }
    assert forall k :: k !in s.pending;
  }

  // A step other than a cancellation.
  ghost predicate CanProceed(y: Setup, s: State) {
    exists step: Step :: !step.Cancel? && CanStep(y, s, step)
  }

  // With both limits at least 1 no reachable state with an unfinished job is stuck.
  lemma NeverStuck(y: Setup, s: State, j: nat)
    requires y.globalLimit >= 1 && y.perClientLimit >= 1
    requires Reachable(y, s) && j < |s.phase| && !Over(s.phase[j])
    ensures CanProceed(y, s)
  {
    ReachableSafe(y, s);
    if i :| 0 <= i < |s.phase| && s.phase[i] == Idle {
      assert CanStep(y, s, Enter(i));
    } else if i :| 0 <= i < |s.phase| && s.phase[i] == Running {
      assert CanStep(y, s, Release(i));
    } else if i :| 0 <= i < |s.phase| && s.phase[i] == GivingBack {
      assert CanStep(y, s, GiveGlobal(i));
    } else if i :| 0 <= i < |s.phase| && s.phase[i] == Leaving {
      assert CanStep(y, s, Leave(i));
    } else if i :| 0 <= i < |s.phase| && s.phase[i] == WantClient {
      CountZero(ClientHolders(y, s, y.keys[i].client));
      assert CanStep(y, s, TakeClient(i));
    } else {
      CountZero(GlobalHolders(s));
      assert CanStep(y, s, TakeGlobal(j));
    }
  }

  function Rank(p: Phase): nat {
    match p
    case Idle => 6 case WantGlobal => 5 case WantClient => 4 case Running => 3
    case GivingBack => 2 case Leaving => 1 case Finished => 0 case Duplicate => 0
  }

  function Remaining(phases: seq<Phase>): nat {
    if phases == [] then 0 else Remaining(phases[..|phases| - 1]) + Rank(phases[|phases| - 1])
  }

  lemma {:induction false} RemainingUpdate(phases: seq<Phase>, i: nat, p: Phase)
    requires i < |phases|
    ensures Remaining(phases[i := p]) == Remaining(phases) - Rank(phases[i]) + Rank(p)
  {
    var n := |phases| - 1;
    if i == n {
      assert phases[i := p][..n] == phases[..n];
    } else {
      RemainingUpdate(phases[..n], i, p);
      assert phases[i := p][..n] == phases[..n][i := p];
    }
  }

  // Every step, cancelling or not, uses up some of what remains: no schedule goes on for ever.
  lemma {:induction false} EveryScheduleEnds(y: Setup, s: State, steps: seq<Step>, end: State)
    requires |s.phase| == |y.keys| && IsRun(y, s, steps, end)
    ensures |steps| + Remaining(end.phase) <= Remaining(s.phase)
    decreases |steps|
  {
    if steps != [] {
      var t := Next(y, s, steps[0]);
      RemainingUpdate(s.phase, steps[0].j, t.phase[steps[0].j]);
      EveryScheduleEnds(y, t, steps[1..], end);
    }
  }

  // Hence a schedule that goes on while it can ends with every job over.
  lemma MaximalRunsFinish(y: Setup, s: State)
    requires y.globalLimit >= 1 && y.perClientLimit >= 1
    requires Reachable(y, s) && !CanProceed(y, s)
    ensures forall j :: 0 <= j < |s.phase| ==> Over(s.phase[j])
  {
    forall j | 0 <= j < |s.phase| ensures Over(s.phase[j]) {
      if !Over(s.phase[j]) {
        NeverStuck(y, s, j);
      }
    }
  }

  // A waiting job can take its permit exactly when fewer jobs than the limit hold one.
  lemma PermitFreeIff(y: Setup, s: State, j: nat)
    requires Reachable(y, s) && j < |y.keys|
    ensures |s.phase| == |y.keys|
    ensures s.phase[j] == WantGlobal ==> (CanStep(y, s, TakeGlobal(j)) <==> Count(GlobalHolders(s)) < y.globalLimit)
    ensures s.phase[j] == WantClient ==>
              (CanStep(y, s, TakeClient(j)) <==> Count(ClientHolders(y, s, y.keys[j].client)) < y.perClientLimit)
  {
    ReachableSafe(y, s);
  }

  // Job j was running in some state of the run.
  ghost predicate WasRunning(y: Setup, s: State, steps: seq<Step>, end: State, j: nat)
    requires IsRun(y, s, steps, end)
    decreases |steps|
  {
    (j < |s.phase| && s.phase[j] == Running)
    || (steps != [] && WasRunning(y, Next(y, s, steps[0]), steps[1..], end, j))
  }

  // Job j entered while another live job held its key.
  ghost predicate EnteredHeld(y: Setup, s: State, steps: seq<Step>, end: State, j: nat)
    requires IsRun(y, s, steps, end)
    decreases |steps|
  {
    steps != []
    && ((steps[0] == Enter(j) && HeldByOther(y, s, j)) || EnteredHeld(y, Next(y, s, steps[0]), steps[1..], end, j))
  }

  ghost predicate HeldByOther(y: Setup, s: State, j: nat) {
    j < |y.keys| && exists i :: 0 <= i < |s.phase| && i < |y.keys| && i != j && Live(s.phase[i]) && y.keys[i] == y.keys[j]
  }

  ghost predicate NeverCancelled(steps: seq<Step>, j: nat) {
    forall i :: 0 <= i < |steps| ==> steps[i] != Cancel(j)
  }

  lemma OnlyOwnStepsMove(y: Setup, s: State, step: Step, j: nat)
    requires CanStep(y, s, step) && step.j != j && j < |s.phase|
    ensures |Next(y, s, step).phase| == |s.phase| && Next(y, s, step).phase[j] == s.phase[j]
  {
  }

  // A job past its entry only moves on towards running.
  lemma {:induction false} AdmittedRuns(y: Setup, s: State, steps: seq<Step>, end: State, j: nat)
    requires |s.phase| == |y.keys| && j < |y.keys| && IsRun(y, s, steps, end) && NeverCancelled(steps, j)
    requires s.phase[j] == WantGlobal || s.phase[j] == WantClient
    requires j < |end.phase| && Over(end.phase[j])
    ensures WasRunning(y, s, steps, end, j) && !EnteredHeld(y, s, steps, end, j)
    decreases |steps|
  {
    if steps != [] {
      var t := Next(y, s, steps[0]);
      assert steps[0] != Cancel(j);
      assert forall i :: 0 <= i < |steps[1..]| ==> steps[1..][i] == steps[i + 1];
      if steps[0].j != j {
        OnlyOwnStepsMove(y, s, steps[0], j);
      }
      if t.phase[j] == Running {
        NotHeldLater(y, t, steps[1..], end, j);
      } else {
        AdmittedRuns(y, t, steps[1..], end, j);
      }
    }
  }

  // A job that has entered does not enter again.
  lemma {:induction false} NotHeldLater(y: Setup, s: State, steps: seq<Step>, end: State, j: nat)
    requires |s.phase| == |y.keys| && j < |y.keys| && IsRun(y, s, steps, end) && s.phase[j] != Idle
    ensures !EnteredHeld(y, s, steps, end, j)
    decreases |steps|
  {
    if steps != [] {
      if steps[0].j != j {
        OnlyOwnStepsMove(y, s, steps[0], j);
      }
      NotHeldLater(y, Next(y, s, steps[0]), steps[1..], end, j);
    }
  }

  lemma {:induction false} TurnedAwayStays(y: Setup, s: State, steps: seq<Step>, end: State, j: nat)
    requires |s.phase| == |y.keys| && j < |y.keys| && IsRun(y, s, steps, end) && s.phase[j] == Duplicate
    ensures |end.phase| == |y.keys| && end.phase[j] == Duplicate && !WasRunning(y, s, steps, end, j)
    decreases |steps|
  {
    if steps != [] {
      if steps[0].j != j {
        OnlyOwnStepsMove(y, s, steps[0], j);
      }
      TurnedAwayStays(y, Next(y, s, steps[0]), steps[1..], end, j);
    }
  }

  lemma {:induction false} EveryJobRunsFrom(y: Setup, s: State, steps: seq<Step>, end: State, j: nat)
    requires Safe(y, s) && j < |y.keys| && IsRun(y, s, steps, end) && NeverCancelled(steps, j)
    requires s.phase[j] == Idle && j < |end.phase| && Over(end.phase[j])
    ensures WasRunning(y, s, steps, end, j) <==> !EnteredHeld(y, s, steps, end, j)
    ensures end.phase[j] == Duplicate <==> EnteredHeld(y, s, steps, end, j)
    decreases |steps|
  {
    if steps != [] {
      var t := Next(y, s, steps[0]);
      StepKeepsSafe(y, s, steps[0]);
      assert forall i :: 0 <= i < |steps[1..]| ==> steps[1..][i] == steps[i + 1];
      if steps[0].j != j {
        OnlyOwnStepsMove(y, s, steps[0], j);
        EveryJobRunsFrom(y, t, steps[1..], end, j);
      } else if y.keys[j] in s.pending {
        assert LiveKey(y, s, y.keys[j]);
        assert HeldByOther(y, s, j);
        TurnedAwayStays(y, t, steps[1..], end, j);
      } else {
        assert !HeldByOther(y, s, j) by {
          assert !LiveKey(y, s, y.keys[j]);
        }
        AdmittedRuns(y, t, steps[1..], end, j);
        AdmittedIsNoDuplicate(y, t, steps[1..], end, j);
      }
    }
  }

  lemma {:induction false} AdmittedIsNoDuplicate(y: Setup, s: State, steps: seq<Step>, end: State, j: nat)
    requires |s.phase| == |y.keys| && j < |y.keys| && IsRun(y, s, steps, end)
    requires s.phase[j] != Idle && s.phase[j] != Duplicate
    ensures |end.phase| == |y.keys| && end.phase[j] != Duplicate
    decreases |steps|
  {
    if steps != [] {
      if steps[0].j != j {
        OnlyOwnStepsMove(y, s, steps[0], j);
      }
      AdmittedIsNoDuplicate(y, Next(y, s, steps[0]), steps[1..], end, j);
    }
  }

  // In every run in which a job is not cancelled and is over at the end, it held both permits at
  // some time, with one exception: it was turned away because another live job held its key when
  // it entered.
  lemma EveryJobRuns(y: Setup, steps: seq<Step>, end: State, j: nat)
    requires j < |y.keys| && IsRun(y, Initial(y), steps, end) && NeverCancelled(steps, j)
    requires j < |end.phase| && Over(end.phase[j])
    ensures WasRunning(y, Initial(y), steps, end, j) <==> !EnteredHeld(y, Initial(y), steps, end, j)
    ensures end.phase[j] == Duplicate <==> EnteredHeld(y, Initial(y), steps, end, j)
  {
    InitialSafe(y);
    EveryJobRunsFrom(y, Initial(y), steps, end, j);
  }

  // A job can be cancelled at either wait and nowhere else, and then never runs: at most the
  // return of its global permit and of its entry are left to it.
  lemma CancelledNeverRuns(y: Setup, s: State, steps: seq<Step>, end: State, j: nat)
    requires |s.phase| == |y.keys| && j < |y.keys|
    ensures CanStep(y, s, Cancel(j)) <==> s.phase[j] == WantGlobal || s.phase[j] == WantClient
    ensures CanStep(y, s, Cancel(j)) && IsRun(y, Next(y, s, Cancel(j)), steps, end) ==>
              && !WasRunning(y, Next(y, s, Cancel(j)), steps, end, j)
              && |end.phase| == |y.keys| && end.phase[j] in {GivingBack, Leaving, Finished}
              && (s.phase[j] == WantGlobal ==> end.phase[j] != GivingBack)
  {
    if CanStep(y, s, Cancel(j)) && IsRun(y, Next(y, s, Cancel(j)), steps, end) {
      LeavingNeverRuns(y, Next(y, s, Cancel(j)), steps, end, j);
    }
  }

  lemma {:induction false} LeavingNeverRuns(y: Setup, s: State, steps: seq<Step>, end: State, j: nat)
    requires |s.phase| == |y.keys| && j < |y.keys| && IsRun(y, s, steps, end)
    requires s.phase[j] in {GivingBack, Leaving, Finished}
    ensures !WasRunning(y, s, steps, end, j)
    ensures |end.phase| == |y.keys| && end.phase[j] in {GivingBack, Leaving, Finished}
    ensures s.phase[j] != GivingBack ==> end.phase[j] != GivingBack
    decreases |steps|
  {
    if steps != [] {
      if steps[0].j != j {
        OnlyOwnStepsMove(y, s, steps[0], j);
      }
      LeavingNeverRuns(y, Next(y, s, steps[0]), steps[1..], end, j);
    }
  }

  /** The scheduler; each method is one section under `mu` or one semaphore operation. */
  class Scheduler {
    const setup: Setup
    var globalUsed: int
    var perCli: map<ClientId, int>
    var pending: set<JobKey>
    var phase: seq<Phase>

    constructor (globalLimit: int, perClientLimit: int, keys: seq<JobKey>)
      ensures setup == Setup(globalLimit, perClientLimit, keys) && Current() == Initial(setup)
    {
      setup := Setup(globalLimit, perClientLimit, keys);
      globalUsed, perCli, pending := 0, map[], {};
      phase := seq(|keys|, _ => Idle);
    }

    function Current(): State reads this {
      State(globalUsed, perCli, pending, phase)
    }

    // The locked part of Acquire.
    method Enter(j: nat) returns (duplicate: bool)
      requires CanStep(setup, Current(), Step.Enter(j))
      modifies this
      ensures Current() == Next(setup, old(Current()), Step.Enter(j))
      ensures duplicate <==> setup.keys[j] in old(pending)
    {
      var key := setup.keys[j];
      duplicate := key in pending;
      if duplicate {
        phase := phase[j := Duplicate];
        return;
      }
      pending := pending + {key};
      if key.client !in perCli {
        perCli := perCli[key.client := 0];
      }
      phase := phase[j := WantGlobal];
    }

    // global.Acquire, or the cancellation of its context.
    method AcquireGlobal(j: nat, canceled: bool)
      requires CanStep(setup, Current(), if canceled then Cancel(j) else TakeGlobal(j)) && phase[j] == WantGlobal
      modifies this
      ensures Current() == Next(setup, old(Current()), if canceled then Cancel(j) else TakeGlobal(j))
    {
      if canceled {
        phase := phase[j := Leaving];
        return;
      }
      globalUsed := globalUsed + 1;
      phase := phase[j := WantClient];
    }

    // cliSem.Acquire, or the cancellation of its context.
    method AcquireClient(j: nat, canceled: bool)
      requires CanStep(setup, Current(), if canceled then Cancel(j) else TakeClient(j)) && phase[j] == WantClient
      modifies this
      ensures Current() == Next(setup, old(Current()), if canceled then Cancel(j) else TakeClient(j))
    {
      if canceled {
        phase := phase[j := GivingBack];
        return;
      }
      var c := setup.keys[j].client;
      perCli := perCli[c := perCli[c] + 1];
      phase := phase[j := Running];
    }

    // The release closure up to cliSem.Release; only its first call does anything.
    method Release(j: nat)
      requires j < |phase| == |setup.keys|
      requires Live(phase[j]) ==> setup.keys[j].client in perCli
      modifies this
      ensures Current() == if old(phase[j]) == Running then Next(setup, old(Current()), Step.Release(j)) else old(Current())
    {
      if phase[j] == Running {
        var c := setup.keys[j].client;
        perCli := perCli[c := perCli[c] - 1];
        phase := phase[j := GivingBack];
      }
    }

    method ReleaseGlobal(j: nat)
      requires CanStep(setup, Current(), GiveGlobal(j))
      modifies this
      ensures Current() == Next(setup, old(Current()), GiveGlobal(j))
    {
      globalUsed := globalUsed - 1;
      phase := phase[j := Leaving];
    }

    method RemovePending(j: nat)
      requires CanStep(setup, Current(), Leave(j))
      modifies this
      ensures Current() == Next(setup, old(Current()), Leave(j))
    {
      pending := pending - {setup.keys[j]};
      phase := phase[j := Finished];
    }
  }
}
