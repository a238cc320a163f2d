/** The request/response registry (internal/server/hub/pending.go, SendAndWait in hub.go,
    and the routing of responses in conn.go). */
module PendingRegistry {
  import opened Prelude

  type CorrId = string

  datatype Envelope = Envelope(corr: CorrId, body: string)

  // Where one call of SendAndWait is. A failed send, a timeout and a cancelled context all
  // end the wait without a response.
  datatype Phase = Starting | Waiting | Answered(env: Envelope) | GivenUp | Returned(result: Option<Envelope>)

  // Waiter w waits on channel w. `taken` holds envelopes whose Resolve has removed the entry
  // and not yet sent; `sends` counts the sends each channel ever got.
  datatype State = State(
    m: map<CorrId, nat>, chan: seq<seq<Envelope>>, taken: seq<seq<Envelope>>, sends: seq<nat>, phase: seq<Phase>)

  datatype Step =
    | Register(w: nat) | Resolve(env: Envelope) | Deliver(w: nat) | Receive(w: nat) | GiveUp(w: nat) | Cancel(w: nat)

  const CAPACITY: nat := 1

  function Initial(ids: seq<CorrId>): State {
    State(map[], seq(|ids|, _ => []), seq(|ids|, _ => []), seq(|ids|, _ => 0), seq(|ids|, _ => Starting))
  }

  predicate Sized(ids: seq<CorrId>, s: State) {
    |s.chan| == |s.taken| == |s.sends| == |s.phase| == |ids|
    && forall id :: id in s.m ==> s.m[id] < |ids|
  }

  // Deliver is enabled whenever there is something to deliver, room or no room.
  predicate CanStep(ids: seq<CorrId>, s: State, step: Step) {
    Sized(ids, s) &&
    match step
    case Register(w) => w < |ids| && s.phase[w] == Starting
    case Resolve(_) => true
    case Deliver(w) => w < |ids| && s.taken[w] != []
    case Receive(w) => w < |ids| && s.phase[w] == Waiting && s.chan[w] != []
    case GiveUp(w) => w < |ids| && s.phase[w] == Waiting
    case Cancel(w) => w < |ids| && (s.phase[w].Answered? || s.phase[w].GivenUp?)
  }

  function Next(ids: seq<CorrId>, s: State, step: Step): State
    requires CanStep(ids, s, step)
  {
    match step
    case Register(w) => s.(m := s.m[ids[w] := w], phase := s.phase[w := Waiting])
    case Resolve(env) =>
      if env.corr !in s.m then s
      else
        var w := s.m[env.corr];
        s.(m := s.m - {env.corr}, taken := s.taken[w := s.taken[w] + [env]])
    case Deliver(w) =>
      s.(chan := s.chan[w := s.chan[w] + [s.taken[w][0]]], taken := s.taken[w := s.taken[w][1..]],
         sends := s.sends[w := s.sends[w] + 1])
    case Receive(w) =>
      s.(chan := s.chan[w := s.chan[w][1..]], phase := s.phase[w := Answered(s.chan[w][0])])
    case GiveUp(w) => s.(phase := s.phase[w := GivenUp])
    case Cancel(w) =>
      s.(m := s.m - {ids[w]},
         phase := s.phase[w := Returned(if s.phase[w].Answered? then Some(s.phase[w].env) else None)])
  }

  ghost predicate IsRun(ids: seq<CorrId>, s: State, steps: seq<Step>, end: State)
    decreases |steps|
  {
    if steps == [] then s == end
    else CanStep(ids, s, steps[0]) && IsRun(ids, Next(ids, s, steps[0]), steps[1..], end)
  }

  ghost predicate Distinct(ids: seq<CorrId>) {
    forall i, j :: 0 <= i < j < |ids| ==> ids[i] != ids[j]
  }

  // One waiter and its channel.
  ghost predicate WaiterOk(ids: seq<CorrId>, s: State, w: nat)
    requires Sized(ids, s) && w < |ids|
  {
    && |s.taken[w]| + s.sends[w] <= 1
    && |s.chan[w]| <= s.sends[w]
    && (ids[w] in s.m ==> s.m[ids[w]] == w && |s.taken[w]| + s.sends[w] == 0)
    && (forall e :: e in s.taken[w] || e in s.chan[w] ==> e.corr == ids[w])
    && (s.phase[w].Answered? ==> s.phase[w].env.corr == ids[w])
    && (s.phase[w].Returned? && s.phase[w].result.Some? ==> s.phase[w].result.value.corr == ids[w])
    && (s.phase[w].Starting? ==> |s.taken[w]| + s.sends[w] == 0)
    && (s.phase[w].Starting? || s.phase[w].Returned? ==> ids[w] !in s.m)
  }

  ghost predicate Ok(ids: seq<CorrId>, s: State) {
    && Sized(ids, s)
    && (forall id :: id in s.m ==> ids[s.m[id]] == id)
    && (forall w: nat :: w < |ids| ==> WaiterOk(ids, s, w))
  }

  lemma StepKeepsOk(ids: seq<CorrId>, s: State, step: Step)
    requires Distinct(ids) && Ok(ids, s) && CanStep(ids, s, step)
    ensures Ok(ids, Next(ids, s, step))
  {
    var t := Next(ids, s, step);
    assert forall w: nat :: w < |ids| ==> WaiterOk(ids, s, w);
    assert Sized(ids, t);
    forall w: nat | w < |ids| ensures WaiterOk(ids, t, w) {
      StepKeepsWaiter(ids, s, step, w);
    }
  }

  lemma StepKeepsWaiter(ids: seq<CorrId>, s: State, step: Step, w: nat)
    requires Distinct(ids) && Ok(ids, s) && CanStep(ids, s, step) && w < |ids| && Sized(ids, Next(ids, s, step))
    ensures WaiterOk(ids, Next(ids, s, step), w)
  {
    assert WaiterOk(ids, s, w);
    match step
    case Deliver(v) => assert v == w ==> s.taken[w][0] in s.taken[w];
    case Receive(v) => assert v == w ==> s.chan[w][0] in s.chan[w];
    case _ =>
  }

  lemma {:induction false} RunKeepsOk(ids: seq<CorrId>, s: State, steps: seq<Step>, end: State)
    requires Distinct(ids) && Ok(ids, s) && IsRun(ids, s, steps, end)
    ensures Ok(ids, end)
    decreases |steps|
  {
    if steps != [] {
      StepKeepsOk(ids, s, steps[0]);
      RunKeepsOk(ids, Next(ids, s, steps[0]), steps[1..], end);
    }
  }

  // When every call has returned the registry is empty.
  lemma NothingLeft(ids: seq<CorrId>, steps: seq<Step>, s: State)
    requires Distinct(ids) && IsRun(ids, Initial(ids), steps, s)
    requires Sized(ids, s) && forall w :: 0 <= w < |ids| ==> s.phase[w].Returned?
    ensures s.m == map[]
  {
    RunKeepsOk(ids, Initial(ids), steps, s);
    forall id | id in s.m ensures !s.phase[s.m[id]].Returned? {
      assert WaiterOk(ids, s, s.m[id]);
    }
  }

  // A response to the waiter's id, or one already on its way, will come to the waiter.
  predicate Reachable(ids: seq<CorrId>, s: State, w: nat)
    requires Sized(ids, s) && w < |ids|
  {
    (ids[w] in s.m && s.m[ids[w]] == w) || s.taken[w] != [] || s.chan[w] != []
  }

  // Some continuation gives the call its answer.
  ghost predicate CanBeAnswered(ids: seq<CorrId>, s: State, w: nat)
    requires w < |ids|
  {
    exists more, end :: IsRun(ids, s, more, end) && Sized(ids, end) && end.phase[w].Answered?
  }

  // Entries stand under their waiter's id, shared or not.
  ghost predicate Keyed(ids: seq<CorrId>, s: State) {
    Sized(ids, s) && forall id :: id in s.m ==> ids[s.m[id]] == id
  }

  // A call past its registration that cannot be reached and has no answer.
  predicate Lost(ids: seq<CorrId>, s: State, w: nat)
    requires Sized(ids, s) && w < |ids|
  {
    !s.phase[w].Starting? && !s.phase[w].Answered? && !Reachable(ids, s, w)
  }

  lemma StepKeepsLost(ids: seq<CorrId>, s: State, step: Step, w: nat)
    requires Keyed(ids, s) && CanStep(ids, s, step) && w < |ids| && Lost(ids, s, w)
    ensures Keyed(ids, Next(ids, s, step)) && Lost(ids, Next(ids, s, step), w)
  {
    assert Sized(ids, Next(ids, s, step));
  }

  lemma {:induction false} RunKeepsLost(ids: seq<CorrId>, s: State, steps: seq<Step>, end: State, w: nat)
    requires Keyed(ids, s) && IsRun(ids, s, steps, end) && w < |ids| && Lost(ids, s, w)
    ensures Sized(ids, end) && Lost(ids, end, w)
    decreases |steps|
  {
    if steps != [] {
      StepKeepsLost(ids, s, steps[0], w);
      RunKeepsLost(ids, Next(ids, s, steps[0]), steps[1..], end, w);
    }
  }

  lemma OneStep(ids: seq<CorrId>, s: State, step: Step, more: seq<Step>, end: State)
    requires CanStep(ids, s, step) && IsRun(ids, Next(ids, s, step), more, end)
    ensures IsRun(ids, s, [step] + more, end)
  {
    assert ([step] + more)[1..] == more;
  }

  lemma ReceivesWhatWaits(ids: seq<CorrId>, s: State, w: nat)
    requires Sized(ids, s) && w < |ids| && s.phase[w] == Waiting && s.chan[w] != []
    ensures CanBeAnswered(ids, s, w)
  {
    var end := Next(ids, s, Receive(w));
    OneStep(ids, s, Receive(w), [], end);
    assert Sized(ids, end) && end.phase[w].Answered?;
  }

  lemma AnsweredLater(ids: seq<CorrId>, s: State, step: Step, w: nat)
    requires CanStep(ids, s, step) && w < |ids| && CanBeAnswered(ids, Next(ids, s, step), w)
    ensures CanBeAnswered(ids, s, w)
  {
    var more, end :| IsRun(ids, Next(ids, s, step), more, end) && Sized(ids, end) && end.phase[w].Answered?;
    OneStep(ids, s, step, more, end);
  }

  // A waiting call can still get its answer exactly when it is reachable.
  lemma AnsweredIffReachable(ids: seq<CorrId>, s: State, w: nat)
    requires Keyed(ids, s) && w < |ids| && s.phase[w] == Waiting
    ensures CanBeAnswered(ids, s, w) <==> Reachable(ids, s, w)
  {
    if !Reachable(ids, s, w) {
      forall more, end | IsRun(ids, s, more, end) && Sized(ids, end) ensures !end.phase[w].Answered? {
        RunKeepsLost(ids, s, more, end, w);
      }
    } else if s.chan[w] != [] {
      ReceivesWhatWaits(ids, s, w);
    } else {
      var env := Envelope(ids[w], "");
      var s1 := if s.taken[w] != [] then s else Next(ids, s, Resolve(env));
      assert Sized(ids, s1) && s1.taken[w] != [] && s1.phase[w] == Waiting;
      var s2 := Next(ids, s1, Deliver(w));
      assert Sized(ids, s2) && s2.chan[w] != [];
      ReceivesWhatWaits(ids, s2, w);
      AnsweredLater(ids, s1, Deliver(w), w);
      if s.taken[w] == [] {
        AnsweredLater(ids, s, Resolve(env), w);
      }
    }
  }

  // With distinct ids a waiting call stays reachable.
  ghost predicate WaitingReachable(ids: seq<CorrId>, s: State) {
    Sized(ids, s) && forall w: nat :: w < |ids| && s.phase[w] == Waiting ==> Reachable(ids, s, w)
  }

  lemma StepKeepsReachable(ids: seq<CorrId>, s: State, step: Step)
    requires Distinct(ids) && Ok(ids, s) && WaitingReachable(ids, s) && CanStep(ids, s, step)
    ensures WaitingReachable(ids, Next(ids, s, step))
  {
    var t := Next(ids, s, step);
    StepKeepsOk(ids, s, step);
    forall w: nat | w < |ids| && t.phase[w] == Waiting ensures Reachable(ids, t, w) {
      assert WaiterOk(ids, s, w);
      if s.phase[w] == Waiting {
        assert Reachable(ids, s, w);
      }
    }
  }

  lemma {:induction false} RunKeepsReachable(ids: seq<CorrId>, s: State, steps: seq<Step>, end: State)
    requires Distinct(ids) && Ok(ids, s) && WaitingReachable(ids, s) && IsRun(ids, s, steps, end)
    ensures Ok(ids, end) && WaitingReachable(ids, end)
    decreases |steps|
  {
    if steps != [] {
      StepKeepsOk(ids, s, steps[0]);
      StepKeepsReachable(ids, s, steps[0]);
      RunKeepsReachable(ids, Next(ids, s, steps[0]), steps[1..], end);
    }
  }

  // Over every interleaving, with distinct correlation ids: each channel gets at most one
  // send, so a send never finds its channel full; a waiting call can still be answered; what a
  // call returns carries its own id; and its entry is gone once it has returned.
  lemma ResponsesReachTheirWaiter(ids: seq<CorrId>, steps: seq<Step>, s: State, w: nat)
    requires Distinct(ids) && IsRun(ids, Initial(ids), steps, s) && w < |ids|
    ensures Sized(ids, s) && s.sends[w] <= 1
    ensures s.taken[w] != [] ==> |s.chan[w]| < CAPACITY
    ensures s.phase[w] == Waiting ==> CanBeAnswered(ids, s, w)
    ensures s.phase[w].Returned? ==> ids[w] !in s.m
    ensures s.phase[w].Returned? && s.phase[w].result.Some? ==> s.phase[w].result.value.corr == ids[w]
  {
    RunKeepsReachable(ids, Initial(ids), steps, s);
    assert WaiterOk(ids, s, w);
    if s.phase[w] == Waiting {
      AnsweredIffReachable(ids, s, w);
    }
  }

  // In every state of every run, every waiting call can still be answered.
  ghost predicate NoneIsLost(ids: seq<CorrId>) {
    forall steps, s, w: nat :: IsRun(ids, Initial(ids), steps, s) && w < |ids| && Waits(s, w) ==> CanBeAnswered(ids, s, w)
  }

  predicate Waits(s: State, w: nat) { w < |s.phase| && s.phase[w] == Waiting }

  // The promise of the registry holds exactly when the correlation ids are distinct.
  lemma AnswerableIffDistinct(ids: seq<CorrId>)
    ensures NoneIsLost(ids) <==> Distinct(ids)
  {
    if Distinct(ids) {
      forall steps, s, w: nat | IsRun(ids, Initial(ids), steps, s) && w < |ids| && Waits(s, w)
        ensures CanBeAnswered(ids, s, w)
      {
        RunKeepsReachable(ids, Initial(ids), steps, s);
        AnsweredIffReachable(ids, s, w);
      }
    } else {
      var i, j :| 0 <= i < j < |ids| && ids[i] == ids[j];
      SharedIdLosesResponse(ids, i, j);
    }
  }

  // The two calls register, and the first gives up and returns.
  lemma FirstReturns(ids: seq<CorrId>, i: nat, j: nat) returns (s2: State, s4: State)
    requires i < j < |ids| && ids[i] == ids[j]
    ensures IsRun(ids, Initial(ids), [Register(i)] + ([Register(j)] + []), s2)
    ensures IsRun(ids, s2, [GiveUp(i)] + ([Cancel(i)] + []), s4)
    ensures Keyed(ids, s4) && Waits(s4, j) && !Reachable(ids, s4, j)
  {
    var s1 := Next(ids, Initial(ids), Register(i));
    s2 := Next(ids, s1, Register(j));
    var s3 := Next(ids, s2, GiveUp(i));
    s4 := Next(ids, s3, Cancel(i));
    OneStep(ids, s1, Register(j), [], s2);
    OneStep(ids, Initial(ids), Register(i), [Register(j)] + [], s2);
    OneStep(ids, s3, Cancel(i), [], s4);
    OneStep(ids, s2, GiveUp(i), [Cancel(i)] + [], s4);
  }

  lemma {:induction false} RunsJoin(ids: seq<CorrId>, s: State, u: seq<Step>, m: State, v: seq<Step>, end: State)
    requires IsRun(ids, s, u, m) && IsRun(ids, m, v, end)
    ensures IsRun(ids, s, u + v, end)
    decreases |u|
  {
    if u == [] {
      assert u + v == v;
    } else {
      RunsJoin(ids, Next(ids, s, u[0]), u[1..], m, v, end);
      assert (u + v)[0] == u[0] && (u + v)[1..] == u[1..] + v;
    }
  }

  // Two calls with one id, wherever they stand: the second registration takes the entry over,
  // and the first caller's return removes it. The second call waits and no continuation answers
  // it.
  lemma SharedIdLosesResponse(ids: seq<CorrId>, i: nat, j: nat)
    requires i < j < |ids| && ids[i] == ids[j]
    ensures exists steps, s :: IsRun(ids, Initial(ids), steps, s) && Waits(s, j) && !CanBeAnswered(ids, s, j)
  {
    var s2, s4 := FirstReturns(ids, i, j);
    RunsJoin(ids, Initial(ids), [Register(i)] + ([Register(j)] + []), s2, [GiveUp(i)] + ([Cancel(i)] + []), s4);
    AnsweredIffReachable(ids, s4, j);
  }

  // Every envelope in the registry, on its way or with a caller is one of these.
  ghost predicate From(ids: seq<CorrId>, s: State, given: set<Envelope>) {
    Sized(ids, s) && forall w :: 0 <= w < |ids| ==>
      && (forall e :: e in s.taken[w] || e in s.chan[w] ==> e in given)
      && (s.phase[w].Answered? ==> s.phase[w].env in given)
      && (s.phase[w].Returned? && s.phase[w].result.Some? ==> s.phase[w].result.value in given)
  }

  function Given(steps: seq<Step>): set<Envelope> {
    set i | 0 <= i < |steps| && steps[i].Resolve? :: steps[i].env
  }

  lemma StepKeepsFrom(ids: seq<CorrId>, s: State, step: Step, given: set<Envelope>)
    requires CanStep(ids, s, step) && From(ids, s, given)
    ensures From(ids, Next(ids, s, step), given + Given([step]))
  {
    assert step.Resolve? ==> [step][0].env in Given([step]);
    match step
    case Deliver(w) => assert s.taken[w][0] in s.taken[w];
    case Receive(w) => assert s.chan[w][0] in s.chan[w];
    case _ =>
  }

  lemma {:induction false} RunKeepsFrom(ids: seq<CorrId>, s: State, steps: seq<Step>, end: State, given: set<Envelope>)
    requires IsRun(ids, s, steps, end) && From(ids, s, given)
    ensures From(ids, end, given + Given(steps))
    decreases |steps|
  {
    if steps == [] {
      assert given + Given(steps) == given;
    } else {
      StepKeepsFrom(ids, s, steps[0], given);
      RunKeepsFrom(ids, Next(ids, s, steps[0]), steps[1..], end, given + Given([steps[0]]));
      assert given + Given([steps[0]]) + Given(steps[1..]) <= given + Given(steps) by {
        assert forall i :: 0 <= i < |steps| - 1 ==> steps[1..][i] == steps[i + 1];
      }
    }
  }

  // What a call returns is a response that came in, body and all.
  lemma AnswersCameIn(ids: seq<CorrId>, steps: seq<Step>, s: State, w: nat)
    requires IsRun(ids, Initial(ids), steps, s) && w < |ids|
    ensures |s.phase| == |ids|
    ensures s.phase[w].Returned? && s.phase[w].result.Some? ==> Resolve(s.phase[w].result.value) in steps
  {
    RunKeepsFrom(ids, Initial(ids), steps, s, {});
    if s.phase[w].Returned? && s.phase[w].result.Some? {
      var env := s.phase[w].result.value;
      assert env in Given(steps);
      var i :| 0 <= i < |steps| && steps[i].Resolve? && steps[i].env == env;
      assert steps[i] == Resolve(env);
    }
  }

  // The waits a call has still to decide.
  predicate Undecided(p: Phase) { p == Starting || p == Waiting }

  predicate SaysSo(p: Phase, answered: bool) {
    match p
    case Answered(_) => answered
    case GivenUp => !answered
    case Returned(result) => result.Some? == answered
    case _ => false
  }

  lemma {:induction false} DecidedStays(ids: seq<CorrId>, s: State, steps: seq<Step>, end: State, w: nat, answered: bool)
    requires Sized(ids, s) && IsRun(ids, s, steps, end) && w < |ids| && SaysSo(s.phase[w], answered)
    ensures Sized(ids, end) && SaysSo(end.phase[w], answered)
    ensures Receive(w) !in steps && GiveUp(w) !in steps
    decreases |steps|
  {
    if steps != [] {
      var t := Next(ids, s, steps[0]);
      assert Sized(ids, t);
      DecidedStays(ids, t, steps[1..], end, w, answered);
      assert steps == [steps[0]] + steps[1..];
    }
  }

  lemma {:induction false} DecidesOnce(ids: seq<CorrId>, s: State, steps: seq<Step>, end: State, w: nat)
    requires Sized(ids, s) && IsRun(ids, s, steps, end) && w < |ids| && Undecided(s.phase[w])
    ensures Sized(ids, end)
    ensures Undecided(end.phase[w]) ==> Receive(w) !in steps && GiveUp(w) !in steps
    ensures !Undecided(end.phase[w]) ==> (Receive(w) in steps <==> GiveUp(w) !in steps) && SaysSo(end.phase[w], Receive(w) in steps)
    decreases |steps|
  {
    if steps != [] {
      var t := Next(ids, s, steps[0]);
      assert Sized(ids, t);
      assert steps == [steps[0]] + steps[1..];
      if Undecided(t.phase[w]) {
        DecidesOnce(ids, t, steps[1..], end, w);
      } else {
        DecidedStays(ids, t, steps[1..], end, w, steps[0] == Receive(w));
      }
    }
  }

  // A call returns a response exactly when it received one, and then did not give up.
  lemma ReturnsWhatItReceived(ids: seq<CorrId>, steps: seq<Step>, s: State, w: nat)
    requires IsRun(ids, Initial(ids), steps, s) && w < |ids|
    ensures |s.phase| == |ids|
    ensures s.phase[w].Returned? ==>
              (s.phase[w].result.Some? <==> Receive(w) in steps) && (s.phase[w].result.None? <==> GiveUp(w) in steps)
  {
    DecidesOnce(ids, Initial(ids), steps, s, w);
  }

  /** The registry with its waiters and channels; each method is one section under `mu`, one
      channel operation, or one turn of SendAndWait. */
  class Registry {
    const ids: seq<CorrId>
    var m: map<CorrId, nat>
    var chan: seq<seq<Envelope>>
    var taken: seq<seq<Envelope>>
    var sends: seq<nat>
    var phase: seq<Phase>

    constructor (ids: seq<CorrId>)
      ensures this.ids == ids && Current() == Initial(ids)
    {
      this.ids, m := ids, map[];
      chan, taken := seq(|ids|, _ => []), seq(|ids|, _ => []);
      sends, phase := seq(|ids|, _ => 0), seq(|ids|, _ => Starting);
    }

    function Current(): State reads this {
      State(m, chan, taken, sends, phase)
    }

    method Register(w: nat)
      requires CanStep(ids, Current(), Step.Register(w))
      modifies this
      ensures Current() == Next(ids, old(Current()), Step.Register(w))
    {
      m := m[ids[w] := w];
      phase := phase[w := Waiting];
    }

    // The locked part of Resolve, and whether somebody waits.
    method Resolve(env: Envelope) returns (waited: bool)
      requires Sized(ids, Current())
      modifies this
      ensures Current() == Next(ids, old(Current()), Step.Resolve(env))
      ensures waited <==> env.corr in old(m)
    {
      waited := env.corr in m;
      if waited {
        var w := m[env.corr];
        m := m - {env.corr};
        taken := taken[w := taken[w] + [env]];
      }
    }

    // The send at the end of Resolve; the channel has room.
    method Deliver(w: nat)
      requires CanStep(ids, Current(), Step.Deliver(w)) && |chan[w]| < CAPACITY
      modifies this
      ensures Current() == Next(ids, old(Current()), Step.Deliver(w)) && |chan[w]| <= CAPACITY
    {
      chan := chan[w := chan[w] + [taken[w][0]]];
      taken := taken[w := taken[w][1..]];
      sends := sends[w := sends[w] + 1];
    }

    // SendAndWait's select: the response, or a failed send, a timeout or a cancelled context.
    method Receive(w: nat) returns (env: Envelope)
      requires CanStep(ids, Current(), Step.Receive(w))
      modifies this
      ensures Current() == Next(ids, old(Current()), Step.Receive(w)) && phase[w] == Answered(env)
    {
      env := chan[w][0];
      chan := chan[w := chan[w][1..]];
      phase := phase[w := Answered(env)];
    }

    method GiveUp(w: nat)
      requires CanStep(ids, Current(), Step.GiveUp(w))
      modifies this`phase
      ensures Current() == Next(ids, old(Current()), Step.GiveUp(w))
    {
      phase := phase[w := GivenUp];
    }

    // The deferred Cancel, as SendAndWait returns.
    method Cancel(w: nat) returns (result: Option<Envelope>)
      requires CanStep(ids, Current(), Step.Cancel(w))
      modifies this
      ensures Current() == Next(ids, old(Current()), Step.Cancel(w))
      ensures phase[w] == Returned(result)
    {
      result := if phase[w].Answered? then Some(phase[w].env) else None;
      m := m - {ids[w]};
      phase := phase[w := Returned(result)];
    }
  }
}
