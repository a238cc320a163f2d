/** Connections: replacement, loss and shutdown (internal/server/hub/hub.go and conn.go). */
module Hub {
  import opened Prelude
  import opened Protocol

  // Where a connection's Run is: reading, past its read loop, past its own Close, past its
  // Unregister, past wg.Done.
  datatype Life = Reading | ReadDone | Shut | Unregistered | Over

  // Connections are numbered in the order of their registration. `toClose` is what is left of
  // the snapshot taken by Hub.Close, `seen` the number registered when it was taken.
  datatype State = State(
    conns: map<ClientId, nat>, client: seq<ClientId>, closed: set<nat>, life: seq<Life>, wg: int,
    seen: Option<nat>, toClose: set<nat>)

  datatype Step =
    | Register(x: ClientId) | PingFails(c: nat) | EndRead(c: nat) | CloseSelf(c: nat)
    | Unregister(c: nat) | Finish(c: nat) | Snapshot | CloseOne(c: nat)

  const EMPTY: State := State(map[], [], {}, [], 0, None, {})

  predicate CanStep(s: State, step: Step) {
    match step
    case Register(_) => true
    case PingFails(c) => c < |s.life| && s.life[c] != Over
    case EndRead(c) => c < |s.life| && s.life[c] == Reading
    case CloseSelf(c) => c < |s.life| && s.life[c] == ReadDone
    case Unregister(c) => c < |s.life| && c < |s.client| && s.life[c] == Shut
    case Finish(c) => c < |s.life| && s.life[c] == Unregistered
    case Snapshot => s.seen.None?
    case CloseOne(c) => c in s.toClose
  }

  function Next(s: State, step: Step): State
    requires CanStep(s, step)
  {
    match step
    case Register(x) =>
      s.(closed := if x in s.conns then s.closed + {s.conns[x]} else s.closed,
         conns := s.conns[x := |s.client|], client := s.client + [x], life := s.life + [Reading], wg := s.wg + 1)
    case PingFails(c) => s.(closed := s.closed + {c})
    case EndRead(c) => s.(life := s.life[c := ReadDone])
    case CloseSelf(c) => s.(closed := s.closed + {c}, life := s.life[c := Shut])
    case Unregister(c) =>
      var x := s.client[c];
      s.(conns := if x in s.conns && s.conns[x] == c then s.conns - {x} else s.conns, life := s.life[c := Unregistered])
    case Finish(c) => s.(life := s.life[c := Over], wg := s.wg - 1)
    case Snapshot => s.(seen := Some(|s.client|), toClose := s.conns.Values)
    case CloseOne(c) => s.(closed := s.closed + {c}, toClose := s.toClose - {c})
  }

  ghost predicate IsRun(s: State, steps: seq<Step>, end: State)
    decreases |steps|
  {
    if steps == [] then s == end
    else CanStep(s, steps[0]) && IsRun(Next(s, steps[0]), steps[1..], end)
  }

  function Counted(s: State): seq<bool> {
    seq(|s.life|, i requires 0 <= i < |s.life| => s.life[i] != Over)
  }

  // c is the last connection its client registered.
  ghost predicate Latest(s: State, c: nat) {
    c < |s.client| && forall d :: c < d < |s.client| ==> s.client[d] != s.client[c]
  }

  predicate Present(l: Life) { l != Unregistered && l != Over }

  // The map leads each client to its last connection, as long as that is not unregistered.
  ghost predicate LeadsToLatest(s: State)
    requires |s.life| == |s.client|
  {
    && (forall x :: x in s.conns ==>
          Latest(s, s.conns[x]) && s.client[s.conns[x]] == x && Present(s.life[s.conns[x]]))
    && (forall c: nat :: Latest(s, c) && Present(s.life[c]) ==> s.client[c] in s.conns)
  }

  // A connection that is past its own Close, or was replaced, is closed.
  ghost predicate OpenIsReached(s: State)
    requires |s.life| == |s.client|
  {
    forall c: nat :: c < |s.client| && c !in s.closed ==>
      s.life[c] in {Reading, ReadDone} && s.client[c] in s.conns && s.conns[s.client[c]] == c
  }

  // What was open when Hub.Close looked is closed or still on its list.
  ghost predicate SnapshotCovers(s: State) {
    s.seen.Some? ==>
      s.seen.value <= |s.client| && forall c: nat :: c < s.seen.value && c !in s.closed ==> c in s.toClose
  }

  // The wait group counts the connections whose Run has not returned.
  ghost predicate Valid(s: State) {
    && |s.life| == |s.client|
    && LeadsToLatest(s) && OpenIsReached(s) && SnapshotCovers(s)
    && s.wg == Count(Counted(s))
  }

  lemma EmptyIsValid()
    ensures Valid(EMPTY)
  {
    assert forall c: nat :: !Latest(EMPTY, c);
    assert Counted(EMPTY) == [];
  }

  lemma WaitGroupMoves(s: State, step: Step)
    requires CanStep(s, step) && s.wg == Count(Counted(s))
    ensures Next(s, step).wg == Count(Counted(Next(s, step)))
  {
    var t := Next(s, step);
    match step
    case Register(x) =>
      assert Counted(t)[..|s.life|] == Counted(s);
    case Finish(c) =>
      CountUpdate(Counted(s), c, false);
      assert Counted(t) == Counted(s)[c := false];
    case _ => assert Counted(t) == Counted(s);
  }

  lemma LatestAfterRegister(s: State, x: ClientId, c: nat)
    ensures var t := Next(s, Register(x));
            Latest(t, c) <==> c == |s.client| || (Latest(s, c) && s.client[c] != x)
  {
    var t := Next(s, Register(x));
    assert t.client[|s.client|] == x;
    assert forall d :: 0 <= d < |s.client| ==> t.client[d] == s.client[d];
  }

  lemma RegisterLeads(s: State, x: ClientId)
    requires |s.life| == |s.client| && LeadsToLatest(s)
    ensures LeadsToLatest(Next(s, Register(x)))
  {
    var t := Next(s, Register(x));
    forall y | y in t.conns
      ensures Latest(t, t.conns[y]) && t.client[t.conns[y]] == y && Present(t.life[t.conns[y]])
    {
      LatestAfterRegister(s, x, t.conns[y]);
    }
    forall c: nat | Latest(t, c) && Present(t.life[c]) ensures t.client[c] in t.conns {
      LatestAfterRegister(s, x, c);
    }
  }

  lemma SameMapLeads(s: State, t: State)
    requires |s.life| == |s.client| && LeadsToLatest(s)
    requires t.client == s.client && t.conns == s.conns && |t.life| == |s.life|
    requires forall c :: 0 <= c < |s.life| ==> Present(t.life[c]) == Present(s.life[c])
    ensures LeadsToLatest(t)
  {
    forall c: nat ensures Latest(t, c) <==> Latest(s, c) {}
  }

  lemma UnregisterLeads(s: State, c: nat)
    requires |s.life| == |s.client| && CanStep(s, Unregister(c)) && LeadsToLatest(s)
    ensures LeadsToLatest(Next(s, Unregister(c)))
  {
    var t := Next(s, Unregister(c));
    forall d: nat ensures Latest(t, d) <==> Latest(s, d) {}
    forall d: nat | Latest(t, d) && Present(t.life[d]) ensures t.client[d] in t.conns {
      assert d != c && s.client[d] in s.conns;
    }
  }

  lemma OtherStepsLead(s: State, step: Step)
    requires |s.life| == |s.client| && CanStep(s, step) && !step.Register? && LeadsToLatest(s)
    ensures LeadsToLatest(Next(s, step))
  {
    if step.Unregister? {
      UnregisterLeads(s, step.c);
    } else {
      SameMapLeads(s, Next(s, step));
    }
  }

  lemma StepKeepsOpenReached(s: State, step: Step)
    requires |s.life| == |s.client| && CanStep(s, step) && LeadsToLatest(s) && OpenIsReached(s)
    ensures OpenIsReached(Next(s, step))
  {
  }

  lemma StepKeepsSnapshot(s: State, step: Step)
    requires |s.life| == |s.client| && CanStep(s, step) && OpenIsReached(s) && SnapshotCovers(s)
    ensures SnapshotCovers(Next(s, step))
  {
  }

  lemma StepKeepsValid(s: State, step: Step)
    requires Valid(s) && CanStep(s, step)
    ensures Valid(Next(s, step))
  {
    WaitGroupMoves(s, step);
    StepKeepsOpenReached(s, step);
    StepKeepsSnapshot(s, step);
    if step.Register? {
      RegisterLeads(s, step.x);
    } else {
      OtherStepsLead(s, step);
    }
  }

  lemma {:induction false} RunKeepsValid(s: State, steps: seq<Step>, end: State)
    requires Valid(s) && IsRun(s, steps, end)
    ensures Valid(end)
    decreases |steps|
  {
    if steps != [] {
      StepKeepsValid(s, steps[0]);
      RunKeepsValid(Next(s, steps[0]), steps[1..], end);
    }
  }

  // Over every interleaving: a registered connection that is not closed is the one its client
  // is reached by, and a client is online exactly while the last connection it registered has
  // not been unregistered, whatever becomes of older ones.
  lemma OpenConnectionIsReached(steps: seq<Step>, s: State)
    requires IsRun(EMPTY, steps, s)
    ensures |s.life| == |s.client|
    ensures forall c :: 0 <= c < |s.client| && c !in s.closed ==> s.client[c] in s.conns && s.conns[s.client[c]] == c
    ensures forall x :: x in s.conns <==>
              exists c: nat :: Latest(s, c) && s.client[c] == x && Present(s.life[c])
  {
    EmptyIsValid();
    RunKeepsValid(EMPTY, steps, s);
  }

  // An old connection's Unregister leaves a newer one in the map.
  lemma StaleUnregister(steps: seq<Step>, s: State, c: nat, newer: nat)
    requires IsRun(EMPTY, steps, s) && CanStep(s, Unregister(c))
    requires c < newer < |s.client| && s.client[newer] == s.client[c]
    ensures Next(s, Unregister(c)).conns == s.conns
  {
    EmptyIsValid();
    RunKeepsValid(EMPTY, steps, s);
    assert !Latest(s, c);
  }

  predicate NoRegister(steps: seq<Step>) { forall i :: 0 <= i < |steps| ==> !steps[i].Register? }

  lemma {:induction false} NoRegisterKeepsSeen(s: State, steps: seq<Step>, end: State)
    requires Valid(s) && s.seen == Some(|s.client|) && NoRegister(steps) && IsRun(s, steps, end)
    ensures end.seen == Some(|end.client|)
    decreases |steps|
  {
    if steps != [] {
      StepKeepsValid(s, steps[0]);
      NoRegisterKeepsSeen(Next(s, steps[0]), steps[1..], end);
    }
  }

  // Shutdown: once Hub.Close has closed its snapshot, and nothing registered meanwhile, every
  // connection the wait group still counts is closed, and it counts none when all have ended.
  lemma ShutdownClosesAll(before: seq<Step>, s: State, after: seq<Step>, end: State)
    requires IsRun(EMPTY, before, s) && s.seen.None?
    requires NoRegister(after) && IsRun(Next(s, Snapshot), after, end) && end.toClose == {}
    ensures forall c :: 0 <= c < |end.client| ==> c in end.closed
    ensures end.wg == 0 <==> forall c :: 0 <= c < |end.life| ==> end.life[c] == Over
  {
    EmptyIsValid();
    RunKeepsValid(EMPTY, before, s);
    StepKeepsValid(s, Snapshot);
    RunKeepsValid(Next(s, Snapshot), after, end);
    NoRegisterKeepsSeen(Next(s, Snapshot), after, end);
    CountZero(Counted(end));
    assert forall c :: 0 <= c < |end.life| ==> (Counted(end)[c] <==> end.life[c] != Over);
  }

  // In general, with registrations going on: what is left open when the snapshot is closed
  // was registered after it was taken.
  lemma OnlyLateOnesStayOpen(steps: seq<Step>, s: State, c: nat)
    requires IsRun(EMPTY, steps, s) && s.seen.Some? && s.toClose == {}
    requires c < |s.client| && c !in s.closed
    ensures c >= s.seen.value
  {
    EmptyIsValid();
    RunKeepsValid(EMPTY, steps, s);
  }

  // Connections are numbered as they come, closed or not.
  ghost predicate Bounded(s: State) {
    (forall c :: c in s.closed ==> c < |s.client|) && (forall c :: c in s.toClose ==> c < |s.client|)
  }

  lemma StepKeepsBounded(s: State, step: Step)
    requires Valid(s) && Bounded(s) && CanStep(s, step)
    ensures Bounded(Next(s, step))
  {
    if step.Snapshot? {
      forall c | c in s.conns.Values ensures c < |s.client| {
        var x :| x in s.conns && s.conns[x] == c;
      }
    }
  }

  lemma {:induction false} RunKeepsBounded(s: State, steps: seq<Step>, end: State)
    requires Valid(s) && Bounded(s) && IsRun(s, steps, end)
    ensures Bounded(end)
    decreases |steps|
  {
    if steps != [] {
      StepKeepsValid(s, steps[0]);
      StepKeepsBounded(s, steps[0]);
      RunKeepsBounded(Next(s, steps[0]), steps[1..], end);
    }
  }

  // Closing what is left of the snapshot.
  lemma {:induction false} SnapshotGetsClosed(s: State) returns (steps: seq<Step>, end: State)
    ensures IsRun(s, steps, end) && end.toClose == {} && end.seen == s.seen && end.client == s.client
    ensures end.closed == s.closed + s.toClose
    decreases s.toClose
  {
    if s.toClose == {} {
      steps, end := [], s;
    } else {
      var c :| c in s.toClose;
      var more;
      more, end := SnapshotGetsClosed(Next(s, CloseOne(c)));
      steps := [CloseOne(c)] + more;
      assert steps[1..] == more;
    }
  }

  // From every reachable state in which Hub.Close has taken its snapshot: a registration that
  // slips in is still open when the snapshot is closed and Hub.Close starts to wait.
  lemma LateRegistrationStaysOpen(before: seq<Step>, s: State, x: ClientId)
    requires IsRun(EMPTY, before, s) && s.seen.Some?
    ensures exists steps, end ::
              IsRun(s, steps, end) && end.toClose == {} && |s.client| < |end.client| && |s.client| !in end.closed
  {
    EmptyIsValid();
    RunKeepsValid(EMPTY, before, s);
    RunKeepsBounded(EMPTY, before, s);
    var t := Next(s, Register(x));
    var more, end := SnapshotGetsClosed(t);
    var steps := [Register(x)] + more;
    assert steps[1..] == more;
    assert IsRun(s, steps, end);
    if x in s.conns {
      assert Latest(s, s.conns[x]);
    }
  }

  // A step that closes the connection itself: its ping fails, its Run ends, Hub.Close comes to it.
  predicate Closes(step: Step, c: nat) {
    step == PingFails(c) || step == CloseSelf(c) || step == CloseOne(c)
  }

  // The same client has registered again since.
  ghost predicate Replaced(s: State, c: nat) {
    exists d :: c < d < |s.client| && s.client[d] == s.client[c]
  }

  lemma StepCloses(s: State, step: Step, c: nat)
    requires Valid(s) && CanStep(s, step)
    ensures c in s.closed || Closes(step, c) ==> c in Next(s, step).closed
    ensures c in Next(s, step).closed ==> c in s.closed || Closes(step, c) || Replaced(Next(s, step), c)
    ensures Replaced(s, c) ==> Replaced(Next(s, step), c)
  {
    var t := Next(s, step);
    assert forall d :: 0 <= d < |s.client| ==> t.client[d] == s.client[d];
    if step.Register? && step.x in s.conns && c == s.conns[step.x] {
      assert t.client[|s.client|] == t.client[c];
    }
    if Replaced(s, c) {
      var d :| c < d < |s.client| && s.client[d] == s.client[c];
      assert t.client[d] == t.client[c];
    }
  }

  lemma {:induction false} RunCloses(s: State, steps: seq<Step>, end: State, c: nat)
    requires Valid(s) && IsRun(s, steps, end)
    ensures c in s.closed || (exists i :: 0 <= i < |steps| && Closes(steps[i], c)) ==> c in end.closed
    ensures c in end.closed ==> c in s.closed || (exists i :: 0 <= i < |steps| && Closes(steps[i], c)) || Replaced(end, c)
    ensures Replaced(s, c) ==> Replaced(end, c)
    decreases |steps|
  {
    if steps != [] {
      StepKeepsValid(s, steps[0]);
      StepCloses(s, steps[0], c);
      RunCloses(Next(s, steps[0]), steps[1..], end, c);
      assert forall i :: 0 <= i < |steps| - 1 ==> steps[1..][i] == steps[i + 1];
      if i :| 0 <= i < |steps[1..]| && Closes(steps[1..][i], c) {
        assert Closes(steps[i + 1], c);
      }
    }
  }

  // Over every interleaving a registered connection is closed exactly when its own ping failed, its
  // own Run got that far, Hub.Close came to it, or its client registered again: no other client's
  // registration closes it.
  lemma ClosedIff(steps: seq<Step>, s: State, c: nat)
    requires IsRun(EMPTY, steps, s) && c < |s.client|
    ensures c in s.closed <==> (exists i :: 0 <= i < |steps| && Closes(steps[i], c)) || Replaced(s, c)
  {
    EmptyIsValid();
    RunCloses(EMPTY, steps, s, c);
    RunKeepsValid(EMPTY, steps, s);
    assert OpenIsReached(s) && LeadsToLatest(s);
  }

  // What is left of a connection's Run once its reads have failed.
  function WayOut(l: Life, c: nat): seq<Step> {
    match l
    case Reading => [EndRead(c), CloseSelf(c), Unregister(c), Finish(c)]
    case ReadDone => [CloseSelf(c), Unregister(c), Finish(c)]
    case Shut => [Unregister(c), Finish(c)]
    case Unregistered => [Finish(c)]
    case Over => []
  }

  // Whatever else goes on, a connection can end by its own steps alone, is then closed, out of the
  // map and out of the wait group, and no other connection has been touched; until then a ping of
  // it can fail.
  lemma {:induction false} ConnectionCanEnd(s: State, c: nat)
    requires Valid(s) && c < |s.client|
    ensures exists end :: IsRun(s, WayOut(s.life[c], c), end) && Ended(s, end, c)
    ensures CanStep(s, PingFails(c)) <==> s.life[c] != Over
    decreases |WayOut(s.life[c], c)|
  {
    if s.life[c] == Over {
      OverIsEnded(s, c);
      assert IsRun(s, [], s);
    } else {
      var way := WayOut(s.life[c], c);
      var t := Next(s, way[0]);
      StepKeepsValid(s, way[0]);
      OneStepOut(s, c);
      ConnectionCanEnd(t, c);
      var end :| IsRun(t, WayOut(t.life[c], c), end) && Ended(t, end, c);
      EndedBefore(s, t, end, c);
      assert IsRun(s, way, end);
    }
  }

  lemma OverIsEnded(s: State, c: nat)
    requires Valid(s) && c < |s.client| && s.life[c] == Over
    ensures Ended(s, s, c)
  {
    assert c in s.closed;
    assert s.closed + {c} == s.closed;
  }

  lemma OneStepOut(s: State, c: nat)
    requires Valid(s) && c < |s.client| && s.life[c] != Over
    ensures var way := WayOut(s.life[c], c);
            && CanStep(s, way[0])
            && var t := Next(s, way[0]);
               && |t.life| == |s.life| && way[1..] == WayOut(t.life[c], c) && NearerEnd(s, t, c)
  {
    assert forall x :: x in s.conns && s.conns[x] == c ==> x == s.client[c];
  }

  ghost predicate NearerEnd(s: State, t: State, c: nat)
    requires c < |s.life| && c < |t.life|
  {
    && t.client == s.client && t.life[c := Over] == s.life[c := Over] && t.closed + {c} == s.closed + {c}
    && (forall x :: x in t.conns ==> x in s.conns && s.conns[x] == t.conns[x])
    && (forall x :: x in s.conns && s.conns[x] != c ==> x in t.conns)
    && t.wg - (if t.life[c] == Over then 0 else 1) == s.wg - (if s.life[c] == Over then 0 else 1)
  }

  lemma EndedBefore(s: State, t: State, end: State, c: nat)
    requires c < |s.life| == |t.life| && NearerEnd(s, t, c) && Ended(t, end, c)
    ensures Ended(s, end, c)
  {
  }

  ghost predicate Ended(s: State, end: State, c: nat)
    requires c < |s.life|
  {
    && end.client == s.client && |end.life| == |s.life| && end.life == s.life[c := Over]
    && end.closed == s.closed + {c}
    && (forall x :: x in end.conns <==> x in s.conns && s.conns[x] != c)
    && (forall x :: x in end.conns ==> end.conns[x] == s.conns[x])
    && end.wg == s.wg - if s.life[c] == Over then 0 else 1
  }

  /** The hub; each method is one section under `mu`, or one connection's idempotent Close. */
  class Hub {
    var conns: map<ClientId, nat>
    var client: seq<ClientId>
    var closed: set<nat>
    var life: seq<Life>
    var wg: int
    var seen: Option<nat>
    var toClose: set<nat>

    constructor ()
      ensures Current() == EMPTY
    {
      conns, client, closed, life, wg, seen, toClose := map[], [], {}, [], 0, None, {};
    }

    function Current(): State reads this {
      State(conns, client, closed, life, wg, seen, toClose)
    }

    method Register(x: ClientId) returns (c: nat)
      modifies this
      ensures c == |old(client)| && Current() == Next(old(Current()), Step.Register(x))
    {
      c := |client|;
      if x in conns {
        closed := closed + {conns[x]};
      }
      conns := conns[x := c];
      client, life := client + [x], life + [Reading];
      wg := wg + 1;
    }

    method Unregister(c: nat)
      requires CanStep(Current(), Step.Unregister(c))
      modifies this
      ensures Current() == Next(old(Current()), Step.Unregister(c))
    {
      var x := client[c];
      if x in conns && conns[x] == c {
        conns := conns - {x};
      }
      life := life[c := Unregistered];
    }

    // Conn.Close, as a failed ping calls it; closing twice is closing once.
    method PingFails(c: nat)
      requires CanStep(Current(), Step.PingFails(c))
      modifies this`closed
      ensures Current() == Next(old(Current()), Step.PingFails(c))
    {
      closed := closed + {c};
    }

    // The read loop returns.
    method EndRead(c: nat)
      requires CanStep(Current(), Step.EndRead(c))
      modifies this`life
      ensures Current() == Next(old(Current()), Step.EndRead(c))
    {
      life := life[c := ReadDone];
    }

    // Run's own Close after its read loop.
    method CloseSelf(c: nat)
      requires CanStep(Current(), Step.CloseSelf(c))
      modifies this`closed, this`life
      ensures Current() == Next(old(Current()), Step.CloseSelf(c))
    {
      closed, life := closed + {c}, life[c := Shut];
    }

    // Run has returned, and its goroutine is done.
    method Finish(c: nat)
      requires CanStep(Current(), Step.Finish(c))
      modifies this`wg, this`life
      ensures Current() == Next(old(Current()), Step.Finish(c))
    {
      wg, life := wg - 1, life[c := Over];
    }

    // The locked part of Close.
    method TakeSnapshot()
      requires seen.None?
      modifies this
      ensures Current() == Next(old(Current()), Snapshot)
    {
      var todo := conns.Keys;
      toClose := {};
      while todo != {}
        modifies this`toClose
        invariant todo <= conns.Keys
        invariant toClose == set x | x in conns && x !in todo :: conns[x]
        decreases todo
      {
        var x :| x in todo;
        toClose, todo := toClose + {conns[x]}, todo - {x};
      }
      assert toClose == conns.Values;
      seen := Some(|client|);
    }

    // The unlocked part of Close, one connection at a time.
    method CloseOne(c: nat)
      requires CanStep(Current(), Step.CloseOne(c))
      modifies this`closed, this`toClose
      ensures Current() == Next(old(Current()), Step.CloseOne(c))
    {
      closed, toClose := closed + {c}, toClose - {c};
    }

    method IsOnline(x: ClientId) returns (online: bool)
      ensures online <==> x in conns
    {
      online := x in conns;
    }
  }
}
