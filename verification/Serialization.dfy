/** Concurrent calls of HandleFileChanged under the per-pair mutex
    (internal/server/syncengine/engine.go:33-62, 151-200). */
module Serialization {
  import opened Protocol
  import opened FileStateTable
  import opened Engine

  // What each handler was called with; the sends that get through are part of it.
  datatype Call = Call(r: Report, budget: nat)

  // Where a handler is: waiting for its pair's mutex, holding it, past its upsert, past its
  // read of the other side with these sends left, or returned.
  datatype Phase = Waiting | Locked | Stored | Sending(rest: seq<Send>) | Returned

  // `order` records who took a mutex, in order.
  datatype State = State(
    rows: Table, sent: seq<Send>, holder: map<PairId, nat>, phase: seq<Phase>, order: seq<nat>)

  // The handlers and the pairs do not change during a run.
  datatype System = System(pairs: map<PairId, Pair>, calls: seq<Call>)

  function PairOf(y: System, t: nat): PairId
    requires t < |y.calls|
  {
    y.calls[t].r.ev.pair
  }

  function SendsLeft(y: System, rows: Table, t: nat): seq<Send>
    requires t < |y.calls|
  {
    var r := y.calls[t].r;
    if PairOf(y, t) !in y.pairs then []
    else Delivered(Plan(y.pairs[PairOf(y, t)], r, RowOf(r.ev, r.now), Lookup(rows, OtherKey(r.ev))), y.calls[t].budget)
  }

  // A handler waits while its pair's mutex is held, and is done once it has returned.
  predicate Enabled(y: System, c: State, t: nat) {
    t < |y.calls| && t < |c.phase|
    && match c.phase[t]
       case Waiting => PairOf(y, t) !in c.holder
       case Returned => false
       case _ => true
  }

  // One atomic step of handler t; a handler that cannot move stays where it is.
  function Step(y: System, c: State, t: nat): State {
    if !Enabled(y, c, t) then c
    else
      var p := PairOf(y, t);
      var r := y.calls[t].r;
      match c.phase[t]
      case Waiting =>
        c.(holder := c.holder[p := t], phase := c.phase[t := Locked], order := c.order + [t])
      case Locked =>
        if p !in y.pairs then c.(phase := c.phase[t := Sending([])])
        else
          c.(rows := Upserted(c.rows, Upsert(KeyOf(r.ev), RowOf(r.ev, r.now))), phase := c.phase[t := Stored])
      case Stored =>
        c.(phase := c.phase[t := Sending(SendsLeft(y, c.rows, t))])
      case Sending(rest) =>
        if rest == [] then c.(holder := c.holder - {p}, phase := c.phase[t := Returned])
        else c.(sent := c.sent + [rest[0]], phase := c.phase[t := Sending(rest[1..])])
  }

  function Start(y: System, rows: Table): State {
    State(rows, [], map[], seq(|y.calls|, _ => Waiting), [])
  }

  // A schedule names the handler to move at each step.
  function Run(y: System, rows: Table, schedule: seq<nat>): State {
    if schedule == [] then Start(y, rows)
    else Step(y, Run(y, rows, schedule[..|schedule| - 1]), schedule[|schedule| - 1])
  }

  // The calls run one at a time.
  datatype Serial = Serial(server: Server, sent: seq<Send>)

  function Atomically(y: System, v: Serial, t: nat): Serial {
    if t >= |y.calls| then v
    else
      var out := Handle(v.server, y.calls[t].r, y.calls[t].budget);
      Serial(out.server, v.sent + out.sent)
  }

  function OneAtATime(y: System, rows: Table, order: seq<nat>): Serial {
    if order == [] then Serial(Server(y.pairs, rows), [])
    else Atomically(y, OneAtATime(y, rows, order[..|order| - 1]), order[|order| - 1])
  }

  // The commands of one pair, in the order they were sent.
  function OfPair(sent: seq<Send>, p: PairId): seq<Send> {
    if sent == [] then []
    else OfPair(sent[..|sent| - 1], p) + if sent[|sent| - 1].cmd.pair == p then [sent[|sent| - 1]] else []
  }

  lemma {:induction false} OfPairConcat(u: seq<Send>, v: seq<Send>, p: PairId)
    ensures OfPair(u + v, p) == OfPair(u, p) + OfPair(v, p)
  {
    if v == [] {
      assert u + v == u;
    } else {
      OfPairConcat(u, v[..|v| - 1], p);
      assert (u + v)[..|u + v| - 1] == u + v[..|v| - 1];
    }
  }

  lemma {:induction false} OfOtherPair(u: seq<Send>, p: PairId)
    requires forall x :: x in u ==> x.cmd.pair != p
    ensures OfPair(u, p) == []
  {
    if u != [] {
      OfOtherPair(u[..|u| - 1], p);
    }
  }

  ghost predicate SameRows(r1: Table, r2: Table, p: PairId) {
    forall k: Key :: k.pair == p ==> Lookup(r1, k) == Lookup(r2, k)
  }

  // The table and the sends once the holder of a mutex has finished alone.
  function Finished(y: System, c: State, t: nat): (Table, seq<Send>)
    requires t < |y.calls| && t < |c.phase|
  {
    var r := y.calls[t].r;
    match c.phase[t]
    case Locked =>
      var out := Handle(Server(y.pairs, c.rows), r, y.calls[t].budget);
      (out.server.rows, c.sent + out.sent)
    case Stored => (c.rows, c.sent + SendsLeft(y, c.rows, t))
    case Sending(rest) => (c.rows, c.sent + rest)
    case _ => (c.rows, c.sent)
  }

  ghost predicate Matches(rows: Table, sent: seq<Send>, v: Serial, p: PairId) {
    SameRows(rows, v.server.rows, p) && OfPair(sent, p) == OfPair(v.sent, p)
  }

  ghost predicate InPair(sent: seq<Send>, p: PairId) {
    forall x :: x in sent ==> x.cmd.pair == p
  }

  // A handler is under way exactly while it holds its pair's mutex, and sends within the pair.
  ghost predicate Mutex(y: System, c: State) {
    && |c.phase| == |y.calls|
    && (forall p :: p in c.holder ==> c.holder[p] < |y.calls| && PairOf(y, c.holder[p]) == p)
    && (forall t :: 0 <= t < |y.calls| ==>
          (c.phase[t].Waiting? || c.phase[t].Returned?
           <==> !(PairOf(y, t) in c.holder && c.holder[PairOf(y, t)] == t)))
    && (forall t :: 0 <= t < |y.calls| && c.phase[t].Sending? ==> InPair(c.phase[t].rest, PairOf(y, t)))
  }

  // For pair p, letting its holder finish gives what the serial run gives.
  ghost predicate Tracks(y: System, c: State, v: Serial, p: PairId)
    requires Mutex(y, c)
  {
    if p in c.holder then
      Matches(Finished(y, c, c.holder[p]).0, Finished(y, c, c.holder[p]).1, v, p)
    else Matches(c.rows, c.sent, v, p)
  }

  // A call works on its own pair: its rows and sends are settled by that pair's rows alone.
  lemma {:induction false} HandleIsLocal(pairs: map<PairId, Pair>, r1: Table, r2: Table, r: Report, budget: nat)
    requires ValidPairs(pairs) && SameRows(r1, r2, r.ev.pair)
    ensures var o1, o2 := Handle(Server(pairs, r1), r, budget), Handle(Server(pairs, r2), r, budget);
            && o1.sent == o2.sent && InPair(o1.sent, r.ev.pair)
            && SameRows(o1.server.rows, o2.server.rows, r.ev.pair)
            && (forall p :: p != r.ev.pair ==> SameRows(o2.server.rows, r2, p))
  {
    if r.ev.pair in pairs {
      var pair, row := pairs[r.ev.pair], RowOf(r.ev, r.now);
      var u := Upsert(KeyOf(r.ev), row);
      assert Lookup(r1, u.key) == Lookup(r2, u.key);
      assert Lookup(r1, OtherKey(r.ev)) == Lookup(r2, OtherKey(r.ev));
      var n1, n2 := Upserted(r1, u), Upserted(r2, u);
      forall k: Key | k.pair == r.ev.pair ensures Lookup(n1, k) == Lookup(n2, k) {
        assert Lookup(r1, k) == Lookup(r2, k);
      }
      PlanStaysInPair(pair, r, row, Lookup(n1, OtherKey(r.ev)));
    }
  }

  // The serial run takes a whole call at once; other pairs see nothing of it.
  lemma AtomicallyElsewhere(y: System, v: Serial, t: nat, q: PairId)
    requires t < |y.calls| && ValidPairs(y.pairs) && v.server.pairs == y.pairs && q != PairOf(y, t)
    ensures SameRows(Atomically(y, v, t).server.rows, v.server.rows, q)
    ensures OfPair(Atomically(y, v, t).sent, q) == OfPair(v.sent, q)
  {
    var r, budget := y.calls[t].r, y.calls[t].budget;
    HandleIsLocal(y.pairs, v.server.rows, v.server.rows, r, budget);
    assert Server(y.pairs, v.server.rows) == v.server;
    var out := Handle(v.server, r, budget);
    OfPairConcat(v.sent, out.sent, q);
    OfOtherPair(out.sent, q);
  }

  // Finishing from the moment the mutex is taken is the whole call.
  lemma FromLockIsWholeCall(y: System, rows: Table, sent: seq<Send>, v: Serial, t: nat)
    requires t < |y.calls| && ValidPairs(y.pairs) && v.server.pairs == y.pairs
    requires Matches(rows, sent, v, PairOf(y, t))
    ensures var out := Handle(Server(y.pairs, rows), y.calls[t].r, y.calls[t].budget);
            Matches(out.server.rows, sent + out.sent, Atomically(y, v, t), PairOf(y, t))
  {
    var r, budget := y.calls[t].r, y.calls[t].budget;
    HandleIsLocal(y.pairs, rows, v.server.rows, r, budget);
    assert Server(y.pairs, v.server.rows) == v.server;
    var out := Handle(Server(y.pairs, rows), r, budget);
    OfPairConcat(sent, out.sent, PairOf(y, t));
    OfPairConcat(v.sent, out.sent, PairOf(y, t));
  }

  lemma LockKeepsMutex(y: System, c: State, t: nat)
    requires Mutex(y, c) && Enabled(y, c, t) && c.phase[t].Waiting?
    ensures Mutex(y, Step(y, c, t))
  {
  }

  lemma LockTracks(y: System, c: State, v: Serial, t: nat, q: PairId)
    requires Mutex(y, c) && Enabled(y, c, t) && c.phase[t].Waiting?
    requires ValidPairs(y.pairs) && v.server.pairs == y.pairs && Tracks(y, c, v, q)
    ensures Mutex(y, Step(y, c, t)) && Tracks(y, Step(y, c, t), Atomically(y, v, t), q)
  {
    LockKeepsMutex(y, c, t);
    var c' := Step(y, c, t);
    if q == PairOf(y, t) {
      FromLockIsWholeCall(y, c.rows, c.sent, v, t);
    } else {
      AtomicallyElsewhere(y, v, t, q);
      if q in c.holder {
        assert c'.phase[c.holder[q]] == c.phase[c.holder[q]];
        assert Finished(y, c', c.holder[q]) == Finished(y, c, c.holder[q]);
      }
    }
  }

  // Between two steps of its holder, a pair is left alone by everybody else.
  lemma OthersKeepFinished(y: System, c: State, c': State, t: nat)
    requires |c.phase| == |c'.phase| == |y.calls| && t < |y.calls| && c'.phase[t] == c.phase[t]
    requires ValidPairs(y.pairs)
    requires SameRows(c.rows, c'.rows, PairOf(y, t)) && OfPair(c.sent, PairOf(y, t)) == OfPair(c'.sent, PairOf(y, t))
    ensures SameRows(Finished(y, c, t).0, Finished(y, c', t).0, PairOf(y, t))
    ensures OfPair(Finished(y, c, t).1, PairOf(y, t)) == OfPair(Finished(y, c', t).1, PairOf(y, t))
  {
    var q := PairOf(y, t);
    var r := y.calls[t].r;
    match c.phase[t]
    case Locked =>
      HandleIsLocal(y.pairs, c.rows, c'.rows, r, y.calls[t].budget);
      var o := Handle(Server(y.pairs, c.rows), r, y.calls[t].budget);
      OfPairConcat(c.sent, o.sent, q);
      OfPairConcat(c'.sent, o.sent, q);
    case Stored =>
      assert Lookup(c.rows, OtherKey(r.ev)) == Lookup(c'.rows, OtherKey(r.ev));
      OfPairConcat(c.sent, SendsLeft(y, c.rows, t), q);
      OfPairConcat(c'.sent, SendsLeft(y, c.rows, t), q);
    case Sending(rest) =>
      OfPairConcat(c.sent, rest, q);
      OfPairConcat(c'.sent, rest, q);
    case _ =>
  }

  ghost predicate UnderWay(c: State, t: nat) {
    t < |c.phase| && !c.phase[t].Waiting? && !c.phase[t].Returned?
  }

  // A holder's own step brings it nearer to the same end.
  lemma HolderKeepsFinished(y: System, c: State, t: nat)
    requires Mutex(y, c) && Enabled(y, c, t) && UnderWay(c, t)
    ensures Finished(y, Step(y, c, t), t) == Finished(y, c, t)
  {
    match c.phase[t]
    case Locked =>
      if PairOf(y, t) !in y.pairs {
        assert c.sent + [] == c.sent;
      }
    case Stored =>
    case Sending(rest) =>
      if rest == [] {
        assert c.sent + [] == c.sent;
      } else {
        assert c.sent + [rest[0]] + rest[1..] == c.sent + rest;
      }
    case _ =>
  }

  lemma HolderLeavesOthers(y: System, c: State, t: nat, q: PairId)
    requires Mutex(y, c) && Enabled(y, c, t) && UnderWay(c, t) && q != PairOf(y, t)
    ensures SameRows(c.rows, Step(y, c, t).rows, q) && OfPair(c.sent, q) == OfPair(Step(y, c, t).sent, q)
  {
    if c.phase[t].Sending? && c.phase[t].rest != [] {
      var x := c.phase[t].rest[0];
      assert x in c.phase[t].rest;
      assert (c.sent + [x])[..|c.sent|] == c.sent;
    }
  }

  lemma SendsLeftInPair(y: System, rows: Table, t: nat)
    requires t < |y.calls| && ValidPairs(y.pairs)
    ensures InPair(SendsLeft(y, rows, t), PairOf(y, t))
  {
    if PairOf(y, t) in y.pairs {
      var r := y.calls[t].r;
      PlanStaysInPair(y.pairs[PairOf(y, t)], r, RowOf(r.ev, r.now), Lookup(rows, OtherKey(r.ev)));
    }
  }

  lemma HolderKeepsMutex(y: System, c: State, t: nat)
    requires ValidPairs(y.pairs) && Mutex(y, c) && Enabled(y, c, t) && UnderWay(c, t)
    ensures Mutex(y, Step(y, c, t))
  {
    SendsLeftInPair(y, c.rows, t);
  }

  lemma HolderTracks(y: System, c: State, v: Serial, t: nat, q: PairId)
    requires ValidPairs(y.pairs) && Mutex(y, c) && Enabled(y, c, t) && UnderWay(c, t)
    requires Tracks(y, c, v, q)
    ensures Mutex(y, Step(y, c, t)) && Tracks(y, Step(y, c, t), v, q)
  {
    HolderKeepsMutex(y, c, t);
    var c' := Step(y, c, t);
    if q == PairOf(y, t) {
      HolderKeepsFinished(y, c, t);
    } else {
      HolderLeavesOthers(y, c, t, q);
      if q in c.holder {
        assert c'.phase[c.holder[q]] == c.phase[c.holder[q]];
        OthersKeepFinished(y, c, c', c.holder[q]);
      }
    }
  }

  lemma {:induction false} RunTracks(y: System, rows: Table, schedule: seq<nat>)
    requires ValidPairs(y.pairs)
    ensures var c := Run(y, rows, schedule);
            var v := OneAtATime(y, rows, c.order);
            && Mutex(y, c) && v.server.pairs == y.pairs
            && (forall p :: Tracks(y, c, v, p))
  {
    if schedule != [] {
      var n := |schedule| - 1;
      RunTracks(y, rows, schedule[..n]);
      StepTracks(y, rows, Run(y, rows, schedule[..n]), schedule[n]);
    }
  }

  lemma LockStepTracks(y: System, c: State, v: Serial, t: nat)
    requires ValidPairs(y.pairs) && Mutex(y, c) && Enabled(y, c, t) && c.phase[t].Waiting?
    requires v.server.pairs == y.pairs && (forall p :: Tracks(y, c, v, p))
    ensures Mutex(y, Step(y, c, t)) && (forall p :: Tracks(y, Step(y, c, t), Atomically(y, v, t), p))
  {
    LockKeepsMutex(y, c, t);
    forall q ensures Tracks(y, Step(y, c, t), Atomically(y, v, t), q) {
      LockTracks(y, c, v, t, q);
    }
  }

  lemma HolderStepTracks(y: System, c: State, v: Serial, t: nat)
    requires ValidPairs(y.pairs) && Mutex(y, c) && Enabled(y, c, t) && UnderWay(c, t)
    requires forall p :: Tracks(y, c, v, p)
    ensures Mutex(y, Step(y, c, t)) && (forall p :: Tracks(y, Step(y, c, t), v, p))
  {
    HolderKeepsMutex(y, c, t);
    forall q ensures Tracks(y, Step(y, c, t), v, q) {
      HolderTracks(y, c, v, t, q);
    }
  }

  lemma StepTracks(y: System, rows: Table, c: State, t: nat)
    requires ValidPairs(y.pairs) && Mutex(y, c)
    requires OneAtATime(y, rows, c.order).server.pairs == y.pairs
    requires forall p :: Tracks(y, c, OneAtATime(y, rows, c.order), p)
    ensures var c' := Step(y, c, t);
            var v' := OneAtATime(y, rows, c'.order);
            && Mutex(y, c') && v'.server.pairs == y.pairs
            && (forall p :: Tracks(y, c', v', p))
  {
    var v := OneAtATime(y, rows, c.order);
    if Enabled(y, c, t) && c.phase[t].Waiting? {
      LockStepTracks(y, c, v, t);
      OrderGrows(y, rows, c.order, t);
    } else if Enabled(y, c, t) {
      HolderStepTracks(y, c, v, t);
    }
  }

  lemma OrderGrows(y: System, rows: Table, order: seq<nat>, t: nat)
    ensures OneAtATime(y, rows, order + [t]) == Atomically(y, OneAtATime(y, rows, order), t)
  {
    assert (order + [t])[..|order|] == order;
  }

  // The lock order lists each handler that took its mutex, once.
  ghost predicate OrderIsHistory(c: State) {
    && (forall t: nat :: t in c.order <==> t < |c.phase| && !c.phase[t].Waiting?)
    && (forall i, j :: 0 <= i < j < |c.order| ==> c.order[i] != c.order[j])
  }

  lemma {:induction false} RunKeepsOrder(y: System, rows: Table, schedule: seq<nat>)
    ensures |Run(y, rows, schedule).phase| == |y.calls| && OrderIsHistory(Run(y, rows, schedule))
  {
    if schedule != [] {
      var n := |schedule| - 1;
      RunKeepsOrder(y, rows, schedule[..n]);
      var c, t := Run(y, rows, schedule[..n]), schedule[n];
      if Enabled(y, c, t) && c.phase[t].Waiting? {
        assert t !in c.order;
      }
    }
  }

  // Every interleaving: once no handler is under way, the table is the table, and each pair's
  // commands are the commands, of the same calls run one at a time in lock order.
  lemma {:induction false} Serializable(y: System, rows: Table, schedule: seq<nat>)
    requires ValidPairs(y.pairs)
    requires forall t: nat :: t < |y.calls| ==> !UnderWay(Run(y, rows, schedule), t)
    ensures var c := Run(y, rows, schedule);
            && OrderIsHistory(c)
            && c.rows == OneAtATime(y, rows, c.order).server.rows
            && forall p :: OfPair(c.sent, p) == OfPair(OneAtATime(y, rows, c.order).sent, p)
  {
    RunTracks(y, rows, schedule);
    RunKeepsOrder(y, rows, schedule);
    var c := Run(y, rows, schedule);
    var v := OneAtATime(y, rows, c.order);
    forall p
      ensures SameRows(c.rows, v.server.rows, p) && OfPair(c.sent, p) == OfPair(v.sent, p)
    {
      assert Tracks(y, c, v, p);
      assert p in c.holder ==> UnderWay(c, c.holder[p]);
    }
    SameEverywhere(c.rows, v.server.rows);
  }

  lemma SameEverywhere(r1: Table, r2: Table)
    requires forall p :: SameRows(r1, r2, p)
    ensures r1 == r2
  {
    forall k ensures Lookup(r1, k) == Lookup(r2, k) {
      assert SameRows(r1, r2, k.pair);
    }
    assert forall k :: k in r1 ==> Lookup(r1, k) == Lookup(r2, k);
    assert forall k :: k in r2 ==> Lookup(r1, k) == Lookup(r2, k);
  }
}
