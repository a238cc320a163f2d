/** Which reports make the engine send at all, and its errors
    (internal/server/syncengine/engine.go:42-87, lww.go:49-83). */
module Dispatch {
  import opened Prelude
  import opened Protocol
  import opened FileStateTable
  import opened Lww
  import opened ConflictName
  import opened Engine
  import opened SyncSystem
  import Mirror

  // A report on a pair the server does not know is ignored.
  lemma UnknownPairIgnored(s: Server, r: Report, budget: nat)
    requires r.ev.pair !in s.pairs
    ensures Handle(s, r, budget) == Outcome(s, [], None)
  {
  }

  // On a disabled pair, whatever its direction, a report is recorded like any other and nothing is
  // sent, without an error.
  lemma DisabledPairOnlyRecords(s: Server, r: Report, budget: nat)
    requires r.ev.pair in s.pairs && !s.pairs[r.ev.pair].enabled
    ensures var out := Handle(s, r, budget);
            && out.sent == [] && out.error == None && out.server.pairs == s.pairs
            && out.server.rows == Upserted(s.rows, Upsert(Key(r.ev.pair, r.ev.side, r.ev.path), RowOf(r.ev, r.now)))
            && KeyOf(r.ev) in out.server.rows && out.server.rows[KeyOf(r.ev)].serverModTime >= r.now
  {
  }

  // An enabled pair whose direction is not one of the three records, sends nothing and reports
  // the error.
  lemma UnknownDirectionOnlyRecords(s: Server, r: Report, budget: nat)
    requires r.ev.pair in s.pairs && s.pairs[r.ev.pair].enabled && s.pairs[r.ev.pair].direction.OtherDirection?
    ensures var out := Handle(s, r, budget);
            out.sent == [] && out.error == Some(UnknownDirection)
            && KeyOf(r.ev) in out.server.rows && out.server.rows[KeyOf(r.ev)].serverModTime >= r.now
  {
  }

  // A pair that sends: enabled, with one of the three directions.
  predicate Sending(pair: Pair) {
    pair.enabled && (pair.direction == Bidirectional || pair.direction == AToB || pair.direction == BToA)
  }

  // Over every run: while a pair does not send, no queue gains a command of the pair.
  lemma {:induction false} SilentPairQueuesNothing(s: Sys, steps: seq<Step>, p: PairId, c: ClientId, x: Command)
    requires ValidPairs(s.server.pairs) && (p in s.server.pairs ==> !Sending(s.server.pairs[p]))
    requires x in Queue(Run(s, steps), c) && x.pair == p
    ensures x in Queue(s, c)
  {
    if steps != [] {
      var pre := steps[..|steps| - 1];
      var m := Run(s, pre);
      Mirror.RunKeepsPairs(s, pre);
      match steps[|steps| - 1] {
        case Handled(r, budget) =>
          AfterHandled(m, r, budget, c);
          Mirror.CommandsOfPair(m.server, r, budget, c);
          if r.ev.pair == p {
            assert Handle(m.server, r, budget).sent == [];
          }
        case _ =>
      }
      assert x in Queue(m, c);
      SilentPairQueuesNothing(s, pre, p, c, x);
    }
  }

  // Whether the report and the other side's row conflict on a two-way pair.
  predicate Conflicting(s: Server, r: Report) {
    && r.ev.pair in s.pairs && s.pairs[r.ev.pair].direction == Bidirectional
    && DecideLWW(RowOf(r.ev, r.now), Lookup(s.rows, OtherKey(r.ev)), CONFLICT_WINDOW_NS) == Action.Conflict
  }

  // A command names the path, the side of the client it goes to and its originator, and a new path
  // exactly if it is a rename, which carries no content.
  predicate Addressed(pair: Pair, path: Path, x: Send, conflict: bool) {
    && x.cmd.pair == pair.id && x.cmd.path == path
    && ((x.cmd.side == A && x.to == pair.clientA) || (x.cmd.side == B && x.to == pair.clientB))
    && x.cmd.originator == (if conflict then x.to else if x.cmd.side == A then pair.clientB else pair.clientA)
    && x.cmd.op in {Fetch, Remove, Rename}
    && (x.cmd.op == Rename ==> conflict && x.cmd.sha == "")
    && (x.cmd.op == Rename <==> x.cmd.newPath != "")
  }

  lemma ConflictAddressed(pair: Pair, winnerSide: Side, winner: Row, path: Path, loserSide: Side, ts: nat, x: Send)
    requires winnerSide in {A, B} && loserSide in {A, B}
    requires x in ConflictSends(pair, winnerSide, winner, path, loserSide, ClientOf(pair, loserSide), ts)
    ensures Addressed(pair, path, x, true)
  {
    assert path < ConflictFilename(path, ClientOf(pair, loserSide), ts);
  }

  lemma BidirectionalAddressed(pair: Pair, r: Report, row: Row, other: Option<Row>, x: Send)
    requires r.ev.side in {A, B} && r.src == ClientOf(pair, r.ev.side) && x in BidirectionalSends(pair, r, row, other)
    ensures Addressed(pair, r.ev.path, x, DecideLWW(row, other, CONFLICT_WINDOW_NS) == Action.Conflict)
  {
    var side := OtherSide(r.ev.side);
    if DecideLWW(row, other, CONFLICT_WINDOW_NS) == Action.Conflict {
      if row.serverModTime >= other.value.serverModTime {
        ConflictAddressed(pair, r.ev.side, row, r.ev.path, side, r.conflictNow, x);
      } else {
        ConflictAddressed(pair, side, other.value, r.ev.path, r.ev.side, r.conflictNow, x);
      }
    }
  }

  // Every command a report causes is addressed to the side of the client it goes to. Its
  // originator is the client at the other side, except in a conflict, where it is the receiver.
  lemma SendsAddressed(s: Server, r: Report, budget: nat, x: Send)
    requires ValidPairs(s.pairs) && r.ev.pair in s.pairs && r.ev.side in {A, B}
    requires r.src == ClientOf(s.pairs[r.ev.pair], r.ev.side) && x in Handle(s, r, budget).sent
    ensures Addressed(s.pairs[r.ev.pair], r.ev.path, x, Conflicting(s, r))
  {
    var pair, row := s.pairs[r.ev.pair], RowOf(r.ev, r.now);
    var other := Lookup(Handle(s, r, budget).server.rows, OtherKey(r.ev));
    assert other == Lookup(s.rows, OtherKey(r.ev));
    assert x in Plan(pair, r, row, other);
    if pair.direction == Bidirectional {
      BidirectionalAddressed(pair, r, row, other, x);
    }
  }

  // The handler's error: a send that fails is reported on a two-way pair, where it cuts the sends
  // short, and only logged on a one-way pair.
  lemma ErrorIff(s: Server, r: Report, budget: nat)
    ensures Handle(s, r, budget).error == Some(UnknownDirection)
            <==> r.ev.pair in s.pairs && s.pairs[r.ev.pair].enabled && s.pairs[r.ev.pair].direction.OtherDirection?
    ensures Handle(s, r, budget).error == Some(SendFailed)
            <==> r.ev.pair in s.pairs && s.pairs[r.ev.pair].enabled && s.pairs[r.ev.pair].direction == Bidirectional
                 && Handle(s, r, budget).sent != Handle(s, r, 3).sent && budget < 3
  {
    if r.ev.pair in s.pairs && budget < 3 {
      var all, some := Handle(s, r, 3).sent, Handle(s, r, budget).sent;
      assert |all| <= 3;
      assert some == if budget < |all| then all[..budget] else all;
    }
  }

  // Two sides' writes of different content conflict exactly when the server saw them less than
  // five seconds apart; otherwise the event is dispatched.
  lemma ConflictWindow(ev: Row, other: Row)
    requires ev.op == Write && other.op == Write && ev.sha.Some? && other.sha.Some? && ev.sha != other.sha
    ensures DecideLWW(ev, Some(other), CONFLICT_WINDOW_NS)
            == if other.serverModTime - 5_000_000_000 < ev.serverModTime < other.serverModTime + 5_000_000_000
               then Conflict else Dispatch
  {
  }

  // What the recorded row says of an event.
  lemma RowTellsEvent(ev: Event, now: int)
    ensures var row := RowOf(ev, now);
            && row.op == ev.op && row.isDir == ev.isDir && row.modTime == ev.modTime && row.serverModTime == now
            && (forall sha :: row.sha == Some(sha) <==> sha == ev.sha && sha != "")
            && (forall n :: row.size == Some(n) <==> n == ev.size && n > 0)
  {
  }
}
