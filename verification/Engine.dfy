/** The server's handling of one reported change
    (internal/server/syncengine/engine.go and conflict.go). */
module Engine {
  import opened Prelude
  import opened Protocol
  import opened FileStateTable
  import opened Lww
  import opened ConflictName

  datatype Server = Server(pairs: map<PairId, Pair>, rows: Table)

  // What one call of HandleFileChanged is given: the sender, the event, and the readings of
  // the two clocks it may look at.
  datatype Report = Report(src: ClientId, ev: Event, now: int, conflictNow: nat)

  datatype EngineError = SendFailed | UnknownDirection

  datatype Outcome = Outcome(server: Server, sent: seq<Send>, error: Option<EngineError>)

  function RowOf(ev: Event, now: int): Row {
    Row(if ev.sha != "" then Some(ev.sha) else None, if ev.size > 0 then Some(ev.size) else None,
        ev.modTime, now, ev.op, ev.isDir)
  }

  function KeyOf(ev: Event): Key { Key(ev.pair, ev.side, ev.path) }

  function OtherKey(ev: Event): Key { Key(ev.pair, OtherSide(ev.side), ev.path) }

  function ShaOrEmpty(row: Row): Sha {
    if row.sha.Some? then row.sha.value else ""
  }

  function SyncSend(src: ClientId, pair: Pair, t: Target, ev: Event): Send {
    Send(t.client, FileSync(pair.id, t.side, ev.path, ev.sha, if ev.op == Delete then Remove else Fetch, "", src))
  }

  function FetchSend(pair: Pair, to: ClientId, side: Side, path: Path, sha: Sha, originator: ClientId): Send {
    Send(to, FileSync(pair.id, side, path, sha, Fetch, "", originator))
  }

  // Rename at the loser, then the winner's content to the loser, then to the winner itself.
  function ConflictSends(pair: Pair, winnerSide: Side, winner: Row, path: Path,
                         loserSide: Side, loser: ClientId, ts: nat): seq<Send> {
    [Send(loser, FileSync(pair.id, loserSide, path, "", Rename, ConflictFilename(path, loser, ts), loser)),
     FetchSend(pair, loser, loserSide, path, ShaOrEmpty(winner), loser),
     FetchSend(pair, ClientOf(pair, winnerSide), winnerSide, path, ShaOrEmpty(winner), ClientOf(pair, winnerSide))]
  }

  function BidirectionalSends(pair: Pair, r: Report, row: Row, other: Option<Row>): seq<Send> {
    var ev := r.ev;
    var side := OtherSide(ev.side);
    var client := ClientOf(pair, side);
    match DecideLWW(row, other, CONFLICT_WINDOW_NS)
    case NoAction => []
    case Dispatch => [SyncSend(r.src, pair, Target(client, side), ev)]
    case EditWins =>
      if ev.op == Write then [SyncSend(r.src, pair, Target(client, side), ev)]
      else if other.None? || other.value.sha.None? then []
      else [FetchSend(pair, r.src, ev.side, ev.path, other.value.sha.value, client)]
    case Conflict =>
      if row.serverModTime >= other.value.serverModTime then
        ConflictSends(pair, ev.side, row, ev.path, side, client, r.conflictNow)
      else
        ConflictSends(pair, side, other.value, ev.path, ev.side, r.src, r.conflictNow)
  }

  function MirrorSends(pair: Pair, r: Report): seq<Send> {
    var targets := ResolveMirrorTargets(pair, r.ev.side);
    seq(|targets|, i requires 0 <= i < |targets| => SyncSend(r.src, pair, targets[i], r.ev))
  }

  // Everything the handler tries to send, in order.
  function Plan(pair: Pair, r: Report, row: Row, other: Option<Row>): seq<Send> {
    if !pair.enabled then []
    else match pair.direction
         case Bidirectional => BidirectionalSends(pair, r, row, other)
         case OtherDirection(_) => []
         case _ => MirrorSends(pair, r)
  }

  // The first `budget` sends get through; the next one fails.
  function Delivered(plan: seq<Send>, budget: nat): (sent: seq<Send>)
    ensures sent <= plan
  {
    if budget < |plan| then plan[..budget] else plan
  }

  function ErrorOf(pair: Pair, plan: seq<Send>, budget: nat): Option<EngineError> {
    if !pair.enabled then None
    else match pair.direction
         case Bidirectional => if budget < |plan| then Some(SendFailed) else None
         case OtherDirection(_) => Some(UnknownDirection)
         case _ => None
  }

  // One whole call of HandleFileChanged.
  function Handle(s: Server, r: Report, budget: nat): Outcome {
    if r.ev.pair !in s.pairs then Outcome(s, [], None)
    else
      var pair := s.pairs[r.ev.pair];
      var row := RowOf(r.ev, r.now);
      var rows := Upserted(s.rows, Upsert(KeyOf(r.ev), row));
      var plan := Plan(pair, r, row, Lookup(rows, OtherKey(r.ev)));
      Outcome(Server(s.pairs, rows), Delivered(plan, budget), ErrorOf(pair, plan, budget))
  }

  // Pairs are stored under their own id.
  predicate ValidPairs(pairs: map<PairId, Pair>) {
    forall id :: id in pairs ==> pairs[id].id == id
  }

  // A report concerns its own pair only.
  lemma PlanStaysInPair(pair: Pair, r: Report, row: Row, other: Option<Row>)
    ensures forall x :: x in Plan(pair, r, row, other) ==> x.cmd.pair == pair.id && x.cmd.path == r.ev.path
  {
  }

  /** The connections as the engine sees them: an ordered log of what got through and the
      number of further sends that will. The environment sets `budget`. */
  class Sender {
    var log: seq<Send>
    var budget: nat

    constructor (budget: nat)
      ensures log == [] && this.budget == budget
    {
      log, this.budget := [], budget;
    }

    method Transmit(x: Send) returns (ok: bool)
      modifies this
      ensures ok <==> old(budget) > 0
      ensures log == old(log) + Delivered([x], old(budget))
      ensures budget == if ok then old(budget) - 1 else 0
    {
      ok := budget > 0;
      if ok {
        log, budget := log + [x], budget - 1;
      }
    }
  }

  /** The engine. Each method runs under the pair's mutex; see module Serialization. */
  class Engine {
    const db: SQLite
    const sender: Sender
    var pairs: map<PairId, Pair>

    constructor (db: SQLite, sender: Sender, pairs: map<PairId, Pair>)
      ensures this.db == db && this.sender == sender && this.pairs == pairs
    {
      this.db, this.sender, this.pairs := db, sender, pairs;
    }

    function State(): Server reads this, db {
      Server(pairs, db.fileState)
    }

    method HandleFileChanged(r: Report) returns (error: Option<EngineError>)
      modifies db, sender
      ensures State() == Handle(old(State()), r, old(sender.budget)).server
      ensures sender.log == old(sender.log) + Handle(old(State()), r, old(sender.budget)).sent
      ensures error == Handle(old(State()), r, old(sender.budget)).error
      ensures sender.budget == old(sender.budget) - |Handle(old(State()), r, old(sender.budget)).sent|
    {
      if r.ev.pair !in pairs {
        return None;
      }
      var pair := pairs[r.ev.pair];
      var row := UpsertFileState(r.ev, r.now);
      if !pair.enabled {
        return None;
      }
      if pair.direction.Bidirectional? {
        error := HandleBidirectional(pair, r, row);
        return;
      }
      if pair.direction.OtherDirection? {
        return Some(UnknownDirection);
      }
      var targets := ResolveMirrorTargets(pair, r.ev.side);
      for i := 0 to |targets|
        invariant db.fileState == Upserted(old(db.fileState), Upsert(KeyOf(r.ev), row))
        invariant i == 0 ==> sender.log == old(sender.log) && sender.budget == old(sender.budget)
        invariant i == 1 ==> sender.log == old(sender.log) + Delivered(MirrorSends(pair, r), old(sender.budget))
        invariant |sender.log| + sender.budget == |old(sender.log)| + old(sender.budget)
      {
        // A failed send is logged and the loop goes on.
        assert MirrorSends(pair, r) == [SyncSend(r.src, pair, targets[i], r.ev)];
        var _ := DispatchSync(r.src, pair, targets[i], r.ev);
      }
      return None;
    }

    method UpsertFileState(ev: Event, now: int) returns (row: Row)
      modifies db
      ensures row == RowOf(ev, now)
      ensures db.fileState == Upserted(old(db.fileState), Upsert(KeyOf(ev), row))
    {
      var sha: Option<Sha>, size: Option<int> := None, None;
      if ev.sha != "" {
        sha := Some(ev.sha);
      }
      if ev.size > 0 {
        size := Some(ev.size);
      }
      row := Row(sha, size, ev.modTime, now, ev.op, ev.isDir);
      db.UpsertFileState(KeyOf(ev), row);
    }

    method DispatchSync(src: ClientId, pair: Pair, t: Target, ev: Event) returns (ok: bool)
      modifies sender
      ensures sender.log == old(sender.log) + Delivered([SyncSend(src, pair, t, ev)], old(sender.budget))
      ensures |sender.log| + sender.budget == |old(sender.log)| + old(sender.budget)
      ensures ok <==> old(sender.budget) >= 1
    {
      var op := Fetch;
      if ev.op == Delete {
        op := Remove;
      }
      ok := sender.Transmit(Send(t.client, FileSync(pair.id, t.side, ev.path, ev.sha, op, "", src)));
    }

    method HandleBidirectional(pair: Pair, r: Report, row: Row) returns (error: Option<EngineError>)
      requires row == RowOf(r.ev, r.now)
      modifies sender
      ensures var plan := BidirectionalSends(pair, r, row, Lookup(db.fileState, OtherKey(r.ev)));
              && sender.log == old(sender.log) + Delivered(plan, old(sender.budget))
              && error == if old(sender.budget) < |plan| then Some(SendFailed) else None
      ensures |sender.log| + sender.budget == |old(sender.log)| + old(sender.budget)
    {
      var ev := r.ev;
      var otherSide := OtherSide(ev.side);
      var other := db.GetFileState(Key(ev.pair, otherSide, ev.path));
      var otherClient := pair.clientA;
      if otherSide == B {
        otherClient := pair.clientB;
      }
      var ok := true;
      match DecideLWW(row, other, CONFLICT_WINDOW_NS) {
        case NoAction =>
        case Dispatch =>
          ok := DispatchSync(r.src, pair, Target(otherClient, otherSide), ev);
        case EditWins =>
          ok := HandleEditWins(pair, r, other, otherClient, otherSide);
        case Conflict =>
          if row.serverModTime >= other.value.serverModTime {
            ok := DispatchConflict(pair, ev.side, row, ev.path, otherSide, otherClient, r.conflictNow);
          } else {
            ok := DispatchConflict(pair, otherSide, other.value, ev.path, ev.side, r.src, r.conflictNow);
          }
      }
      error := if ok then None else Some(SendFailed);
    }

    method HandleEditWins(pair: Pair, r: Report, other: Option<Row>, otherClient: ClientId, otherSide: Side)
      returns (ok: bool)
      requires otherSide == OtherSide(r.ev.side) && otherClient == ClientOf(pair, otherSide)
      requires DecideLWW(RowOf(r.ev, r.now), other, CONFLICT_WINDOW_NS).EditWins?
      modifies sender
      ensures var plan := BidirectionalSends(pair, r, RowOf(r.ev, r.now), other);
              && sender.log == old(sender.log) + Delivered(plan, old(sender.budget))
              && (ok <==> |plan| <= old(sender.budget))
      ensures |sender.log| + sender.budget == |old(sender.log)| + old(sender.budget)
    {
      if r.ev.op == Write {
        ok := DispatchSync(r.src, pair, Target(otherClient, otherSide), r.ev);
        return;
      }
      if other.None? || other.value.sha.None? {
        return true;
      }
      ok := sender.Transmit(FetchSend(pair, r.src, r.ev.side, r.ev.path, other.value.sha.value, otherClient));
    }

    method DispatchConflict(pair: Pair, winnerSide: Side, winner: Row, path: Path,
                            loserSide: Side, loser: ClientId, now: nat) returns (ok: bool)
      modifies sender
      ensures var plan := ConflictSends(pair, winnerSide, winner, path, loserSide, loser, now);
              && sender.log == old(sender.log) + Delivered(plan, old(sender.budget))
              && (ok <==> |plan| <= old(sender.budget))
      ensures |sender.log| + sender.budget == |old(sender.log)| + old(sender.budget)
    {
      ghost var log, budget := sender.log, sender.budget;
      ghost var plan := ConflictSends(pair, winnerSide, winner, path, loserSide, loser, now);
      var newName := ConflictFilename(path, loser, now);
      ok := sender.Transmit(Send(loser, FileSync(pair.id, loserSide, path, "", Rename, newName, loser)));
      assert Delivered(plan, budget)[..if ok then 1 else 0] == Delivered(plan[..1], budget);
      if !ok { return; }
      ok := sender.Transmit(FetchSend(pair, loser, loserSide, path, ShaOrEmpty(winner), loser));
      assert sender.log == log + Delivered(plan[..2], budget);
      if !ok { return; }
      var winnerClient := pair.clientA;
      if winnerSide == B {
        winnerClient := pair.clientB;
      }
      ok := sender.Transmit(FetchSend(pair, winnerClient, winnerSide, path, ShaOrEmpty(winner), winnerClient));
      assert sender.log == log + Delivered(plan[..3], budget);
      assert plan[..3] == plan;
    }
  }
}
