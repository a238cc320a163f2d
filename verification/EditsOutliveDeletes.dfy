/** What a two-way pair may send over a whole run of the server
    (internal/server/syncengine/lww.go:49-83, engine.go:151-250). */
module EditsOutliveDeletes {
  import opened Prelude
  import opened Protocol
  import opened FileStateTable
  import opened Lww
  import opened Engine

  datatype Call = Call(r: Report, budget: nat)

  function Run(s: Server, calls: seq<Call>): Server {
    if calls == [] then s
    else Handle(Run(s, calls[..|calls| - 1]), calls[|calls| - 1].r, calls[|calls| - 1].budget).server
  }

  // A side has recorded an event on a path.
  ghost predicate Recorded(calls: seq<Call>, k: Key) {
    exists i :: 0 <= i < |calls| && KeyOf(calls[i].r.ev) == k
  }

  // Some write reported this content for this path of this pair.
  ghost predicate Written(calls: seq<Call>, p: PairId, path: Path, sha: Sha) {
    exists i :: 0 <= i < |calls| && var ev := calls[i].r.ev;
                ev.pair == p && ev.path == path && ev.op == Write && ev.sha == sha
  }

  lemma RecordedMore(calls: seq<Call>, c: Call, k: Key)
    ensures Recorded(calls + [c], k) <==> Recorded(calls, k) || KeyOf(c.r.ev) == k
  {
    var all := calls + [c];
    if Recorded(calls, k) {
      var i :| 0 <= i < |calls| && KeyOf(calls[i].r.ev) == k;
      assert all[i] == calls[i];
    }
    assert all[|calls|] == c;
    assert forall i :: 0 <= i < |calls| ==> all[i] == calls[i];
  }

  lemma WrittenMore(calls: seq<Call>, c: Call, p: PairId, path: Path, sha: Sha)
    requires Written(calls, p, path, sha)
             || (c.r.ev.pair == p && c.r.ev.path == path && c.r.ev.op == Write && c.r.ev.sha == sha)
    ensures Written(calls + [c], p, path, sha)
  {
    var all := calls + [c];
    if Written(calls, p, path, sha) {
      var i :| 0 <= i < |calls| && var ev := calls[i].r.ev;
               ev.pair == p && ev.path == path && ev.op == Write && ev.sha == sha;
      assert all[i] == calls[i];
    } else {
      assert all[|calls|] == c;
    }
  }

  // The rows of pair p say nothing that was not reported: a row stands for a recorded event,
  // its content was written, and a recorded event has a row.
  ghost predicate Honest(rows: Table, calls: seq<Call>, p: PairId) {
    forall k: Key :: k.pair == p ==>
      && (k in rows <==> Recorded(calls, k))
      && (k in rows ==>
            && rows[k].op in {Write, Delete}
            && (rows[k].op == Write ==> rows[k].sha.Some? && Written(calls, p, k.path, rows[k].sha.value))
            && (rows[k].op == Delete ==> rows[k].sha.None?))
  }

  ghost predicate AllWellFormed(calls: seq<Call>) {
    forall i :: 0 <= i < |calls| ==> WellFormed(calls[i].r.ev)
  }

  lemma HonestStep(s: Server, calls: seq<Call>, c: Call, p: PairId)
    requires p in s.pairs && WellFormed(c.r.ev)
    requires Honest(s.rows, calls, p)
    ensures Honest(Handle(s, c.r, c.budget).server.rows, calls + [c], p)
  {
    var rows := Handle(s, c.r, c.budget).server.rows;
    forall k: Key | k.pair == p
      ensures k in rows <==> Recorded(calls + [c], k)
      ensures k in rows ==>
                && rows[k].op in {Write, Delete}
                && (rows[k].op == Write ==> rows[k].sha.Some? && Written(calls + [c], p, k.path, rows[k].sha.value))
                && (rows[k].op == Delete ==> rows[k].sha.None?)
    {
      RecordedMore(calls, c, k);
      if k in rows && rows[k].op == Write {
        WrittenMore(calls, c, p, k.path, rows[k].sha.value);
      }
    }
  }

  lemma {:induction false} RunHonest(pairs: map<PairId, Pair>, calls: seq<Call>, p: PairId)
    requires p in pairs && AllWellFormed(calls)
    ensures Run(Server(pairs, map[]), calls).pairs == pairs
    ensures Honest(Run(Server(pairs, map[]), calls).rows, calls, p)
  {
    if calls != [] {
      var n := |calls| - 1;
      RunHonest(pairs, calls[..n], p);
      HonestStep(Run(Server(pairs, map[]), calls[..n]), calls[..n], calls[n], p);
      assert calls[..n] + [calls[n]] == calls;
    }
  }

  // What one call on a two-way pair may send: a delete only to a side without a row, and
  // content only from the event or the other side's write.
  lemma SendsFromRows(s: Server, c: Call, x: Send)
    requires WellFormed(c.r.ev) && c.r.ev.pair in s.pairs && ValidPairs(s.pairs)
    requires s.pairs[c.r.ev.pair].direction == Bidirectional
    requires OtherKey(c.r.ev) in s.rows ==>
               var o := s.rows[OtherKey(c.r.ev)];
               (o.op == Write && o.sha.Some?) || (o.op == Delete && o.sha.None?)
    requires x in Handle(s, c.r, c.budget).sent
    ensures x.cmd.pair == c.r.ev.pair && x.cmd.path == c.r.ev.path
    ensures x.cmd.op == Remove ==> x.cmd.side == OtherSide(c.r.ev.side) && OtherKey(c.r.ev) !in s.rows
    ensures x.cmd.op == Fetch ==>
              || (c.r.ev.op == Write && x.cmd.sha == c.r.ev.sha)
              || (OtherKey(c.r.ev) in s.rows && s.rows[OtherKey(c.r.ev)].op == Write
                  && s.rows[OtherKey(c.r.ev)].sha == Some(x.cmd.sha))
  {
    var pair := s.pairs[c.r.ev.pair];
    var row := RowOf(c.r.ev, c.r.now);
    var other := Lookup(s.rows, OtherKey(c.r.ev));
    assert x in BidirectionalSends(pair, c.r, row, other);
  }

  // However long the run: a side that has recorded anything on a path is never told to delete
  // it, and every fetch asks for content some write reported for that very pair and path.
  lemma EditsOutliveDeletes(pairs: map<PairId, Pair>, calls: seq<Call>, c: Call, x: Send)
    requires ValidPairs(pairs) && AllWellFormed(calls) && WellFormed(c.r.ev)
    requires c.r.ev.pair in pairs && pairs[c.r.ev.pair].direction == Bidirectional
    requires x in Handle(Run(Server(pairs, map[]), calls), c.r, c.budget).sent
    ensures x.cmd.op == Remove ==> !Recorded(calls, Key(x.cmd.pair, x.cmd.side, x.cmd.path))
    ensures x.cmd.op == Fetch ==> Written(calls + [c], x.cmd.pair, x.cmd.path, x.cmd.sha)
  {
    var s := Run(Server(pairs, map[]), calls);
    var p := c.r.ev.pair;
    RunHonest(pairs, calls, p);
    SendsFromRows(s, c, x);
    if x.cmd.op == Fetch {
      WrittenMore(calls, c, p, x.cmd.path, x.cmd.sha);
    }
  }
}
