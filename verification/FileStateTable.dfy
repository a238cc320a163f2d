/** The guarded `file_state` table of internal/server/store/sqlite.go. */
module FileStateTable {
  import opened Prelude
  import opened Protocol

  datatype Key = Key(pair: PairId, side: Side, path: Path)

  datatype Row = Row(
    sha: Option<Sha>, size: Option<int>, modTime: int, serverModTime: int, op: Op, isDir: bool)

  type Table = map<Key, Row>

  datatype Upsert = Upsert(key: Key, row: Row)

  // INSERT ... ON CONFLICT DO UPDATE WHERE excluded.server_mod_time > file_state.server_mod_time
  function Upserted(t: Table, u: Upsert): (r: Table)
    ensures r.Keys == t.Keys + {u.key}
    ensures forall k :: k in t && k != u.key ==> r[k] == t[k]
    ensures r[u.key].serverModTime >= u.row.serverModTime
    ensures r[u.key] != u.row ==> u.key in t && r[u.key] == t[u.key]
  {
    if u.key in t && u.row.serverModTime <= t[u.key].serverModTime then t else t[u.key := u.row]
  }

  function Replay(t: Table, us: seq<Upsert>): Table {
    if us == [] then t else Upserted(Replay(t, us[..|us| - 1]), us[|us| - 1])
  }

  // us[i] carries the greatest time seen for its key, and is the earliest to carry it.
  ghost predicate Newest(us: seq<Upsert>, i: int) {
    && 0 <= i < |us|
    && forall j | 0 <= j < |us| && us[j].key == us[i].key ::
         if j < i then us[j].row.serverModTime < us[i].row.serverModTime
         else us[j].row.serverModTime <= us[i].row.serverModTime
  }

  lemma NewestStays(us: seq<Upsert>, i: int)
    requires us != [] && Newest(us[..|us| - 1], i)
    requires var last := us[|us| - 1];
             last.key == us[i].key ==> last.row.serverModTime <= us[i].row.serverModTime
    ensures Newest(us, i)
  {
    var pre := us[..|us| - 1];
    forall j | 0 <= j < |us| && us[j].key == us[i].key
      ensures if j < i then us[j].row.serverModTime < us[i].row.serverModTime
              else us[j].row.serverModTime <= us[i].row.serverModTime
    {
      if j < |pre| { assert pre[j] == us[j]; }
    }
  }

  lemma NewestChanges(us: seq<Upsert>, i: int)
    requires us != [] && Newest(us[..|us| - 1], i)
    requires var last := us[|us| - 1];
             last.key == us[i].key && last.row.serverModTime > us[i].row.serverModTime
    ensures Newest(us, |us| - 1)
  {
    var pre := us[..|us| - 1];
    forall j | 0 <= j < |pre| && us[j].key == us[i].key
      ensures us[j].row.serverModTime < us[|us| - 1].row.serverModTime
    {
      assert pre[j] == us[j];
    }
  }

  lemma {:induction false} KeysSeen(us: seq<Upsert>, k: Key)
    ensures k in Replay(map[], us) <==> exists i :: 0 <= i < |us| && us[i].key == k
  {
    if us != [] {
      var n := |us| - 1;
      KeysSeen(us[..n], k);
      assert forall i :: 0 <= i < n ==> us[..n][i] == us[i];
    }
  }

  // The table after any sequence of upserts holds, for each key, its newest upsert.
  lemma {:induction false} NewestWins(us: seq<Upsert>, k: Key)
    ensures k in Replay(map[], us) <==> exists i :: 0 <= i < |us| && us[i].key == k
    ensures k in Replay(map[], us) ==>
              exists i :: Newest(us, i) && us[i].key == k && Replay(map[], us)[k] == us[i].row
  {
    KeysSeen(us, k);
    if k in Replay(map[], us) {
      var n := |us| - 1;
      var pre := us[..n];
      var t := Replay(map[], pre);
      KeysSeen(pre, k);
      NewestWins(pre, k);
      if k in t {
        var i :| Newest(pre, i) && pre[i].key == k && t[k] == pre[i].row;
        assert us[i] == pre[i];
        if us[n].key == k && us[n].row.serverModTime > t[k].serverModTime {
          NewestChanges(us, i);
        } else {
          NewestStays(us, i);
        }
      } else {
        assert forall j :: 0 <= j < n ==> us[j] == pre[j];
        assert Newest(us, n);
      }
    }
  }

  // No two upserts of one key carry the same server time.
  ghost predicate DistinctTimes(us: seq<Upsert>) {
    forall i, j :: 0 <= i < j < |us| && us[i].key == us[j].key ==>
      us[i].row.serverModTime != us[j].row.serverModTime
  }

  // What one side of a reordering holds for a key, the other side holds too.
  lemma ReorderedHolds(us: seq<Upsert>, vs: seq<Upsert>, k: Key)
    requires multiset(us) == multiset(vs)
    requires DistinctTimes(us)
    requires k in Replay(map[], us)
    ensures k in Replay(map[], vs) && Replay(map[], vs)[k] == Replay(map[], us)[k]
  {
    NewestWins(us, k);
    NewestWins(vs, k);
    var i :| Newest(us, i) && us[i].key == k && Replay(map[], us)[k] == us[i].row;
    assert us[i] in multiset(us);
    assert us[i] in multiset(vs);
    var i' :| 0 <= i' < |vs| && vs[i'] == us[i];
    assert vs[i'].key == k;
    var j :| Newest(vs, j) && vs[j].key == k && Replay(map[], vs)[k] == vs[j].row;
    assert vs[j] in multiset(vs);
    assert vs[j] in multiset(us);
    var j' :| 0 <= j' < |us| && us[j'] == vs[j];
    assert us[i].row.serverModTime == us[j'].row.serverModTime;
    assert i == j';
  }

  // Last write wins whatever the arrival order: with distinct times the table depends only
  // on which upserts arrived.
  lemma OrderIrrelevant(us: seq<Upsert>, vs: seq<Upsert>)
    requires multiset(us) == multiset(vs)
    requires DistinctTimes(us)
    ensures Replay(map[], us) == Replay(map[], vs)
  {
    DistinctTimesReordered(us, vs);
    forall k | k in Replay(map[], us)
      ensures k in Replay(map[], vs) && Replay(map[], vs)[k] == Replay(map[], us)[k]
    {
      ReorderedHolds(us, vs, k);
    }
    forall k | k in Replay(map[], vs) ensures k in Replay(map[], us) {
      ReorderedHolds(vs, us, k);
    }
  }

  lemma {:induction false} DistinctTimesReordered(us: seq<Upsert>, vs: seq<Upsert>)
    requires multiset(us) == multiset(vs)
    requires DistinctTimes(us)
    ensures DistinctTimes(vs)
  {
    forall i, j | 0 <= i < j < |vs| && vs[i].key == vs[j].key
      ensures vs[i].row.serverModTime != vs[j].row.serverModTime
    {
      assert vs[i] in multiset(vs) && vs[j] in multiset(vs);
      assert vs[i] in multiset(us) && vs[j] in multiset(us);
      if vs[i] == vs[j] {
        Twice(vs, i, j);
        OnceOnly(us, vs[i]);
      }
      var i' :| 0 <= i' < |us| && us[i'] == vs[i];
      var j' :| 0 <= j' < |us| && us[j'] == vs[j];
      assert us[i'].key == us[j'].key;
    }
  }

  lemma Twice(vs: seq<Upsert>, i: int, j: int)
    requires 0 <= i < j < |vs| && vs[i] == vs[j]
    ensures multiset(vs)[vs[i]] >= 2
  {
    assert vs == vs[..i] + [vs[i]] + vs[i + 1..j] + [vs[j]] + vs[j + 1..];
  }

  lemma OnceOnly(us: seq<Upsert>, u: Upsert)
    requires DistinctTimes(us)
    requires u in us
    ensures multiset(us)[u] == 1
  {
    var i :| 0 <= i < |us| && us[i] == u;
    assert us == us[..i] + [u] + us[i + 1..];
    assert u !in us[..i] && u !in us[i + 1..];
  }

  // Every stored server time is at most the clock.
  predicate ClockBounds(t: Table, clock: int) {
    forall k :: k in t ==> t[k].serverModTime <= clock
  }

  /** The store object. Queries that fail with an SQL error are not part of this model. */
  class SQLite {
    var fileState: Table

    constructor ()
      ensures fileState == map[]
    {
      fileState := map[];
    }

    method UpsertFileState(k: Key, row: Row)
      modifies this
      ensures fileState == Upserted(old(fileState), Upsert(k, row))
    {
      if k !in fileState || row.serverModTime > fileState[k].serverModTime {
        fileState := fileState[k := row];
      }
    }

    method GetFileState(k: Key) returns (row: Option<Row>)
      ensures row == Lookup(fileState, k)
    {
      row := if k in fileState then Some(fileState[k]) else None;
    }

    // One side of one pair, each path once.
    method ListFileStates(pair: PairId, side: Side) returns (rows: seq<(Path, Row)>)
      ensures Lists(rows, fileState, pair, side)
    {
      rows := [];
      var todo := fileState.Keys;
      while todo != {}
        invariant todo <= fileState.Keys
        invariant Lists(rows, map k | k in fileState && k !in todo :: fileState[k], pair, side)
        decreases todo
      {
        var k :| k in todo;
        ghost var before := map k | k in fileState && k !in todo :: fileState[k];
        todo := todo - {k};
        if k.pair == pair && k.side == side {
          ListsOneMore(rows, before, pair, side, k, fileState[k]);
          rows := rows + [(k.path, fileState[k])];
        }
        assert (map k | k in fileState && k !in todo :: fileState[k]) == before[k := fileState[k]];
      }
      assert (map k | k in fileState && k !in todo :: fileState[k]) == fileState;
    }

    // SELECT MAX(server_mod_time), compared with the clock at start-up.
    method CheckMonotonic(now: int) returns (ok: bool)
      ensures ok <==> ClockBounds(fileState, now)
    {
      var max: Option<int> := None;
      var todo := fileState.Keys;
      while todo != {}
        invariant todo <= fileState.Keys
        invariant max.None? <==> todo == fileState.Keys
        invariant max.Some? ==>
          && (exists k :: k in fileState && fileState[k].serverModTime == max.value)
          && (forall k :: k in fileState && k !in todo ==> fileState[k].serverModTime <= max.value)
        decreases todo
      {
        var k :| k in todo;
        if max.None? || fileState[k].serverModTime > max.value {
          max := Some(fileState[k].serverModTime);
        }
        todo := todo - {k};
      }
      ok := !(max.Some? && now < max.value);
    }
  }

  function Lookup(t: Table, k: Key): (row: Option<Row>)
    ensures row.Some? <==> k in t
  {
    if k in t then Some(t[k]) else None
  }

  // rows lists exactly the rows of (pair, side), each path once.
  ghost predicate Lists(rows: seq<(Path, Row)>, t: Table, pair: PairId, side: Side) {
    && (forall i, j :: 0 <= i < j < |rows| ==> rows[i].0 != rows[j].0)
    && (forall i :: 0 <= i < |rows| ==>
          Key(pair, side, rows[i].0) in t && t[Key(pair, side, rows[i].0)] == rows[i].1)
    && (forall k :: k in t && k.pair == pair && k.side == side ==> Named(rows, k.path))
  }

  ghost predicate Named(rows: seq<(Path, Row)>, path: Path) {
    exists i :: 0 <= i < |rows| && rows[i].0 == path
  }

  lemma ListsOneMore(rows: seq<(Path, Row)>, t: Table, pair: PairId, side: Side, k: Key, row: Row)
    requires Lists(rows, t, pair, side)
    requires k !in t && k.pair == pair && k.side == side
    ensures Lists(rows + [(k.path, row)], t[k := row], pair, side)
  {
    var all := rows + [(k.path, row)];
    forall i | 0 <= i < |rows| ensures rows[i].0 != k.path {
      assert Key(pair, side, rows[i].0) in t;
    }
    forall q | q in t[k := row] && q.pair == pair && q.side == side ensures Named(all, q.path) {
      if q == k {
        assert all[|rows|].0 == q.path;
      } else {
        assert Named(rows, q.path);
        var i :| 0 <= i < |rows| && rows[i].0 == q.path;
        assert all[i].0 == q.path;
      }
    }
  }
}
