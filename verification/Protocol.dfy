/** Optional values (the source's nil pointers and SQL NULLs) and counting. */
module Prelude {
  datatype Option<+T> = None | Some(value: T)

  function Count(marks: seq<bool>): nat {
    if marks == [] then 0 else Count(marks[..|marks| - 1]) + if marks[|marks| - 1] then 1 else 0
  }

  lemma {:induction false} CountUpdate(marks: seq<bool>, i: nat, b: bool)
    requires i < |marks|
    ensures Count(marks[i := b]) == Count(marks) - (if marks[i] then 1 else 0) + (if b then 1 else 0)
  {
    var n := |marks| - 1;
    if i == n {
      assert marks[i := b][..n] == marks[..n];
    } else {
      CountUpdate(marks[..n], i, b);
      assert marks[i := b][..n] == marks[..n][i := b];
    }
  }

  lemma {:induction false} CountZero(marks: seq<bool>)
    ensures Count(marks) == 0 <==> forall i :: 0 <= i < |marks| ==> !marks[i]
  {
    if marks != [] {
      var n := |marks| - 1;
      CountZero(marks[..n]);
      assert (forall i :: 0 <= i < n ==> !marks[i]) <==> (forall i :: 0 <= i < n ==> !marks[..n][i]);
    }
  }
}

/** Wire messages (internal/proto/messages.go) and sync pairs (internal/server/store/store.go).
    Each string field with a closed set of meanings is a datatype whose last constructor
    stands for every other string, so that the code's default branches stay reachable. */
module Protocol {
  type ClientId = string
  type PairId = string
  type Path = string

  // A SHA-256 in hexadecimal; "" where the wire format leaves the field out.
  type Sha = string

  datatype Op = Write | Delete | OtherOp(name: string)

  datatype Side = A | B | UnknownSide(name: string)

  datatype Direction = Bidirectional | AToB | BToA | OtherDirection(name: string)

  datatype CommandOp = Fetch | Remove | Rename | OtherCommand(name: string)

  datatype Pair = Pair(
    id: PairId, clientA: ClientId, pathA: Path, clientB: ClientId, pathB: Path,
    direction: Direction, enabled: bool)

  datatype Event = FileChanged(
    pair: PairId, side: Side, path: Path, sha: Sha, size: int, modTime: int, op: Op, isDir: bool)

  datatype Command = FileSync(
    pair: PairId, side: Side, path: Path, sha: Sha, op: CommandOp, newPath: Path, originator: ClientId)

  // One envelope handed to a client's connection.
  datatype Send = Send(to: ClientId, cmd: Command)

  // Events as the clients produce them: a write carries its SHA, a delete carries none.
  predicate WellFormed(ev: Event) {
    (ev.op == Write && ev.sha != "") || (ev.op == Delete && ev.sha == "")
  }

  // The client that hosts a side of a pair, as the engine's routing picks it.
  function ClientOf(pair: Pair, side: Side): ClientId {
    if side == B then pair.clientB else pair.clientA
  }
}
