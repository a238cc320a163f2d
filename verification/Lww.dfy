/** The last-write-wins decision and one-way routing
    (internal/server/syncengine/lww.go and mirror.go). */
module Lww {
  import opened Prelude
  import opened Protocol
  import opened FileStateTable

  const CONFLICT_WINDOW_NS: int := 5_000_000_000

  datatype Action = NoAction | Dispatch | Conflict | EditWins

  datatype Target = Target(client: ClientId, side: Side)

  function OtherSide(s: Side): Side {
    if s == A then B else A
  }

  function DecideLWW(ev: Row, other: Option<Row>, window: int): Action {
    match other
    case None => Dispatch
    case Some(o) =>
      if ev.op == Delete && o.op == Delete then NoAction
      else if ev.op == Delete && o.op == Write then EditWins
      else if ev.op == Write && o.op == Delete then EditWins
      else if ev.sha.Some? && o.sha.Some? && ev.sha.value == o.sha.value then NoAction
      else if Abs(ev.serverModTime - o.serverModTime) < window then Conflict
      else Dispatch
  }

  function Abs(n: int): int { if n < 0 then -n else n }

  function ResolveMirrorTargets(p: Pair, src: Side): (targets: seq<Target>)
    ensures |targets| <= 1
    ensures forall t :: t in targets ==> t.side != src && t.client == ClientOf(p, t.side)
  {
    match p.direction
    case AToB => if src == A then [Target(p.clientB, B)] else []
    case BToA => if src == B then [Target(p.clientA, A)] else []
    case _ => []
  }
}
