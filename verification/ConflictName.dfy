/** Conflict file names (internal/server/syncengine/conflict.go). */
module ConflictName {
  import opened Protocol
  import Decimal

  const MARK: string := ".conflict-"
  const SHORT_LENGTH: nat := 8

  function Short(client: ClientId): (short: string)
    ensures |short| <= SHORT_LENGTH && short <= client
  {
    if |client| > SHORT_LENGTH then client[..SHORT_LENGTH] else client
  }

  // <name>.conflict-<short>-<unix_ns>; the clock reads a time after 1970.
  function ConflictFilename(rel: Path, client: ClientId, ts: nat): (name: Path)
    ensures rel < name
  {
    rel + MARK + Short(client) + "-" + Decimal.Print(ts)
  }

  // Read from the name: the path, ".conflict-", the client's first eight characters or all it has,
  // a dash, and the time in digits.
  lemma ConflictFilenameSpelled(rel: Path, client: ClientId, ts: nat)
    ensures exists short, digits :: Spelled(rel, client, ts, ConflictFilename(rel, client, ts), short, digits)
  {
    assert Spelled(rel, client, ts, ConflictFilename(rel, client, ts), Short(client), Decimal.Print(ts));
  }

  ghost predicate Spelled(rel: Path, client: ClientId, ts: nat, name: Path, short: string, digits: string) {
    && name == rel + ".conflict-" + short + "-" + digits
    && short <= client && (|short| == 8 || (|short| < 8 && short == client))
    && digits != "" && Decimal.AllDigits(digits) && Decimal.Value(digits) == ts
  }

  // The last '-' of a string splits it in one way only.
  lemma LastDashSplits(x: string, d: string, y: string, e: string)
    requires x + "-" + d == y + "-" + e
    requires Decimal.AllDigits(d) && Decimal.AllDigits(e)
    ensures x == y && d == e
  {
    var s := x + "-" + d;
    assert s[|x|] == '-' && s[|y|] == '-';
    assert forall i :: |x| < i < |s| ==> s[i] == d[i - |x| - 1];
    assert forall i :: |y| < i < |s| ==> s[i] == e[i - |y| - 1];
    assert |x| == |y|;
    assert x == s[..|x|] && y == s[..|y|];
    assert d == s[|x| + 1..] && e == s[|y| + 1..];
  }

  // MARK starts with a '.' it does not repeat, so it cannot overlap itself, and a short id
  // is too short to hold it.
  lemma MarkSplits(x: string, s: string, y: string, t: string)
    requires x + MARK + s == y + MARK + t
    requires |t| <= |s| <= SHORT_LENGTH
    ensures x == y && s == t
  {
    var whole := x + MARK + s;
    assert whole[|y|] == '.';
    assert forall i :: 0 < i < |MARK| ==> MARK[i] != '.';
    assert forall i :: |x| <= i < |x| + |MARK| ==> whole[i] == MARK[i - |x|];
    assert |x| <= |y| < |x| + |MARK|;
    assert |x| == |y|;
    assert x == whole[..|x|] && y == whole[..|y|];
    assert s == whole[|x| + |MARK|..] && t == whole[|y| + |MARK|..];
  }

  // Two conflicts are parked under one name only when they are on the same path, against
  // clients with the same first eight characters, at the same nanosecond.
  lemma ConflictNamesDistinct(r1: Path, c1: ClientId, t1: nat, r2: Path, c2: ClientId, t2: nat)
    ensures ConflictFilename(r1, c1, t1) == ConflictFilename(r2, c2, t2)
            <==> r1 == r2 && Short(c1) == Short(c2) && t1 == t2
  {
    if ConflictFilename(r1, c1, t1) == ConflictFilename(r2, c2, t2) {
      LastDashSplits(r1 + MARK + Short(c1), Decimal.Print(t1), r2 + MARK + Short(c2), Decimal.Print(t2));
      if |Short(c2)| <= |Short(c1)| {
        MarkSplits(r1, Short(c1), r2, Short(c2));
      } else {
        MarkSplits(r2, Short(c2), r1, Short(c1));
      }
      assert Decimal.Value(Decimal.Print(t1)) == t1;
    }
  }
}
