/** Path cleaning and the mapping between jail paths and subscriptions
    (path/filepath on relative paths; internal/client/runner/subscription.go). */
module Paths {
  import opened Prelude
  import opened Protocol

  // Subscription roots and jail paths are relative; Clean below is filepath.Clean on them.
  predicate Relative(s: string) { s == "" || s[0] != '/' }

  // A path split at '/'.
  function Split(s: string): (parts: seq<string>)
    ensures parts != []
    ensures forall p :: p in parts ==> '/' !in p
  {
    if s == "" then [""]
    else
      var before := Split(s[..|s| - 1]);
      if s[|s| - 1] == '/' then before + [""]
      else before[..|before| - 1] + [before[|before| - 1] + [s[|s| - 1]]]
  }

  // A component that stands for itself.
  predicate Plain(p: string) { p != "" && p != "." && p != ".." && '/' !in p }

  // One component appended to a cleaned relative path.
  function Push(stack: seq<string>, p: string): seq<string> {
    if p == "" || p == "." then stack
    else if p == ".." && stack != [] && stack[|stack| - 1] != ".." then stack[..|stack| - 1]
    else stack + [p]
  }

  function PushAll(stack: seq<string>, parts: seq<string>): seq<string> {
    if parts == [] then stack else Push(PushAll(stack, parts[..|parts| - 1]), parts[|parts| - 1])
  }

  // The components of filepath.Clean of a relative path.
  function Components(s: string): seq<string> { PushAll([], Split(s)) }

  // Some ".." and then plain components.
  ghost predicate Normal(parts: seq<string>) {
    && (forall i :: 0 <= i < |parts| ==> Plain(parts[i]) || parts[i] == "..")
    && (forall i :: 0 < i < |parts| && parts[i] == ".." ==> parts[i - 1] == "..")
  }

  function Join(parts: seq<string>): string {
    if parts == [] then ""
    else if |parts| == 1 then parts[0]
    else Join(parts[..|parts| - 1]) + "/" + parts[|parts| - 1]
  }

  function Render(parts: seq<string>): string {
    if parts == [] then "." else Join(parts)
  }

  function Clean(s: string): string { Render(Components(s)) }

  // filepath.Join of two elements.
  function JoinPath(a: string, b: string): string {
    if a == "" then (if b == "" then "" else Clean(b)) else Clean(a + "/" + b)
  }

  lemma {:induction false} PushAllConcat(stack: seq<string>, p: seq<string>, q: seq<string>)
    ensures PushAll(stack, p + q) == PushAll(PushAll(stack, p), q)
  {
    if q == [] {
      assert p + q == p;
    } else {
      PushAllConcat(stack, p, q[..|q| - 1]);
      assert (p + q)[..|p + q| - 1] == p + q[..|q| - 1];
    }
  }

  lemma {:induction false} PushAllNormal(stack: seq<string>, parts: seq<string>)
    requires Normal(stack) && forall p :: p in parts ==> '/' !in p
    ensures Normal(PushAll(stack, parts))
  {
    if parts != [] {
      var n := |parts| - 1;
      PushAllNormal(stack, parts[..n]);
      assert parts[n] in parts;
    }
  }

  // Pushing what is already normal changes nothing.
  lemma {:induction false} PushAllIdentity(stack: seq<string>, parts: seq<string>)
    requires Normal(stack + parts)
    ensures PushAll(stack, parts) == stack + parts
  {
    if parts == [] {
      assert stack + parts == stack;
    } else {
      var n := |parts| - 1;
      assert (stack + parts)[|stack| + n] == parts[n];
      assert forall i :: 0 <= i < |stack| + n ==> (stack + parts)[i] == (stack + parts[..n])[i];
      PushAllIdentity(stack, parts[..n]);
      assert stack + parts[..n] + [parts[n]] == stack + parts;
    }
  }

  // What one more character does to the split parts.
  function Grow(parts: seq<string>, c: char): seq<string>
    requires parts != []
  {
    if c == '/' then parts + [""] else parts[..|parts| - 1] + [parts[|parts| - 1] + [c]]
  }

  lemma SplitGrows(s: string, c: char)
    ensures Split(s + [c]) == Grow(Split(s), c)
  {
    assert (s + [c])[..|s|] == s;
  }

  lemma GrowConcat(p: seq<string>, q: seq<string>, c: char)
    requires q != []
    ensures Grow(p + q, c) == p + Grow(q, c)
  {
    assert (p + q)[..|p + q| - 1] == p + q[..|q| - 1];
  }

  lemma SplitConcatGrows(left: string, parts: seq<string>, b: string, c: char)
    requires Split(left + b) == parts + Split(b)
    ensures Split(left + (b + [c])) == parts + Split(b + [c])
  {
    SplitGrows(left + b, c);
    SplitGrows(b, c);
    GrowConcat(parts, Split(b), c);
    assert left + (b + [c]) == (left + b) + [c];
  }

  lemma {:induction false} SplitConcat(a: string, b: string)
    ensures Split(a + "/" + b) == Split(a) + Split(b)
  {
    if b == "" {
      assert a + "/" + b == a + ['/'];
      SplitGrows(a, '/');
    } else {
      var n := |b| - 1;
      SplitConcat(a, b[..n]);
      SplitConcatGrows(a + "/", Split(a), b[..n], b[n]);
      assert b == b[..n] + [b[n]];
    }
  }

  lemma {:induction false} SplitPlain(p: string)
    requires '/' !in p
    ensures Split(p) == [p]
  {
    if p != "" {
      assert p[|p| - 1] in p;
      SplitPlain(p[..|p| - 1]);
      assert p == p[..|p| - 1] + [p[|p| - 1]];
    }
  }

  lemma {:induction false} SplitJoin(parts: seq<string>)
    requires parts != [] && forall i :: 0 <= i < |parts| ==> '/' !in parts[i]
    ensures Split(Join(parts)) == parts
  {
    var n := |parts| - 1;
    SplitPlain(parts[n]);
    if n == 0 {
      assert parts == [parts[0]];
    } else {
      SplitJoin(parts[..n]);
      SplitConcat(Join(parts[..n]), parts[n]);
      assert parts == parts[..n] + [parts[n]];
    }
  }

  lemma ComponentsNormal(s: string)
    ensures Normal(Components(s))
  {
    PushAllNormal([], Split(s));
  }

  // Rendering and splitting are inverse on normal forms.
  lemma ComponentsOfRender(parts: seq<string>)
    requires Normal(parts)
    ensures Components(Render(parts)) == parts
  {
    if parts == [] {
      SplitPlain(".");
      assert ["."][..0] == [];
      assert PushAll([], []) == [];
    } else {
      SplitJoin(parts);
      assert [] + parts == parts;
      PushAllIdentity([], parts);
    }
  }

  lemma CleanIdempotent(s: string)
    ensures Clean(Clean(s)) == Clean(s)
  {
    ComponentsNormal(s);
    ComponentsOfRender(Components(s));
  }

  lemma ComponentsOfJoin(a: string, b: string)
    ensures Components(a + "/" + b) == PushAll(Components(a), Split(b))
  {
    SplitConcat(a, b);
    PushAllConcat([], Split(a), Split(b));
  }

  // Splitting a rendered normal path and pushing its parts appends them.
  lemma PushRendered(base: seq<string>, rest: seq<string>)
    requires Normal(base + rest)
    ensures PushAll(base, Split(Render(rest))) == base + rest
  {
    if rest == [] {
      SplitPlain(".");
      assert ["."][..0] == [];
      assert PushAll(base, []) == base && base + rest == base;
    } else {
      forall i | 0 <= i < |rest| ensures '/' !in rest[i] {
        assert (base + rest)[|base| + i] == rest[i];
      }
      SplitJoin(rest);
      PushAllIdentity(base, rest);
    }
  }

  lemma RenderNotEmpty(rest: seq<string>)
    requires Normal(rest)
    ensures Render(rest) != ""
  {
    if rest != [] { JoinNotEmpty(rest); }
  }

  // Joining a root and a path below it appends the components.
  lemma JoinAppends(root: string, rest: seq<string>)
    requires Normal(Components(root) + rest)
    ensures JoinPath(root, Render(rest)) == Render(Components(root) + rest)
  {
    if root == "" {
      assert Split("") == [""] && [""][..0] == [] && Components("") == [];
      assert [] + rest == rest;
      ComponentsOfRender(rest);
      RenderNotEmpty(rest);
    } else {
      ComponentsOfJoin(root, Render(rest));
      PushRendered(Components(root), rest);
    }
  }

  lemma {:induction false} JoinNotEmpty(parts: seq<string>)
    requires parts != [] && parts[|parts| - 1] != ""
    ensures Join(parts) != ""
  {
  }

  // Slash-separated prefixes are component prefixes.
  lemma PrefixByComponents(root: seq<string>, path: seq<string>)
    requires Normal(root) && Normal(path) && root != []
    ensures Join(root) + "/" <= Render(path) <==> root < path
    ensures root < path ==> Render(path)[|Join(root)| + 1..] == Render(path[|root|..])
  {
    if root < path {
      var rest := path[|root|..];
      assert path == root + rest;
      JoinConcat(root, rest);
      assert Render(path) == Join(root) + "/" + Join(rest);
    }
    JoinNotEmpty(root);
    if path != [] && Join(root) + "/" <= Join(path) {
      StringPrefix(root, path, Join(path)[|Join(root)| + 1..]);
    }
  }

  lemma StringPrefix(root: seq<string>, path: seq<string>, tail: string)
    requires Normal(root) && Normal(path) && root != [] && path != []
    requires Join(path) == Join(root) + "/" + tail
    ensures root < path
  {
    SplitConcat(Join(root), tail);
    SplitJoin(root);
    SplitJoin(path);
    assert path == root + Split(tail);
  }

  lemma {:induction false} JoinConcat(p: seq<string>, q: seq<string>)
    requires p != [] && q != []
    ensures Join(p + q) == Join(p) + "/" + Join(q)
  {
    var n := |q| - 1;
    assert (p + q)[..|p| + n] == p + q[..n];
    if n == 0 {
      assert p + q[..n] == p;
    } else {
      JoinConcat(p, q[..n]);
      assert Join(p) + "/" + (Join(q[..n]) + "/" + q[n]) == (Join(p) + "/" + Join(q[..n])) + "/" + q[n];
    }
  }

  lemma {:induction false} JoinInjective(p: seq<string>, q: seq<string>)
    requires Normal(p) && Normal(q) && Render(p) == Render(q)
    ensures p == q
  {
    ComponentsOfRender(p);
    ComponentsOfRender(q);
  }

  datatype Subscription = Subscription(pair: PairId, side: Side, rootSubpath: Path, direction: Direction)

  datatype Resolved = Resolved(pair: PairId, side: Side, subRel: Path)

  // What Resolve makes of one subscription.
  function Match(s: Subscription, relPath: Path): Option<Resolved> {
    var cleaned, root := Clean(relPath), Clean(s.rootSubpath);
    if root == "." || root == "" then Some(Resolved(s.pair, s.side, cleaned))
    else if cleaned == root then Some(Resolved(s.pair, s.side, "."))
    else if root + "/" <= cleaned then Some(Resolved(s.pair, s.side, cleaned[|root| + 1..]))
    else None
  }

  // Resolve compares strings; in terms of components it strips the root off the path.
  lemma MatchByComponents(s: Subscription, relPath: Path)
    ensures var root, path := Components(s.rootSubpath), Components(relPath);
            Match(s, relPath) == if root <= path then Some(Resolved(s.pair, s.side, Render(path[|root|..]))) else None
  {
    var root, path := Components(s.rootSubpath), Components(relPath);
    ComponentsNormal(s.rootSubpath);
    ComponentsNormal(relPath);
    RenderIsDot(root);
    if root != [] {
      PrefixByComponents(root, path);
      if Render(path) == Render(root) {
        JoinInjective(path, root);
      }
    } else {
      assert path[|root|..] == path;
    }
    assert root <= path && |root| == |path| ==> root == path;
  }

  // For relative paths: a subscription matches exactly the paths at or below its root by
  // whole components, and joining the root with the answer gives the cleaned path back.
  lemma ResolveRoundTrip(s: Subscription, relPath: Path)
    requires Relative(s.rootSubpath) && Relative(relPath)
    ensures Match(s, relPath).Some? <==> Components(s.rootSubpath) <= Components(relPath)
    ensures Match(s, relPath).Some? ==>
              JoinPath(s.rootSubpath, Match(s, relPath).value.subRel) == Clean(relPath)
  {
    var root, path := Components(s.rootSubpath), Components(relPath);
    MatchByComponents(s, relPath);
    ComponentsNormal(relPath);
    if root <= path {
      assert path == root + path[|root|..];
      JoinAppends(s.rootSubpath, path[|root|..]);
    }
  }

  lemma RenderIsDot(parts: seq<string>)
    requires Normal(parts)
    ensures Render(parts) != ""
    ensures Render(parts) == "." <==> parts == []
  {
    if parts != [] {
      JoinNotEmpty(parts);
      if Render(parts) == "." {
        assert Render([]) == ".";
        JoinInjective(parts, []);
      }
    }
  }

  // Roots of which neither contains the other lead to different jail paths, and one root
  // leads different paths to different jail paths: a pair and a path below its root name one
  // place in a client's tree.
  lemma PlacesAreDistinct(root1: Path, rel1: seq<string>, root2: Path, rel2: seq<string>)
    requires Relative(root1) && Relative(root2)
    requires Normal(Components(root1) + rel1) && Normal(Components(root2) + rel2)
    requires Components(root1) == Components(root2)
             || !(Components(root1) <= Components(root2) || Components(root2) <= Components(root1))
    ensures JoinPath(root1, Render(rel1)) == JoinPath(root2, Render(rel2))
            <==> Components(root1) == Components(root2) && rel1 == rel2
  {
    JoinAppends(root1, rel1);
    JoinAppends(root2, rel2);
    var p, q := Components(root1) + rel1, Components(root2) + rel2;
    if Render(p) == Render(q) {
      JoinInjective(p, q);
      SharedBeginning(Components(root1), rel1, Components(root2), rel2);
    }
  }

  lemma SharedBeginning(a: seq<string>, x: seq<string>, b: seq<string>, y: seq<string>)
    requires a + x == b + y
    ensures a <= b || b <= a
    ensures a == b ==> x == y
  {
    var all := a + x;
    assert a == all[..|a|] && b == all[..|b|];
    assert x == all[|a|..] && y == all[|b|..];
  }

  /** The registry of subscriptions. Directions are never empty in it: an empty direction is
      the signal to unsubscribe. */
  class Registry {
    var m: map<PairId, Subscription>

    constructor ()
      ensures m == map[]
    {
      m := map[];
    }

    method Apply(sub: Subscription)
      modifies this
      ensures m == if sub.direction == OtherDirection("") then old(m) - {sub.pair} else old(m)[sub.pair := sub]
    {
      if sub.direction == OtherDirection("") {
        Remove(sub.pair);
        return;
      }
      m := m[sub.pair := sub];
    }

    method Remove(pair: PairId)
      modifies this
      ensures m == old(m) - {pair}
    {
      m := m - {pair};
    }

    ghost predicate Answers(relPath: Path, x: Resolved)
      reads this
    {
      exists p :: p in m && Match(m[p], relPath) == Some(x)
    }

    // Each matching subscription answers once, in no particular order.
    method Resolve(relPath: Path) returns (out: seq<Resolved>, ghost from: seq<PairId>)
      ensures forall x :: x in out <==> Answers(relPath, x)
      ensures |from| == |out| && (forall i, j :: 0 <= i < j < |from| ==> from[i] != from[j])
      ensures forall i :: 0 <= i < |out| ==> from[i] in m && Match(m[from[i]], relPath) == Some(out[i])
      ensures forall p :: p in m && Match(m[p], relPath).Some? ==> p in from
    {
      var cleaned := Clean(relPath);
      out, from := [], [];
      var todo := m.Keys;
      while todo != {}
        invariant todo <= m.Keys
        invariant |from| == |out| && (forall i, j :: 0 <= i < j < |from| ==> from[i] != from[j])
        invariant forall i :: 0 <= i < |out| ==>
          from[i] in m && from[i] !in todo && Match(m[from[i]], relPath) == Some(out[i])
        invariant forall p :: p in m && p !in todo && Match(m[p], relPath).Some? ==> p in from
        decreases todo
      {
        var p :| p in todo;
        todo := todo - {p};
        var s := m[p];
        var root := Clean(s.rootSubpath);
        if root == "." || root == "" {
          out, from := out + [Resolved(s.pair, s.side, cleaned)], from + [p];
          continue;
        }
        if cleaned == root {
          out, from := out + [Resolved(s.pair, s.side, ".")], from + [p];
          continue;
        }
        if root + "/" <= cleaned {
          out, from := out + [Resolved(s.pair, s.side, cleaned[|root| + 1..])], from + [p];
        }
      }
      forall x ensures x in out <==> Answers(relPath, x) {
        if p :| p in m && Match(m[p], relPath) == Some(x) {
          var i :| 0 <= i < |from| && from[i] == p;
          assert out[i] == x;
        }
        if i :| 0 <= i < |out| && out[i] == x {
          assert Match(m[from[i]], relPath) == Some(x);
        }
      }
    }
  }
}
