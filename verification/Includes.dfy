// Include paths, and the traversal that gathers the sources of a bundle.

module IncludePaths {
  import opened Wrappers
  import opened Ir

  // The pieces between slashes.
  function Pieces(path: string): (r: seq<string>)
    ensures r != [] && forall i | 0 <= i < |r| :: '/' !in r[i]
  {
    if path == [] then [""]
    else
      var rest := Pieces(path[1..]);
      if path[0] == '/' then [""] + rest else [[path[0]] + rest[0]] + rest[1..]
  }

  function Meaningful(pieces: seq<string>): (r: seq<string>)
    ensures forall i | 0 <= i < |r| :: r[i] in pieces && r[i] != "" && r[i] != "."
  {
    if pieces == [] then []
    else if pieces[0] == "" || pieces[0] == "." then Meaningful(pieces[1..])
    else [pieces[0]] + Meaningful(pieces[1..])
  }

  function LeadingSlashes(path: string): nat {
    if path == [] || path[0] != '/' then 0 else 1 + LeadingSlashes(path[1..])
  }

  // A posix path's parts: exactly two leading slashes make a root of their own.
  function Parts(path: string): seq<string> {
    var n := LeadingSlashes(path);
    (if n == 0 then [] else if n == 2 then ["//"] else ["/"]) + Meaningful(Pieces(path))
  }

  function ParentParts(path: string): seq<string> {
    var parts := Parts(path);
    if parts == [] || (|parts| == 1 && LeadingSlashes(path) > 0) then parts else parts[..|parts| - 1]
  }

  function Join(parts: seq<string>): string {
    if parts == [] then ""
    else if |parts| == 1 then parts[0]
    else parts[0] + "/" + Join(parts[1..])
  }

  predicate EndsWith(s: string, suffix: string) {
    |suffix| <= |s| && s[|s| - |suffix|..] == suffix
  }

  // Empty, absolute, drive-qualified, backslashed or of another extension.
  predicate Unsafe(path: string) {
    || path == "" || '\0' in path || '\\' in path
    || path[0] == '/'
    || (|path| >= 2 && path[1] == ':')
    || !EndsWith(path, ".ns")
  }

  // Following parts from a base, never above its first `floor` parts.
  function Follow(base: seq<string>, floor: nat, parts: seq<string>): (r: Option<seq<string>>)
    requires floor <= |base|
    ensures r.Some? ==> floor <= |r.value| && r.value[..floor] == base[..floor]
    ensures r.Some? && ".." !in base ==> ".." !in r.value
    decreases |parts|
  {
    if parts == [] then Some(base)
    else if parts[0] == ".." then
      if |base| <= floor then None else Follow(base[..|base| - 1], floor, parts[1..])
    else
      var next := base + [parts[0]];
      assert next[..floor] == base[..floor];
      Follow(next, floor, parts[1..])
  }

  // A path's parts with every step up resolved, or None if it climbs out.
  function Normal(parts: seq<string>): (r: Option<seq<string>>)
    ensures r.Some? ==> ".." !in r.value
  {
    Follow([], 0, parts)
  }

  // The parts an include names, or None if it is unsafe or leaves the include root.
  function TargetParts(including: string, path: string, root: string): Option<seq<string>> {
    if Unsafe(path) then None
    else
      match (Normal(Parts(root)), Normal(ParentParts(including)))
      case (Some(rootParts), Some(base)) =>
        if |base| < |rootParts| || base[..|rootParts|] != rootParts then None
        else Follow(base, |rootParts|, Parts(path))
      case _ => None
  }

  method NormalizedParts(parts: seq<string>) returns (r: Option<seq<string>>)
    ensures r == Normal(parts)
  {
    r := Walk([], 0, parts);
  }

  method Walk(base: seq<string>, floor: nat, parts: seq<string>) returns (r: Option<seq<string>>)
    requires floor <= |base|
    ensures r == Follow(base, floor, parts)
  {
    var stack := base;
    assert parts[0..] == parts;
    for i := 0 to |parts|
      invariant floor <= |stack|
      invariant Follow(base, floor, parts) == Follow(stack, floor, parts[i..])
    {
      assert parts[i..][0] == parts[i] && parts[i..][1..] == parts[i + 1..];
      if parts[i] == ".." {
        if |stack| <= floor {
          return None;
        }
        stack := stack[..|stack| - 1];
      } else {
        stack := stack + [parts[i]];
      }
    }
    return Some(stack);
  }

  method CanonicalIncludePath(including: string, path: string, root: string) returns (r: Option<string>)
    ensures r == CanonicalPath(including, path, root)
  {
    if Unsafe(path) {
      return None;
    }
    var rootParts := NormalizedParts(Parts(root));
    if rootParts.None? {
      return None;
    }
    var base := NormalizedParts(ParentParts(including));
    if base.None? {
      return None;
    }
    if |base.value| < |rootParts.value| || base.value[..|rootParts.value|] != rootParts.value {
      return None;
    }
    var target := Walk(base.value, |rootParts.value|, Parts(path));
    return match target case Some(parts) => Some(Join(parts)) case None => None;
  }

  function CanonicalPath(including: string, path: string, root: string): Option<string> {
    match TargetParts(including, path, root) case Some(parts) => Some(Join(parts)) case None => None
  }

  // ---------- what a canonical path is ----------

  // A name that stands for itself between two slashes.
  predicate Plain(part: string) {
    part != "" && part != "." && part != ".." && '/' !in part
  }

  lemma {:induction false} PiecesOfJoin(parts: seq<string>)
    requires parts != [] && forall i | 0 <= i < |parts| :: '/' !in parts[i]
    ensures Pieces(Join(parts)) == parts
    decreases |parts|
  {
    if |parts| == 1 {
      PiecesOfPlain(parts[0]);
    } else {
      PiecesOfJoin(parts[1..]);
      PiecesAfterSlash(parts[0], Join(parts[1..]));
      assert parts == [parts[0]] + parts[1..];
    }
  }

  lemma {:induction false} PiecesOfPlain(part: string)
    requires '/' !in part
    ensures Pieces(part) == [part]
  {
    if part != "" {
      PiecesOfPlain(part[1..]);
      assert part == [part[0]] + part[1..];
    }
  }

  lemma {:induction false} PiecesAfterSlash(part: string, rest: string)
    requires '/' !in part
    ensures Pieces(part + "/" + rest) == [part] + Pieces(rest)
  {
    var whole := part + "/" + rest;
    if part == "" {
      assert whole[1..] == rest;
    } else {
      assert whole[1..] == part[1..] + "/" + rest;
      PiecesAfterSlash(part[1..], rest);
      assert part == [part[0]] + part[1..];
    }
  }

  lemma {:induction false} MeaningfulKeepsPlain(parts: seq<string>)
    requires forall i | 0 <= i < |parts| :: Plain(parts[i])
    ensures Meaningful(parts) == parts
  {
    if parts != [] {
      MeaningfulKeepsPlain(parts[1..]);
      assert parts == [parts[0]] + parts[1..];
    }
  }

  // Writing plain parts as a path and reading them back gives the same parts.
  lemma {:induction false} PartsOfJoin(parts: seq<string>)
    requires parts != [] && forall i | 0 <= i < |parts| :: Plain(parts[i])
    ensures Parts(Join(parts)) == parts
  {
    PiecesOfJoin(parts);
    MeaningfulKeepsPlain(parts);
    assert Join(parts)[0] == parts[0][0];
    assert LeadingSlashes(Join(parts)) == 0;
  }

  // Plain parts, or plain parts below a root of the whole file system.
  predicate Settled(parts: seq<string>) {
    forall i | 0 <= i < |parts| :: Plain(parts[i]) || (i == 0 && IsRoot(parts[i]))
  }

  predicate IsRoot(part: string) {
    part == "/" || part == "//"
  }

  predicate Absolute(parts: seq<string>) {
    parts != [] && IsRoot(parts[0])
  }

  predicate PlainSteps(parts: seq<string>) {
    forall i | 0 <= i < |parts| :: parts[i] == ".." || Plain(parts[i])
  }

  lemma {:induction false} FollowStaysSettled(base: seq<string>, floor: nat, parts: seq<string>)
    requires floor <= |base| && Follow(base, floor, parts).Some? && Settled(base) && PlainSteps(parts)
    ensures Settled(Follow(base, floor, parts).value)
    decreases |parts|
  {
    if parts != [] {
      FollowStaysSettled(if parts[0] == ".." then base[..|base| - 1] else base + [parts[0]], floor, parts[1..]);
    }
  }

  lemma MeaningfulSteps(path: string)
    ensures PlainSteps(Meaningful(Pieces(path)))
  {
  }

  // All parts of a path but a leading root are names or steps up.
  lemma PartsAreSteps(path: string)
    ensures PlainSteps(Parts(path)) || (Absolute(Parts(path)) && PlainSteps(Parts(path)[1..]))
    ensures path == "" || path[0] != '/' ==> PlainSteps(Parts(path))
  {
    MeaningfulSteps(path);
    hide Plain, Meaningful;
    var n := LeadingSlashes(path);
    if n > 0 {
      assert Parts(path)[1..] == Meaningful(Pieces(path));
    }
  }

  lemma ParentPartsAreSteps(path: string)
    ensures PlainSteps(ParentParts(path)) || (Absolute(ParentParts(path)) && PlainSteps(ParentParts(path)[1..]))
  {
    PartsAreSteps(path);
    hide Parts, Plain, IsRoot;
  }

  lemma NormalIsSettled(parts: seq<string>)
    requires Normal(parts).Some? && (PlainSteps(parts) || (Absolute(parts) && PlainSteps(parts[1..])))
    ensures Settled(Normal(parts).value)
  {
    if PlainSteps(parts) {
      FollowStaysSettled([], 0, parts);
    } else {
      FollowStaysSettled([parts[0]], 0, parts[1..]);
      assert [] + [parts[0]] == [parts[0]];
    }
  }

  lemma {:induction false} LastPiece(path: string)
    requires path != "" && path[|path| - 1] != '/'
    ensures var piece := Pieces(path)[|Pieces(path)| - 1]; piece != "" && piece[|piece| - 1] == path[|path| - 1]
  {
    if |path| > 1 {
      LastPiece(path[1..]);
    }
  }

  lemma {:induction false} LastMeaningful(pieces: seq<string>)
    requires pieces != [] && Plain(pieces[|pieces| - 1])
    ensures Meaningful(pieces) != [] && Meaningful(pieces)[|Meaningful(pieces)| - 1] == pieces[|pieces| - 1]
  {
    if |pieces| > 1 {
      LastMeaningful(pieces[1..]);
    }
  }

  lemma {:induction false} FollowEndsSomewhere(base: seq<string>, floor: nat, parts: seq<string>)
    requires floor <= |base| && Follow(base, floor, parts).Some?
    requires parts != [] && parts[|parts| - 1] != ".."
    ensures Follow(base, floor, parts).value != []
    decreases |parts|
  {
    if |parts| > 1 {
      FollowEndsSomewhere(if parts[0] == ".." then base[..|base| - 1] else base + [parts[0]], floor, parts[1..]);
    }
  }

  lemma {:induction false} SafePathNamesAFile(path: string)
    requires !Unsafe(path)
    ensures Parts(path) != [] && Parts(path)[|Parts(path)| - 1] != ".."
  {
    assert path[|path| - 1] == path[|path| - 3..][2] == 's';
    LastPiece(path);
    hide Pieces;
    assert Plain(Pieces(path)[|Pieces(path)| - 1]);
    LastMeaningful(Pieces(path));
  }

  // The other of the two roots a path can start with.
  function OtherRoot(root: string): string {
    if root == "/" then "//" else "/"
  }

  // Joining puts one slash more behind a root, which makes it the other root.
  lemma {:induction false} JoinTurnsTheRoot(parts: seq<string>)
    requires Settled(parts) && Absolute(parts) && |parts| > 1
    ensures Parts(Join(parts)) == [OtherRoot(parts[0])] + parts[1..]
  {
    var rest := parts[1..];
    var below := Join(rest);
    var path := Join(parts);
    assert forall i | 0 <= i < |rest| :: rest[i] == parts[i + 1];
    PiecesOfJoin(rest);
    MeaningfulKeepsPlain(rest);
    assert below[0] == rest[0][0];
    assert path == parts[0] + "/" + below;
    assert Plain(rest[0]);
    hide Join, Pieces, Meaningful, Plain, LeadingSlashes;
    var n := if parts[0] == "/" then 2 else 3;
    assert |path| == n + |below| && path[n..] == below;
    SlashesBefore(path, below, n);
  }

  lemma {:induction false} SlashesBefore(path: string, below: string, n: nat)
    requires n <= |path| && path[n..] == below && below != "" && below[0] != '/' && forall i | 0 <= i < n :: path[i] == '/'
    ensures LeadingSlashes(path) == n && Meaningful(Pieces(path)) == Meaningful(Pieces(below))
    decreases n
  {
    if n == 0 {
      assert path == below;
    } else {
      assert path[1..][n - 1..] == below;
      SlashesBefore(path[1..], below, n - 1);
      assert ([""] + Pieces(path[1..]))[1..] == Pieces(path[1..]);
    }
  }

  // An include that is accepted names, relative to its own directory, a file with the language's extension,
  // by a path without backslashes, drive or control character.
  lemma UnsafeIncludesAreRefused(including: string, path: string, root: string)
    requires CanonicalPath(including, path, root).Some?
    ensures |path| > 3 || path == ".ns"
    ensures path[|path| - 3..] == ".ns" && path[0] != '/' && path[1] != ':'
    ensures forall i | 0 <= i < |path| :: path[i] != '\\' && path[i] != '\0'
  {
    hide Follow, Parts, Normal, ParentParts, Join;
    assert !Unsafe(path);
    assert EndsWith(path, ".ns");
  }

  // An accepted include never steps up, and it is a path below the include root exactly when the
  // root is not a root of the whole file system: read back, its parts start with the root's.
  lemma {:induction false} CanonicalPathStaysInside(including: string, path: string, root: string)
    requires CanonicalPath(including, path, root).Some?
    ensures Normal(Parts(root)).Some?
    ensures var rootParts := Normal(Parts(root)).value;
      var r := CanonicalPath(including, path, root).value;
      && ".." !in Parts(r)
      && (rootParts <= Parts(r) <==> rootParts == [] || (rootParts[0] != "" && rootParts[0][0] != '/'))
  {
    hide *;
    TargetIsFollowed(including, path, root);
    var rootParts := Normal(Parts(root)).value;
    var base := Normal(ParentParts(including)).value;
    var parts := TargetParts(including, path, root).value;
    ParentPartsAreSteps(including);
    NormalIsSettled(ParentParts(including));
    PartsAreSteps(path);
    FollowStaysSettled(base, |rootParts|, Parts(path));
    SafePathNamesAFile(path);
    FollowEndsSomewhere(base, |rootParts|, Parts(path));
    FollowEndsInAName(base, |rootParts|, Parts(path));
    assert rootParts == base[..|rootParts|] == parts[..|rootParts|];
    SettledReadsBack(rootParts, parts);
  }

  lemma {:induction false} FollowEndsInAName(base: seq<string>, floor: nat, parts: seq<string>)
    requires floor <= |base| && Follow(base, floor, parts).Some?
    requires parts != [] && parts[|parts| - 1] != ".." && PlainSteps(parts)
    ensures var r := Follow(base, floor, parts).value; r != [] && Plain(r[|r| - 1])
    decreases |parts|
  {
    if |parts| > 1 {
      FollowEndsInAName(if parts[0] == ".." then base[..|base| - 1] else base + [parts[0]], floor, parts[1..]);
    } else {
      assert Follow(base, floor, parts) == Some(base + [parts[0]]);
    }
  }

  lemma {:induction false} SettledReadsBack(rootParts: seq<string>, parts: seq<string>)
    requires Settled(parts) && parts != [] && Plain(parts[|parts| - 1]) && rootParts <= parts
    ensures ".." !in Parts(Join(parts))
    ensures rootParts <= Parts(Join(parts)) <==> rootParts == [] || (rootParts[0] != "" && rootParts[0][0] != '/')
  {
    if Absolute(parts) {
      JoinTurnsTheRoot(parts);
      hide Parts, Join;
      assert forall i | 0 < i < |parts| :: parts[i] != "..";
      assert OtherRoot(parts[0]) != parts[0] && OtherRoot(parts[0]) != "..";
      if rootParts != [] {
        assert rootParts[0] == parts[0];
      }
    } else {
      PartsOfJoin(parts);
      hide Parts, Join;
      if rootParts != [] {
        assert rootParts[0] == parts[0];
      }
    }
  }

  // Below the root of the whole file system the accepted path doubles a slash and is another path.
  lemma AbsoluteRootIsLost()
    ensures var r := CanonicalPath("/a/b.ns", "c.ns", "/");
      && r == Some("//a/c.ns")
      && Normal(Parts("/")) == Some(["/"])
      && !(["/"] <= Parts("//a/c.ns"))
      && CanonicalPath("//a/c.ns", "d.ns", "/") == None
  {
    PartsOfTheExample();
    NamesAreSafe();
    hide Parts, Join, LeadingSlashes, Unsafe;
    assert ParentParts("/a/b.ns") == ["/", "a"] && ParentParts("//a/c.ns") == ["//", "a"];
    FollowNames([], 0, ["/"]);
    FollowNames([], 0, ["/", "a"]);
    FollowNames([], 0, ["//", "a"]);
    FollowNames(["/", "a"], 1, ["c.ns"]);
    assert [] + ["/"] == ["/"] && [] + ["/", "a"] == ["/", "a"] && [] + ["//", "a"] == ["//", "a"] && ["/", "a"] + ["c.ns"] == ["/", "a", "c.ns"];
    hide Follow;
    assert ["//", "a"][..1] == ["//"];
    assert ["/", "a"][..1] == ["/"];
  }

  lemma PartsOfTheExample()
    ensures Parts("/") == ["/"] && Parts("/a/b.ns") == ["/", "a", "b.ns"] && LeadingSlashes("/a/b.ns") == 1
    ensures Parts("c.ns") == ["c.ns"] && Parts("d.ns") == ["d.ns"]
    ensures Join(["/", "a", "c.ns"]) == "//a/c.ns" && Parts("//a/c.ns") == ["//", "a", "c.ns"] && LeadingSlashes("//a/c.ns") == 2
  {
    hide Parts, Pieces, Meaningful;
    RootAlone();
    PathReads("/", ["a", "b.ns"], "/a/b.ns");
    PartsOfJoin(["c.ns"]);
    PartsOfJoin(["d.ns"]);
    JoinTurnsTheRoot(["/", "a", "c.ns"]);
  }

  lemma RootAlone()
    ensures Parts("/") == ["/"]
  {
  }

  lemma NamesAreSafe()
    ensures !Unsafe("c.ns") && !Unsafe("d.ns")
  {
  }

  lemma {:induction false} FollowNames(base: seq<string>, floor: nat, parts: seq<string>)
    requires floor <= |base| && ".." !in parts
    ensures Follow(base, floor, parts) == Some(base + parts)
    decreases |parts|
  {
    if parts == [] {
      assert base + parts == base;
    } else {
      FollowNames(base + [parts[0]], floor, parts[1..]);
      assert base + [parts[0]] + parts[1..] == base + parts;
    }
  }

  lemma PathReads(root: string, names: seq<string>, path: string)
    requires root == "/" && names != [] && (forall i | 0 <= i < |names| :: Plain(names[i])) && path == root + Join(names)
    ensures Parts(path) == [root] + names
  {
    PiecesOfJoin(names);
    MeaningfulKeepsPlain(names);
    assert Join(names)[0] == names[0][0];
    assert path[1..] == Join(names);
    SlashesBefore(path, Join(names), 1);
  }

  lemma TargetIsFollowed(including: string, path: string, root: string)
    requires CanonicalPath(including, path, root).Some?
    ensures !Unsafe(path) && path != "" && path[0] != '/' && TargetParts(including, path, root).Some?
    ensures CanonicalPath(including, path, root).value == Join(TargetParts(including, path, root).value)
    ensures Normal(Parts(root)).Some? && Normal(ParentParts(including)).Some?
    ensures var (rootParts, base) := (Normal(Parts(root)).value, Normal(ParentParts(including)).value);
      && |rootParts| <= |base| && base[..|rootParts|] == rootParts
      && Follow(base, |rootParts|, Parts(path)) == TargetParts(including, path, root)
  {
    hide Join, Normal, Follow, Parts, ParentParts, EndsWith;
  }
}

// The depth-first traversal of the include graph.
module Includes {
  import opened Wrappers
  import opened Ir
  import opened IncludePaths

  // A source is identified by a digest of its path and text, so by itself.
  datatype Source = Source(path: string, text: string, size: nat)

  datatype Declaration = Declaration(path: string, span: nat)

  datatype World = World(resolve: (Source, string) -> Option<Source>, parse: Source -> Option<seq<Declaration>>)

  datatype Options = Options(root: string, maxDepth: nat, maxFiles: nat, maxBytes: nat)

  datatype Edge = Edge(from: Source, to: Source, span: nat)

  datatype IncludeError =
    | DepthLimit
    | PathOutsideRoot
    | ResolutionFailed
    | Cycle
    | FileLimit
    | SizeLimit
    | SyntaxError

  datatype Bundle = Bundle(root: Source, fragments: seq<Source>, edges: seq<Edge>)

  // ---------- the include graph ----------

  // The source a declaration stands for: found by the resolver, at the expected canonical path.
  function Target(w: World, o: Options, s: Source, d: Declaration): Option<Source> {
    match (CanonicalPath(s.path, d.path, o.root), w.resolve(s, d.path))
    case (Some(expected), Some(t)) => if t.path == expected then Some(t) else None
    case _ => None
  }

  function Declared(w: World, s: Source): seq<Declaration> {
    match w.parse(s) case Some(ds) => ds case None => []
  }

  predicate Includes(w: World, o: Options, s: Source, t: Source) {
    exists i :: 0 <= i < |Declared(w, s)| && Target(w, o, s, Declared(w, s)[i]) == Some(t)
  }

  predicate Chain(w: World, o: Options, chain: seq<Source>) {
    chain != [] && forall i, j | 0 <= i < |chain| && i < j < |chain| && j == i + 1 :: Includes(w, o, chain[i], chain[j])
  }

  predicate Links(w: World, o: Options, chain: seq<Source>, from: Source, to: Source) {
    Chain(w, o, chain) && chain[0] == from && chain[|chain| - 1] == to
  }

  // Reachable by at most n includes.
  ghost predicate ReachesWithin(w: World, o: Options, from: Source, to: Source, n: nat) {
    exists chain :: Links(w, o, chain, from, to) && |chain| <= n + 1
  }

  ghost predicate Reaches(w: World, o: Options, from: Source, to: Source) {
    exists chain :: Links(w, o, chain, from, to)
  }

  ghost predicate CyclicFrom(w: World, o: Options, root: Source) {
    exists s, cycle :: Reaches(w, o, root, s) && Links(w, o, cycle, s, s) && |cycle| > 1
  }

  function TotalSize(sources: seq<Source>): nat {
    if sources == [] then 0 else TotalSize(sources[..|sources| - 1]) + sources[|sources| - 1].size
  }

  // The edges recorded for one source, in order.
  function EdgesFrom(edges: seq<Edge>, s: Source): seq<Edge> {
    if edges == [] then []
    else
      var last := edges[|edges| - 1];
      EdgesFrom(edges[..|edges| - 1], s) + (if last.from == s then [last] else [])
  }

  // The source's first n declarations are recorded, each with the source it stands for.
  predicate Recorded(w: World, o: Options, edges: seq<Edge>, s: Source, n: nat) {
    && n <= |Declared(w, s)|
    && |EdgesFrom(edges, s)| == n
    && forall i | 0 <= i < n :: Target(w, o, s, Declared(w, s)[i]) == Some(EdgesFrom(edges, s)[i].to) && EdgesFrom(edges, s)[i] == Edge(s, EdgesFrom(edges, s)[i].to, Declared(w, s)[i].span)
  }

  // Every include of s stands for one of the given sources.
  predicate LeadsInto(w: World, o: Options, s: Source, n: nat, sources: seq<Source>)
    requires n <= |Declared(w, s)|
  {
    forall i | 0 <= i < n :: Target(w, o, s, Declared(w, s)[i]).Some? && Target(w, o, s, Declared(w, s)[i]).value in sources
  }

  // An order in which every source comes after all it includes.
  predicate Closed(w: World, o: Options, order: seq<Source>) {
    forall i | 0 <= i < |order| :: w.parse(order[i]).Some? && LeadsInto(w, o, order[i], |Declared(w, order[i])|, order[..i])
  }

  // ---------- what an order of completion proves ----------

  lemma {:induction false} ClosedContainsTargets(w: World, o: Options, order: seq<Source>, i: nat, t: Source)
    requires Closed(w, o, order) && i < |order| && Includes(w, o, order[i], t)
    ensures exists j :: 0 <= j < i && order[j] == t
  {
    var k :| 0 <= k < |Declared(w, order[i])| && Target(w, o, order[i], Declared(w, order[i])[k]) == Some(t);
    assert t in order[..i];
    var j :| 0 <= j < i && order[..i][j] == t;
    assert order[j] == t;
  }

  // Along a chain from a completed source, every source was completed, and earlier each time.
  lemma {:induction false} ChainsDescend(w: World, o: Options, order: seq<Source>, chain: seq<Source>, i: nat) returns (j: nat)
    requires Closed(w, o, order) && Chain(w, o, chain) && i < |order| && chain[0] == order[i]
    ensures j < |order| && order[j] == chain[|chain| - 1] && j + |chain| <= i + 1
    decreases |chain|
  {
    if |chain| == 1 {
      j := i;
    } else {
      assert Includes(w, o, chain[0], chain[1]);
      ClosedContainsTargets(w, o, order, i, chain[1]);
      var k :| 0 <= k < i && order[k] == chain[1];
      assert Chain(w, o, chain[1..]) by {
        forall m, n | 0 <= m < n < |chain[1..]| && n == m + 1 ensures Includes(w, o, chain[1..][m], chain[1..][n]) {
          assert Includes(w, o, chain[m + 1], chain[n + 1]);
        }
      }
      j := ChainsDescend(w, o, order, chain[1..], k);
    }
  }

  // A completed, duplicate-free order that contains the root contains everything reachable from
  // it, and nothing reachable includes itself however indirectly.
  lemma {:induction false} CompletionIsAcyclic(w: World, o: Options, order: seq<Source>, root: Source)
    requires Closed(w, o, order) && Distinct(order) && root in order
    ensures forall s :: Reaches(w, o, root, s) ==> s in order
    ensures !CyclicFrom(w, o, root)
  {
    var r :| 0 <= r < |order| && order[r] == root;
    forall s | Reaches(w, o, root, s) ensures s in order {
      var chain :| Links(w, o, chain, root, s);
      var j := ChainsDescend(w, o, order, chain, r);
    }
    if CyclicFrom(w, o, root) {
      var s, cycle :| Reaches(w, o, root, s) && Links(w, o, cycle, s, s) && |cycle| > 1;
      assert s in order;
      var i :| 0 <= i < |order| && order[i] == s;
      var j := ChainsDescend(w, o, order, cycle, i);
      assert false;
    }
  }

  // ---------- why a build fails ----------

  ghost predicate LongChain(w: World, o: Options, root: Source) {
    exists chain, s :: Links(w, o, chain, root, s) && |chain| == o.maxDepth + 1 && Declared(w, s) != []
  }

  ghost predicate ManySources(w: World, o: Options, root: Source, sources: seq<Source>) {
    Distinct(sources) && root !in sources && forall s | s in sources :: Reaches(w, o, root, s)
  }

  predicate Stray(w: World, o: Options, s: Source, d: Declaration) {
    match CanonicalPath(s.path, d.path, o.root)
    case None => true
    case Some(expected) => w.resolve(s, d.path).Some? && w.resolve(s, d.path).value.path != expected
  }

  // Every refusal has its reason in the include graph.
  ghost predicate Justified(w: World, o: Options, root: Source, e: IncludeError) {
    match e
    case DepthLimit => LongChain(w, o, root)
    case PathOutsideRoot => exists s, d :: Reaches(w, o, root, s) && d in Declared(w, s) && Stray(w, o, s, d)
    case ResolutionFailed => exists s, d :: Reaches(w, o, root, s) && d in Declared(w, s) && w.resolve(s, d.path).None?
    case Cycle => CyclicFrom(w, o, root)
    case FileLimit => exists sources :: ManySources(w, o, root, sources) && |sources| > o.maxFiles
    case SizeLimit => exists sources :: ManySources(w, o, root, sources) && root.size + TotalSize(sources) > o.maxBytes
    case SyntaxError => exists s :: Reaches(w, o, root, s) && w.parse(s).None?
  }

  lemma PrefixChain(w: World, o: Options, chain: seq<Source>, k: nat)
    requires Chain(w, o, chain) && k < |chain|
    ensures Links(w, o, chain[..k + 1], chain[0], chain[k])
  {
  }

  lemma ExtendChain(w: World, o: Options, chain: seq<Source>, t: Source)
    requires Chain(w, o, chain) && Includes(w, o, chain[|chain| - 1], t)
    ensures Links(w, o, chain + [t], chain[0], t)
  {
  }

  // Meeting a source that is still being visited closes a cycle.
  lemma ActiveTargetCloses(w: World, o: Options, stack: seq<Source>, t: Source)
    requires Chain(w, o, stack) && t in stack && Includes(w, o, stack[|stack| - 1], t)
    ensures CyclicFrom(w, o, stack[0])
  {
    hide Includes;
    var k :| 0 <= k < |stack| && stack[k] == t;
    PrefixChain(w, o, stack, k);
    assert Reaches(w, o, stack[0], t);
    var cycle := stack[k..] + [t];
    forall i, j | 0 <= i < j < |cycle| && j == i + 1 ensures Includes(w, o, cycle[i], cycle[j]) {
      if j < |stack| - k {
        assert Includes(w, o, stack[k + i], stack[k + j]);
      }
    }
    assert Links(w, o, cycle, t, t);
  }

  lemma {:induction false} RecordingOneMore(edges: seq<Edge>, e: Edge, s: Source)
    ensures EdgesFrom(edges + [e], s) == EdgesFrom(edges, s) + (if e.from == s then [e] else [])
  {
    assert (edges + [e])[..|edges|] == edges;
  }

  lemma NothingRecorded(w: World, o: Options, edges: seq<Edge>, s: Source, sources: seq<Source>)
    requires EdgesFrom(edges, s) == [] && w.parse(s).Some?
    ensures Declared(w, s) == w.parse(s).value
    ensures Recorded(w, o, edges, s, 0) && LeadsInto(w, o, s, 0, sources)
  {
  }

  lemma RecordedByEdges(w: World, o: Options, edges: seq<Edge>, others: seq<Edge>, s: Source, n: nat)
    requires EdgesFrom(edges, s) == EdgesFrom(others, s)
    ensures Recorded(w, o, edges, s, n) <==> Recorded(w, o, others, s, n)
  {
  }

  lemma {:induction false} RecordedMore(w: World, o: Options, edges: seq<Edge>, s: Source, n: nat, t: Source)
    requires Recorded(w, o, edges, s, n) && n < |Declared(w, s)| && Target(w, o, s, Declared(w, s)[n]) == Some(t)
    ensures Recorded(w, o, edges + [Edge(s, t, Declared(w, s)[n].span)], s, n + 1)
  {
    RecordingOneMore(edges, Edge(s, t, Declared(w, s)[n].span), s);
  }

  lemma LeadsIntoMore(w: World, o: Options, s: Source, n: nat, before: seq<Source>, after: seq<Source>)
    requires n < |Declared(w, s)| && LeadsInto(w, o, s, n, before) && before <= after
    requires Target(w, o, s, Declared(w, s)[n]).Some? && Target(w, o, s, Declared(w, s)[n]).value in after
    ensures LeadsInto(w, o, s, n + 1, after)
  {
    forall k | 0 <= k < n ensures Target(w, o, s, Declared(w, s)[k]).value in after {
      assert Target(w, o, s, Declared(w, s)[k]).value in before;
    }
  }

  lemma ClosedMore(w: World, o: Options, order: seq<Source>, s: Source)
    requires Closed(w, o, order) && w.parse(s).Some? && LeadsInto(w, o, s, |Declared(w, s)|, order)
    ensures Closed(w, o, order + [s])
  {
    hide LeadsInto, Declared;
    var longer := order + [s];
    forall i | 0 <= i < |longer| ensures w.parse(longer[i]).Some? && LeadsInto(w, o, longer[i], |Declared(w, longer[i])|, longer[..i]) {
      assert longer[..i] == if i < |order| then order[..i] else order;
    }
  }

  lemma TargetFound(w: World, o: Options, s: Source, i: nat, t: Source)
    requires i < |Declared(w, s)|
    requires w.resolve(s, Declared(w, s)[i].path) == Some(t) && CanonicalPath(s.path, Declared(w, s)[i].path, o.root) == Some(t.path)
    ensures Target(w, o, s, Declared(w, s)[i]) == Some(t) && Includes(w, o, s, t)
  {
    assert Target(w, o, s, Declared(w, s)[i]) == Some(t);
  }

  lemma DepthReason(w: World, o: Options, root: Source, chain: seq<Source>, s: Source)
    requires Links(w, o, chain, root, s) && |chain| == o.maxDepth + 1 && Declared(w, s) != []
    ensures Justified(w, o, root, DepthLimit)
  {
  }

  lemma StrayReason(w: World, o: Options, root: Source, s: Source, d: Declaration)
    requires Reaches(w, o, root, s) && d in Declared(w, s)
    requires match CanonicalPath(s.path, d.path, o.root)
      case None => true
      case Some(expected) => w.resolve(s, d.path).Some? && w.resolve(s, d.path).value.path != expected
    ensures Justified(w, o, root, PathOutsideRoot)
  {
    assert Stray(w, o, s, d);
  }

  lemma ResolutionReason(w: World, o: Options, root: Source, s: Source, d: Declaration)
    requires Reaches(w, o, root, s) && d in Declared(w, s) && w.resolve(s, d.path).None?
    ensures Justified(w, o, root, ResolutionFailed)
  {
  }

  lemma FileReason(w: World, o: Options, root: Source, sources: seq<Source>)
    requires ManySources(w, o, root, sources) && |sources| > o.maxFiles
    ensures Justified(w, o, root, FileLimit)
  {
  }

  lemma SizeReason(w: World, o: Options, root: Source, sources: seq<Source>)
    requires ManySources(w, o, root, sources) && root.size + TotalSize(sources) > o.maxBytes
    ensures Justified(w, o, root, SizeLimit)
  {
  }

  lemma SyntaxReason(w: World, o: Options, root: Source, s: Source)
    requires Reaches(w, o, root, s) && w.parse(s).None?
    ensures Justified(w, o, root, SyntaxError)
  {
  }

  // What is active is the chain being followed; what else was visited is finished.
  ghost predicate Stacked(w: World, o: Options, root: Source, stack: seq<Source>, active: set<Source>, visited: set<Source>, finished: seq<Source>) {
    && Chain(w, o, stack) && stack[0] == root && |stack| <= o.maxDepth + 1
    && Distinct(stack) && active == (set s | s in stack)
    && visited == active + (set s | s in finished)
    && (forall s | s in finished :: s !in active)
  }

  // The fragments are what was visited beside the root, all near enough and within the limits.
  ghost predicate Gathered(w: World, o: Options, root: Source, visited: set<Source>, fragments: seq<Source>, totalBytes: nat) {
    && visited == {root} + (set s | s in fragments)
    && Distinct(fragments) && root !in fragments && |fragments| <= o.maxFiles
    && totalBytes == root.size + TotalSize(fragments) <= o.maxBytes
    && (forall s | s in visited :: ReachesWithin(w, o, root, s, o.maxDepth))
  }

  // Finished sources have all their declarations recorded, unvisited ones none.
  ghost predicate Logged(w: World, o: Options, edges: seq<Edge>, visited: set<Source>, finished: seq<Source>) {
    && (forall s | s in finished :: Recorded(w, o, edges, s, |Declared(w, s)|))
    && (forall s | s !in visited :: EdgesFrom(edges, s) == [])
  }

  lemma VisitedIsReachable(w: World, o: Options, root: Source, visited: set<Source>, fragments: seq<Source>, totalBytes: nat, s: Source)
    requires Gathered(w, o, root, visited, fragments, totalBytes) && s in visited
    ensures Reaches(w, o, root, s)
  {
    var chain :| Links(w, o, chain, root, s) && |chain| <= o.maxDepth + 1;
  }

  lemma TopOfStack(w: World, o: Options, root: Source, stack: seq<Source>, active: set<Source>, visited: set<Source>, finished: seq<Source>)
    requires Stacked(w, o, root, stack, active, visited, finished)
    ensures stack != [] && |stack| <= o.maxDepth + 1
    ensures var top := stack[|stack| - 1];
      && top in visited && top in active && top !in finished
      && Links(w, o, stack, root, top) && Reaches(w, o, root, top)
    ensures visited == active + (set s | s in finished)
  {
    assert Links(w, o, stack, root, stack[|stack| - 1]);
  }

  // Meeting an active source again closes a cycle.
  lemma ActiveAgain(w: World, o: Options, root: Source, stack: seq<Source>, active: set<Source>, visited: set<Source>, finished: seq<Source>, t: Source)
    requires Stacked(w, o, root, stack, active, visited, finished)
    requires t in active && stack != [] && Includes(w, o, stack[|stack| - 1], t)
    ensures Justified(w, o, root, Cycle)
  {
    ActiveTargetCloses(w, o, stack, t);
  }

  // The fragments so far and one more reachable source.
  lemma OneMoreSource(w: World, o: Options, root: Source, visited: set<Source>, fragments: seq<Source>, totalBytes: nat, t: Source)
    requires Gathered(w, o, root, visited, fragments, totalBytes) && t !in visited && Reaches(w, o, root, t)
    ensures ManySources(w, o, root, fragments + [t]) && root.size + TotalSize(fragments + [t]) == totalBytes + t.size
    ensures |fragments| < o.maxFiles && totalBytes + t.size <= o.maxBytes && ReachesWithin(w, o, root, t, o.maxDepth) ==>
      Gathered(w, o, root, visited + {t}, fragments + [t], totalBytes + t.size)
  {
    var gathered := fragments + [t];
    assert gathered[..|fragments|] == fragments;
    hide Links;
    forall s | s in gathered ensures Reaches(w, o, root, s) {
      if s != t {
        VisitedIsReachable(w, o, root, visited, fragments, totalBytes, s);
      }
    }
  }

  lemma PushStack(w: World, o: Options, root: Source, stack: seq<Source>, active: set<Source>, visited: set<Source>, finished: seq<Source>, t: Source)
    requires Stacked(w, o, root, stack, active, visited, finished)
    requires t !in visited && stack != [] && |stack| <= o.maxDepth && Includes(w, o, stack[|stack| - 1], t)
    ensures Stacked(w, o, root, stack + [t], active + {t}, visited + {t}, finished)
    ensures ReachesWithin(w, o, root, t, o.maxDepth) && Reaches(w, o, root, t) && t !in active
  {
    ExtendChain(w, o, stack, t);
  }

  lemma PopStack(w: World, o: Options, root: Source, stack: seq<Source>, active: set<Source>, visited: set<Source>, finished: seq<Source>)
    requires Stacked(w, o, root, stack, active, visited, finished) && |stack| > 1 && Distinct(finished)
    ensures var top := stack[|stack| - 1];
      Stacked(w, o, root, stack[..|stack| - 1], active - {top}, visited, finished + [top]) && Distinct(finished + [top])
  {
    var top := stack[|stack| - 1];
    hide Includes;
    assert Chain(w, o, stack[..|stack| - 1]);
    hide Chain;
    forall s | s in active - {top} ensures s in stack[..|stack| - 1] {
      var k :| 0 <= k < |stack| && stack[k] == s;
      assert stack[..|stack| - 1][k] == s;
    }
    forall s | s in stack[..|stack| - 1] ensures s in active - {top} {
      var k :| 0 <= k < |stack| - 1 && stack[k] == s;
      assert stack[k] != stack[|stack| - 1];
    }
  }

  lemma LogMore(w: World, o: Options, edges: seq<Edge>, visited: set<Source>, finished: seq<Source>, s: Source, n: nat, t: Source)
    requires Logged(w, o, edges, visited, finished) && s in visited && s !in finished
    requires Recorded(w, o, edges, s, n) && n < |Declared(w, s)| && Target(w, o, s, Declared(w, s)[n]) == Some(t)
    ensures var longer := edges + [Edge(s, t, Declared(w, s)[n].span)];
      && Logged(w, o, longer, visited, finished) && Recorded(w, o, longer, s, n + 1)
      && forall other | other != s :: EdgesFrom(longer, other) == EdgesFrom(edges, other)
  {
    var edge := Edge(s, t, Declared(w, s)[n].span);
    var longer := edges + [edge];
    RecordedMore(w, o, edges, s, n, t);
    hide Target, EdgesFrom, Recorded, Declared;
    forall other | other != s ensures EdgesFrom(longer, other) == EdgesFrom(edges, other) {
      RecordingOneMore(edges, edge, other);
    }
    forall other | other in finished ensures Recorded(w, o, longer, other, |Declared(w, other)|) {
      RecordedByEdges(w, o, edges, longer, other, |Declared(w, other)|);
    }
  }

  // ---------- the traversal ----------

  class Traversal {
    const w: World
    const o: Options
    const root: Source
    var totalBytes: nat
    var visited: set<Source>
    var active: set<Source>
    var fragments: seq<Source>
    var edges: seq<Edge>
    // The sources being visited, outermost first, and those whose visit has ended.
    ghost var stack: seq<Source>
    ghost var finished: seq<Source>

    constructor (w: World, o: Options, root: Source)
      requires root.size <= o.maxBytes
      ensures this.w == w && this.o == o && this.root == root
      ensures Inv() && stack == [root] && finished == [] && edges == [] && active == {root}
    {
      this.w, this.o, this.root := w, o, root;
      totalBytes, visited, active, fragments, edges := root.size, {root}, {root}, [], [];
      stack, finished := [root], [];
      new;
      assert Links(w, o, [root], root, root);
    }

    ghost predicate Inv()
      reads this
    {
      && Stacked(w, o, root, stack, active, visited, finished)
      && Gathered(w, o, root, visited, fragments, totalBytes)
      && Closed(w, o, finished) && Distinct(finished)
      && Logged(w, o, edges, visited, finished)
    }

    lemma UnfoldInv()
      requires Inv()
      ensures Stacked(w, o, root, stack, active, visited, finished) && Gathered(w, o, root, visited, fragments, totalBytes)
      ensures Closed(w, o, finished) && Distinct(finished) && Logged(w, o, edges, visited, finished)
    {
    }

    method Visit(source: Source, declarations: seq<Declaration>, depth: nat) returns (error: Option<IncludeError>)
      requires Inv() && |stack| == depth + 1 && stack[depth] == source
      requires w.parse(source) == Some(declarations) && EdgesFrom(edges, source) == []
      modifies this
      ensures error.Some? ==> Justified(w, o, root, error.value)
      ensures error.None? ==> Inv() && stack == old(stack) && active == old(active) && old(finished) <= finished
      ensures error.None? ==> Recorded(w, o, edges, source, |declarations|) && LeadsInto(w, o, source, |declarations|, finished)
      ensures error.None? ==> forall s | s in old(active) && s != source :: EdgesFrom(edges, s) == old(EdgesFrom(edges, s))
      decreases o.maxDepth + 1 - depth, 1
    {
      hide *;
      NothingRecorded(w, o, edges, source, finished);
      for i := 0 to |declarations|
        invariant Inv() && stack == old(stack) && active == old(active) && old(finished) <= finished
        invariant Recorded(w, o, edges, source, i) && LeadsInto(w, o, source, i, finished)
        invariant forall s | s in old(active) && s != source :: EdgesFrom(edges, s) == old(EdgesFrom(edges, s))
      {
        ghost var before := finished;
        error := VisitDeclaration(source, declarations, i, depth);
        if error.Some? {
          return;
        }
        LeadsIntoMore(w, o, source, i, before, finished);
      }
      return None;
    }

    method VisitDeclaration(source: Source, declarations: seq<Declaration>, i: nat, depth: nat) returns (error: Option<IncludeError>)
      requires Inv() && |stack| == depth + 1 && stack[depth] == source
      requires Declared(w, source) == declarations && i < |declarations| && Recorded(w, o, edges, source, i)
      modifies this
      ensures error.Some? ==> Justified(w, o, root, error.value)
      ensures error.None? ==> Inv() && stack == old(stack) && active == old(active) && old(finished) <= finished
      ensures error.None? ==> Recorded(w, o, edges, source, i + 1)
      ensures error.None? ==> Target(w, o, source, declarations[i]).Some? && Target(w, o, source, declarations[i]).value in finished
      ensures error.None? ==> forall s | s in old(active) && s != source :: EdgesFrom(edges, s) == old(EdgesFrom(edges, s))
      decreases o.maxDepth + 1 - depth, 0
    {
      hide *;
      var declaration := declarations[i];
      assert Stacked(w, o, root, stack, active, visited, finished) by { UnfoldInv(); }
      TopOfStack(w, o, root, stack, active, visited, finished);
      if depth + 1 > o.maxDepth {
        DepthReason(w, o, root, stack, source);
        return Some(DepthLimit);
      }
      var expected := CanonicalIncludePath(source.path, declaration.path, o.root);
      if expected.None? {
        StrayReason(w, o, root, source, declaration);
        return Some(PathOutsideRoot);
      }
      var resolved := w.resolve(source, declaration.path);
      if resolved.None? {
        ResolutionReason(w, o, root, source, declaration);
        return Some(ResolutionFailed);
      }
      var target := resolved.value;
      if target.path != expected.value {
        StrayReason(w, o, root, source, declaration);
        return Some(PathOutsideRoot);
      }
      TargetFound(w, o, source, i, target);
      RecordEdge(source, i, target);
      if target in active {
        UnfoldInv();
        ActiveAgain(w, o, root, stack, active, visited, finished, target);
        return Some(Cycle);
      }
      if target in visited {
        return None;
      }
      ghost var recorded := edges;
      error := VisitNew(target, depth + 1);
      if error.None? {
        RecordedByEdges(w, o, recorded, edges, source, i + 1);
      }
    }

    method RecordEdge(source: Source, i: nat, target: Source)
      requires Inv() && source in active && source !in finished && source in visited
      requires Recorded(w, o, edges, source, i) && i < |Declared(w, source)|
      requires Target(w, o, source, Declared(w, source)[i]) == Some(target)
      modifies `edges
      ensures Inv() && Recorded(w, o, edges, source, i + 1)
      ensures forall s | s != source :: EdgesFrom(edges, s) == old(EdgesFrom(edges, s))
    {
      var edge := Edge(source, target, Declared(w, source)[i].span);
      hide Stacked, Gathered, Logged, Closed, Recorded, EdgesFrom, Target, Distinct;
      LogMore(w, o, edges, visited, finished, source, i, target);
      edges := edges + [edge];
    }

    // A source met for the first time, within the file and size limits.
    method VisitNew(target: Source, depth: nat) returns (error: Option<IncludeError>)
      requires Inv() && |stack| == depth <= o.maxDepth && target !in visited
      requires depth > 0 && Includes(w, o, stack[depth - 1], target)
      modifies this
      ensures error.Some? ==> Justified(w, o, root, error.value)
      ensures error.None? ==> Inv() && stack == old(stack) && active == old(active) && old(finished) <= finished
      ensures error.None? ==> target in finished
      ensures error.None? ==> forall s | s in old(active) :: EdgesFrom(edges, s) == old(EdgesFrom(edges, s))
      decreases o.maxDepth + 1 - depth, 2
    {
      hide Stacked, Gathered, Closed, Recorded, EdgesFrom, Target, Distinct, Includes, Justified, Reaches, ReachesWithin, ManySources, Links, Chain;
      PushStack(w, o, root, stack, active, visited, finished, target);
      OneMoreSource(w, o, root, visited, fragments, totalBytes, target);
      hide *;
      if |fragments| >= o.maxFiles {
        FileReason(w, o, root, fragments + [target]);
        return Some(FileLimit);
      }
      if totalBytes + target.size > o.maxBytes {
        SizeReason(w, o, root, fragments + [target]);
        return Some(SizeLimit);
      }
      var parsed := w.parse(target);
      if parsed.None? {
        SyntaxReason(w, o, root, target);
        return Some(SyntaxError);
      }
      Enter(target);
      error := Visit(target, parsed.value, depth);
      if error.Some? {
        return;
      }
      Finish(target);
      assert old(stack) == (old(stack) + [target])[..depth];
    }

    method Enter(target: Source)
      requires Inv() && target !in visited && 0 < |stack| <= o.maxDepth && Includes(w, o, stack[|stack| - 1], target)
      requires |fragments| < o.maxFiles && totalBytes + target.size <= o.maxBytes
      modifies `totalBytes, `visited, `active, `fragments, `stack
      ensures Inv() && stack == old(stack) + [target] && active == old(active) + {target} && visited == old(visited) + {target}
    {
      hide Stacked, Gathered, Closed, Recorded, EdgesFrom, Target, Distinct, Includes, Reaches, ReachesWithin, Links, Chain;
      PushStack(w, o, root, stack, active, visited, finished, target);
      OneMoreSource(w, o, root, visited, fragments, totalBytes, target);
      totalBytes := totalBytes + target.size;
      visited := visited + {target};
      active := active + {target};
      fragments := fragments + [target];
      stack := stack + [target];
    }

    method Finish(target: Source)
      requires Inv() && |stack| > 1 && stack[|stack| - 1] == target && w.parse(target).Some?
      requires Recorded(w, o, edges, target, |Declared(w, target)|) && LeadsInto(w, o, target, |Declared(w, target)|, finished)
      modifies `active, `stack, `finished
      ensures Inv() && stack == old(stack)[..|old(stack)| - 1] && finished == old(finished) + [target]
      ensures active == old(active) - {target}
    {
      hide Stacked, Gathered, Closed, Recorded, EdgesFrom, Target, Distinct, LeadsInto;
      ClosedMore(w, o, finished, target);
      PopStack(w, o, root, stack, active, visited, finished);
      active := active - {target};
      stack := stack[..|stack| - 1];
      finished := finished + [target];
    }
  }

  // What a bundle is, whatever the order of traversal.
  ghost predicate Complete(w: World, o: Options, root: Source, b: Bundle) {
    && b.root == root && Distinct(b.fragments)
    && (forall s :: s == root || s in b.fragments <==> Reaches(w, o, root, s))
    && root !in b.fragments
    && (forall s | s in b.fragments :: ReachesWithin(w, o, root, s, o.maxDepth))
    && (forall s | s == root || s in b.fragments :: w.parse(s).Some? && Recorded(w, o, b.edges, s, |Declared(w, s)|))
    && (forall e | e in b.edges :: e.from == root || e.from in b.fragments)
    && |b.fragments| <= o.maxFiles && root.size + TotalSize(b.fragments) <= o.maxBytes
  }

  lemma {:induction false} EdgesAreFromTheirSource(edges: seq<Edge>, e: Edge)
    requires e in edges
    ensures EdgesFrom(edges, e.from) != []
    decreases |edges|
  {
    var last := edges[|edges| - 1];
    if last.from != e.from {
      assert e in edges[..|edges| - 1];
      EdgesAreFromTheirSource(edges[..|edges| - 1], e);
    }
  }

  // A build succeeds only on an acyclic include graph, with exactly its reachable sources, each
  // once, exactly their declarations as edges, and all limits kept; every refusal is justified.
  method Build(w: World, o: Options, root: Source) returns (r: Result<Bundle, IncludeError>)
    ensures r.Ok? ==> Complete(w, o, root, r.value) && !CyclicFrom(w, o, root)
    ensures r.Err? ==> Justified(w, o, root, r.error)
  {
    assert Links(w, o, [root], root, root);
    assert Reaches(w, o, root, root);
    if root.size > o.maxBytes {
      assert ManySources(w, o, root, []);
      assert TotalSize([]) == 0;
      return Err(SizeLimit);
    }
    var parsed := w.parse(root);
    if parsed.None? {
      return Err(SyntaxError);
    }
    var t := new Traversal(w, o, root);
    var error := t.Visit(root, parsed.value, 0);
    if error.Some? {
      return Err(error.value);
    }
    r := Ok(Bundle(root, t.fragments, t.edges));
    t.UnfoldInv();
    BundleIsComplete(w, o, root, r.value, t.visited, t.finished, t.totalBytes);
  }

  // When only the root is left on the stack and its declarations are done, the bundle is complete.
  lemma {:induction false} BundleIsComplete(w: World, o: Options, root: Source, b: Bundle, visited: set<Source>, finished: seq<Source>, totalBytes: nat)
    requires b.root == root && Stacked(w, o, root, [root], {root}, visited, finished)
    requires Gathered(w, o, root, visited, b.fragments, totalBytes)
    requires Closed(w, o, finished) && Distinct(finished) && Logged(w, o, b.edges, visited, finished)
    requires w.parse(root).Some? && Recorded(w, o, b.edges, root, |Declared(w, root)|) && LeadsInto(w, o, root, |Declared(w, root)|, finished)
    ensures Complete(w, o, root, b) && !CyclicFrom(w, o, root)
  {
    var order := finished + [root];
    hide Chain, Recorded, EdgesFrom, LeadsInto, Target, Reaches, CyclicFrom, Includes;
    ClosedMore(w, o, finished, root);
    assert root in order;
    hide Closed;
    CompletionIsAcyclic(w, o, order, root);
    assert forall s :: s in order <==> s in visited;
    forall s | s in visited ensures Reaches(w, o, root, s) {
      VisitedIsReachable(w, o, root, visited, b.fragments, totalBytes, s);
    }
    assert forall s :: s in visited <==> Reaches(w, o, root, s);
    forall e | e in b.edges ensures e.from in visited {
      EdgesAreFromTheirSource(b.edges, e);
    }
    forall s | s in finished ensures w.parse(s).Some? {
      FinishedIsParsed(w, o, finished, s);
    }
    hide Stacked;
    assert forall s :: s == root || s in b.fragments <==> s in visited;
  }

  lemma FinishedIsParsed(w: World, o: Options, order: seq<Source>, s: Source)
    requires Closed(w, o, order) && s in order
    ensures w.parse(s).Some?
  {
  }
}
