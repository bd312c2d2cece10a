// Comparing a replayed result with the recorded one: every difference, each under its own path.

module Diff {
  import opened Wrappers
  import opened Json
  import opened Numerals

  datatype Step = AtKey(key: string) | AtIndex(index: nat)

  datatype Difference = Difference(path: string, original: Option<Json>, replayed: Option<Json>)

  // ---------- what counts as equal ----------

  // Scalars compare as in the host language, where true is one and false is zero.
  predicate ScalarsEqual(a: Json, b: Json) {
    match (a, b)
    case (JBool(x), JInt(y)) => y == if x then 1 else 0
    case (JInt(x), JBool(y)) => x == if y then 1 else 0
    case _ => a == b
  }

  predicate SameShape(a: Json, b: Json) {
    (a.JObject? && b.JObject?) || (a.JArray? && b.JArray?)
  }

  predicate LooselyEqual(a: Json, b: Json)
    decreases a
  {
    if a.JObject? && b.JObject? then
      a.members.Keys == b.members.Keys && forall k | k in a.members :: LooselyEqual(a.members[k], b.members[k])
    else if a.JArray? && b.JArray? then
      |a.items| == |b.items| && forall i | 0 <= i < |a.items| :: LooselyEqual(a.items[i], b.items[i])
    else if a.JObject? || b.JObject? || a.JArray? || b.JArray? then false
    else ScalarsEqual(a, b)
  }

  // The two sides where a walk down both values ends in a difference: a missing part, or two parts
  // that are not both objects or both arrays and are not equal.
  function DifferenceAt(a: Json, b: Json, steps: seq<Step>): Option<(Option<Json>, Option<Json>)>
    decreases |steps|
  {
    if steps == [] then
      if SameShape(a, b) || LooselyEqual(a, b) then None else Some((Some(a), Some(b)))
    else if a.JObject? && b.JObject? && steps[0].AtKey? then
      var k := steps[0].key;
      if k in a.members && k in b.members then DifferenceAt(a.members[k], b.members[k], steps[1..])
      else if |steps| > 1 then None
      else if k in a.members then Some((Some(a.members[k]), None))
      else if k in b.members then Some((None, Some(b.members[k])))
      else None
    else if a.JArray? && b.JArray? && steps[0].AtIndex? then
      var i := steps[0].index;
      if i < |a.items| && i < |b.items| then DifferenceAt(a.items[i], b.items[i], steps[1..])
      else if |steps| > 1 then None
      else if i < |a.items| then Some((Some(a.items[i]), None))
      else if i < |b.items| then Some((None, Some(b.items[i])))
      else None
    else None
  }

  lemma {:induction false} EqualHasNoDifference(a: Json, b: Json, steps: seq<Step>)
    requires LooselyEqual(a, b)
    ensures DifferenceAt(a, b, steps) == None
    decreases |steps|
  {
    if steps != [] {
      if a.JObject? && b.JObject? && steps[0].AtKey? && steps[0].key in a.members {
        EqualHasNoDifference(a.members[steps[0].key], b.members[steps[0].key], steps[1..]);
      } else if a.JArray? && b.JArray? && steps[0].AtIndex? && steps[0].index < |a.items| {
        EqualHasNoDifference(a.items[steps[0].index], b.items[steps[0].index], steps[1..]);
      }
    }
  }

  lemma {:induction false} UnequalHasADifference(a: Json, b: Json) returns (steps: seq<Step>)
    requires !LooselyEqual(a, b)
    ensures DifferenceAt(a, b, steps).Some?
    decreases a
  {
    if a.JObject? && b.JObject? {
      if k :| k in a.members && k !in b.members {
        steps := [AtKey(k)];
      } else if k :| k in b.members && k !in a.members {
        steps := [AtKey(k)];
      } else {
        assert a.members.Keys == b.members.Keys;
        var k :| k in a.members && !LooselyEqual(a.members[k], b.members[k]);
        var rest := UnequalHasADifference(a.members[k], b.members[k]);
        steps := [AtKey(k)] + rest;
        assert steps[1..] == rest;
      }
    } else if a.JArray? && b.JArray? {
      if |a.items| != |b.items| {
        steps := [AtIndex(if |a.items| < |b.items| then |a.items| else |b.items|)];
      } else {
        var i :| 0 <= i < |a.items| && !LooselyEqual(a.items[i], b.items[i]);
        var rest := UnequalHasADifference(a.items[i], b.items[i]);
        steps := [AtIndex(i)] + rest;
        assert steps[1..] == rest;
      }
    } else {
      steps := [];
    }
  }

  // ---------- paths ----------

  function EscapeChar(c: char): string {
    if c == '~' then "~0" else if c == '/' then "~1" else [c]
  }

  function Escape(key: string): (r: string)
    ensures '/' !in r && |r| >= |key|
  {
    if key == [] then [] else EscapeChar(key[0]) + Escape(key[1..])
  }

  function Segment(s: Step): (r: string)
    ensures '/' !in r
  {
    match s case AtKey(k) => Escape(k) case AtIndex(i) => Digits(i)
  }

  function Render(steps: seq<Step>): string {
    if steps == [] then "" else "/" + Segment(steps[0]) + Render(steps[1..])
  }

  // The whole value is shown as a lone slash.
  function Shown(path: string): string {
    if path == "" then "/" else path
  }

  lemma {:induction false} EscapingIsInjective(a: string, b: string)
    requires Escape(a) == Escape(b)
    ensures a == b
    decreases |a|
  {
    if a != [] && b != [] {
      var x, y := EscapeChar(a[0]), EscapeChar(b[0]);
      assert Escape(a)[0] == x[0] && Escape(b)[0] == y[0];
      if |x| == 2 && |y| == 2 {
        assert Escape(a)[1] == x[1] && Escape(b)[1] == y[1];
      }
      assert a[0] == b[0];
      assert Escape(a)[|x|..] == Escape(a[1..]) && Escape(b)[|y|..] == Escape(b[1..]);
      EscapingIsInjective(a[1..], b[1..]);
      assert a == [a[0]] + a[1..] && b == [b[0]] + b[1..];
    }
  }

  predicate SameKind(s: Step, t: Step) {
    s.AtKey? == t.AtKey?
  }

  lemma SegmentsAreInjective(s: Step, t: Step)
    requires SameKind(s, t) && Segment(s) == Segment(t)
    ensures s == t
  {
    match s
    case AtKey(k) => EscapingIsInjective(k, t.key);
    case AtIndex(i) => DigitsAreInjective(i, t.index);
  }

  // Segments end where the next slash stands, so paths that begin with different steps differ.
  lemma {:induction false} SegmentsEndAtSlashes(s: string, t: string, x: string, y: string)
    requires '/' !in s && '/' !in t && (x == "" || x[0] == '/') && (y == "" || y[0] == '/')
    requires s + x == t + y
    ensures s == t && x == y
    decreases |s|
  {
    if s != "" && t != "" {
      assert (s + x)[0] == s[0] && (t + y)[0] == t[0];
      assert (s + x)[1..] == s[1..] + x && (t + y)[1..] == t[1..] + y;
      SegmentsEndAtSlashes(s[1..], t[1..], x, y);
      assert s == [s[0]] + s[1..] && t == [t[0]] + t[1..];
    } else {
      assert s == "" ==> s + x == x;
      assert t == "" ==> t + y == y;
    }
  }

  lemma RenderBegins(steps: seq<Step>)
    ensures Render(steps) == "" || Render(steps)[0] == '/'
  {
  }

  lemma RenderSplits(s: Step, rest: seq<Step>)
    ensures Render([s] + rest) == "/" + Segment(s) + Render(rest)
  {
    assert ([s] + rest)[1..] == rest;
  }

  lemma SamePathSameStep(path: string, s: Step, t: Step, x: seq<Step>, y: seq<Step>)
    requires SameKind(s, t) && path + Render([s] + x) == path + Render([t] + y)
    ensures s == t
  {
    RenderBegins(x);
    RenderBegins(y);
    RenderSplits(s, x);
    RenderSplits(t, y);
    var u, v := Segment(s) + Render(x), Segment(t) + Render(y);
    hide Render, Segment;
    assert path + Render([s] + x) == path + "/" + u;
    assert path + Render([t] + y) == path + "/" + v;
    assert (path + "/" + u)[|path| + 1..] == u && (path + "/" + v)[|path| + 1..] == v;
    SegmentsEndAtSlashes(Segment(s), Segment(t), Render(x), Render(y));
    SegmentsAreInjective(s, t);
  }

  // ---------- collecting ----------

  // The entry tells the difference these steps lead to.
  predicate Tells(d: Difference, a: Json, b: Json, path: string, steps: seq<Step>) {
    DifferenceAt(a, b, steps) == Some((d.original, d.replayed)) && d.path == Shown(path + Render(steps))
  }

  ghost predicate Told(ds: seq<Difference>, a: Json, b: Json, path: string, steps: seq<Step>) {
    exists i :: 0 <= i < |ds| && Tells(ds[i], a, b, path, steps)
  }

  ghost predicate Telling(d: Difference, a: Json, b: Json, path: string) {
    exists steps :: Tells(d, a, b, path, steps)
  }

  predicate PathsDistinct(ds: seq<Difference>) {
    forall i, j | 0 <= i < j < |ds| :: ds[i].path != ds[j].path
  }

  // Every difference is reported, nothing else is, and no path twice.
  ghost predicate Reported(ds: seq<Difference>, a: Json, b: Json, path: string) {
    && (forall steps | DifferenceAt(a, b, steps).Some? :: Told(ds, a, b, path, steps))
    && (forall i | 0 <= i < |ds| :: Telling(ds[i], a, b, path))
    && PathsDistinct(ds)
  }

  // The same for the differences below one step.
  ghost predicate ReportedBelow(ds: seq<Difference>, a: Json, b: Json, path: string, s: Step) {
    && (forall rest | DifferenceAt(a, b, [s] + rest).Some? :: Told(ds, a, b, path, [s] + rest))
    && (forall i | 0 <= i < |ds| :: TellingBelow(ds[i], a, b, path, s))
    && PathsDistinct(ds)
  }

  ghost predicate TellingBelow(d: Difference, a: Json, b: Json, path: string, s: Step) {
    exists rest :: Tells(d, a, b, path, [s] + rest)
  }

  // And for the differences below the steps done so far, all of one kind.
  ghost predicate ReportedUpTo(ds: seq<Difference>, a: Json, b: Json, path: string, done: set<Step>) {
    && (forall s, rest | s in done && DifferenceAt(a, b, [s] + rest).Some? :: Told(ds, a, b, path, [s] + rest))
    && (forall i | 0 <= i < |ds| :: exists s :: s in done && TellingBelow(ds[i], a, b, path, s))
    && PathsDistinct(ds)
  }

  lemma ToldInLonger(ds: seq<Difference>, more: seq<Difference>, a: Json, b: Json, path: string, steps: seq<Step>)
    ensures Told(ds, a, b, path, steps) || Told(more, a, b, path, steps) ==> Told(ds + more, a, b, path, steps)
  {
    if Told(ds, a, b, path, steps) {
      var i :| 0 <= i < |ds| && Tells(ds[i], a, b, path, steps);
      assert (ds + more)[i] == ds[i];
    } else if Told(more, a, b, path, steps) {
      var i :| 0 <= i < |more| && Tells(more[i], a, b, path, steps);
      assert (ds + more)[|ds| + i] == more[i];
    }
  }

  lemma TellDifferentPaths(d: Difference, e: Difference, a: Json, b: Json, path: string, s: Step, t: Step)
    requires TellingBelow(d, a, b, path, s) && TellingBelow(e, a, b, path, t) && SameKind(s, t)
    ensures d.path == e.path ==> s == t
  {
    var x :| Tells(d, a, b, path, [s] + x);
    var y :| Tells(e, a, b, path, [t] + y);
    RenderSplits(s, x);
    RenderSplits(t, y);
    if d.path == e.path {
      SamePathSameStep(path, s, t, x, y);
    }
  }

  lemma OneMoreStep(ds: seq<Difference>, more: seq<Difference>, a: Json, b: Json, path: string, done: set<Step>, s: Step)
    requires ReportedUpTo(ds, a, b, path, done) && ReportedBelow(more, a, b, path, s)
    requires s !in done && forall t | t in done :: SameKind(s, t)
    ensures ReportedUpTo(ds + more, a, b, path, done + {s})
  {
    var all := ds + more;
    hide Tells, DifferenceAt;
    forall t, rest | t in done + {s} && DifferenceAt(a, b, [t] + rest).Some? ensures Told(all, a, b, path, [t] + rest) {
      ToldInLonger(ds, more, a, b, path, [t] + rest);
    }
    forall i | 0 <= i < |all| ensures exists t :: t in done + {s} && TellingBelow(all[i], a, b, path, t) {
      if i < |ds| {
        assert all[i] == ds[i];
        var t :| t in done && TellingBelow(ds[i], a, b, path, t);
        assert t in done + {s};
      } else {
        assert all[i] == more[i - |ds|];
        assert s in done + {s} && TellingBelow(all[i], a, b, path, s);
      }
    }
    forall i, j | 0 <= i < j < |all| ensures all[i].path != all[j].path {
      if i < |ds| <= j {
        assert all[i] == ds[i] && all[j] == more[j - |ds|];
        var t :| t in done && TellingBelow(ds[i], a, b, path, t);
        TellDifferentPaths(ds[i], more[j - |ds|], a, b, path, t, s);
      } else if j < |ds| {
        assert all[i] == ds[i] && all[j] == ds[j];
      } else {
        assert all[i] == more[i - |ds|] && all[j] == more[j - |ds|];
      }
    }
  }

  // The differences below a step that both sides have are those of the two parts.
  lemma ChildIsReported(ds: seq<Difference>, a: Json, b: Json, path: string, s: Step, x: Json, y: Json)
    requires Reported(ds, x, y, path + "/" + Segment(s))
    requires forall rest :: DifferenceAt(a, b, [s] + rest) == DifferenceAt(x, y, rest)
    ensures ReportedBelow(ds, a, b, path, s)
  {
    var child := path + "/" + Segment(s);
    hide DifferenceAt, Segment;
    forall rest | DifferenceAt(a, b, [s] + rest).Some? ensures Told(ds, a, b, path, [s] + rest) {
      assert Told(ds, x, y, child, rest);
      var i :| 0 <= i < |ds| && Tells(ds[i], x, y, child, rest);
      ChildTells(ds[i], a, b, path, s, x, y, rest);
    }
    forall i | 0 <= i < |ds| ensures TellingBelow(ds[i], a, b, path, s) {
      assert Telling(ds[i], x, y, child);
      var rest :| Tells(ds[i], x, y, child, rest);
      ChildTells(ds[i], a, b, path, s, x, y, rest);
    }
  }

  lemma ChildTells(d: Difference, a: Json, b: Json, path: string, s: Step, x: Json, y: Json, rest: seq<Step>)
    requires DifferenceAt(a, b, [s] + rest) == DifferenceAt(x, y, rest)
    requires Tells(d, x, y, path + "/" + Segment(s), rest)
    ensures Tells(d, a, b, path, [s] + rest)
  {
    hide DifferenceAt, Segment;
    RenderSplits(s, rest);
    assert path + ("/" + Segment(s) + Render(rest)) == path + "/" + Segment(s) + Render(rest);
  }

  // A part that only one side has is one difference.
  lemma MissingIsReported(d: Difference, a: Json, b: Json, path: string, s: Step)
    requires d.path == path + "/" + Segment(s)
    requires DifferenceAt(a, b, [s]) == Some((d.original, d.replayed))
    requires forall rest | rest != [] :: DifferenceAt(a, b, [s] + rest).None?
    ensures ReportedBelow([d], a, b, path, s)
  {
    assert [s] + [] == [s];
    RenderSplits(s, []);
    assert "/" + Segment(s) + Render([]) == "/" + Segment(s);
    assert path + ("/" + Segment(s)) == path + "/" + Segment(s);
    assert Tells(d, a, b, path, [s]) && [s] + [] == [s];
    hide DifferenceAt;
    forall rest | DifferenceAt(a, b, [s] + rest).Some? ensures Told([d], a, b, path, [s] + rest) {
      assert rest == [];
      assert Tells([d][0], a, b, path, [s] + rest);
    }
    assert TellingBelow([d][0], a, b, path, s);
  }

  lemma NothingReported(a: Json, b: Json, path: string)
    ensures ReportedUpTo([], a, b, path, {})
  {
  }

  lemma TellingFromBelow(d: Difference, a: Json, b: Json, path: string, s: Step)
    requires TellingBelow(d, a, b, path, s)
    ensures Telling(d, a, b, path)
  {
    hide Tells;
    var rest :| Tells(d, a, b, path, [s] + rest);
  }

  // When every possible first step is done, everything is.
  lemma AllStepsDone(ds: seq<Difference>, a: Json, b: Json, path: string, done: set<Step>)
    requires ReportedUpTo(ds, a, b, path, done) && DifferenceAt(a, b, []).None?
    requires forall steps | DifferenceAt(a, b, steps).Some? :: steps != [] && steps[0] in done
    ensures Reported(ds, a, b, path)
  {
    hide DifferenceAt, Tells, Told, PathsDistinct;
    forall steps | DifferenceAt(a, b, steps).Some? ensures Told(ds, a, b, path, steps) {
      assert steps == [steps[0]] + steps[1..];
      assert steps[0] in done && DifferenceAt(a, b, [steps[0]] + steps[1..]).Some?;
    }
    forall i | 0 <= i < |ds| ensures Telling(ds[i], a, b, path) {
      var s :| s in done && TellingBelow(ds[i], a, b, path, s);
      TellingFromBelow(ds[i], a, b, path, s);
    }
  }

  // One step into two objects.
  lemma BelowMember(a: Json, b: Json, k: string)
    requires a.JObject? && b.JObject? && (k in a.members || k in b.members)
    ensures k in a.members && k in b.members ==> forall rest :: DifferenceAt(a, b, [AtKey(k)] + rest) == DifferenceAt(a.members[k], b.members[k], rest)
    ensures !(k in a.members && k in b.members) ==>
      && DifferenceAt(a, b, [AtKey(k)]) == Some((if k in a.members then Some(a.members[k]) else None, if k in b.members then Some(b.members[k]) else None))
      && forall rest | rest != [] :: DifferenceAt(a, b, [AtKey(k)] + rest).None?
  {
    assert forall rest :: ([AtKey(k)] + rest)[0] == AtKey(k) && ([AtKey(k)] + rest)[1..] == rest;
  }

  // One step into two arrays.
  lemma BelowItem(a: Json, b: Json, i: nat)
    requires a.JArray? && b.JArray? && (i < |a.items| || i < |b.items|)
    ensures i < |a.items| && i < |b.items| ==> forall rest :: DifferenceAt(a, b, [AtIndex(i)] + rest) == DifferenceAt(a.items[i], b.items[i], rest)
    ensures !(i < |a.items| && i < |b.items|) ==>
      && DifferenceAt(a, b, [AtIndex(i)]) == Some((if i < |a.items| then Some(a.items[i]) else None, if i < |b.items| then Some(b.items[i]) else None))
      && forall rest | rest != [] :: DifferenceAt(a, b, [AtIndex(i)] + rest).None?
  {
    assert forall rest :: ([AtIndex(i)] + rest)[0] == AtIndex(i) && ([AtIndex(i)] + rest)[1..] == rest;
  }

  lemma FirstStepIsInside(a: Json, b: Json, steps: seq<Step>)
    requires SameShape(a, b) && DifferenceAt(a, b, steps).Some?
    ensures steps != []
    ensures a.JObject? ==> steps[0].AtKey? && steps[0].key in a.members.Keys + b.members.Keys
    ensures a.JArray? ==> steps[0].AtIndex? && (steps[0].index < |a.items| || steps[0].index < |b.items|)
  {
  }

  method CollectDifferences(a: Json, b: Json, path: string) returns (ds: seq<Difference>)
    ensures Reported(ds, a, b, path)
    decreases a, 1
  {
    if a.JObject? && b.JObject? {
      ds := CollectMembers(a, b, path);
    } else if a.JArray? && b.JArray? {
      ds := CollectItems(a, b, path);
    } else {
      assert forall steps | steps != [] :: DifferenceAt(a, b, steps).None?;
      if !LooselyEqual(a, b) {
        ds := [Difference(Shown(path), Some(a), Some(b))];
        assert path + Render([]) == path;
        assert Tells(ds[0], a, b, path, []);
      } else {
        ds := [];
      }
    }
  }

  // Keys are taken in some order; the order decides only the order of the report.
  method CollectMembers(a: Json, b: Json, path: string) returns (ds: seq<Difference>)
    requires a.JObject? && b.JObject?
    ensures Reported(ds, a, b, path)
    decreases a, 0
  {
    hide DifferenceAt, ReportedUpTo, ReportedBelow, Reported, Escape;
    ds := [];
    var keys := a.members.Keys + b.members.Keys;
    ghost var done: set<Step> := {};
    NothingReported(a, b, path);
    while keys != {}
      invariant ReportedUpTo(ds, a, b, path, done)
      invariant keys <= a.members.Keys + b.members.Keys
      invariant forall s | s in done :: s.AtKey? && s.key !in keys
      invariant forall k | k in a.members.Keys + b.members.Keys :: k in keys || AtKey(k) in done
      decreases |keys|
    {
      var k :| k in keys;
      keys := keys - {k};
      BelowMember(a, b, k);
      var child := path + "/" + Escape(k);
      var more;
      if k !in a.members || k !in b.members {
        var missing := Difference(child, if k in a.members then Some(a.members[k]) else None, if k in b.members then Some(b.members[k]) else None);
        MissingIsReported(missing, a, b, path, AtKey(k));
        more := [missing];
      } else {
        more := CollectDifferences(a.members[k], b.members[k], child);
        ChildIsReported(more, a, b, path, AtKey(k), a.members[k], b.members[k]);
      }
      OneMoreStep(ds, more, a, b, path, done, AtKey(k));
      ds := ds + more;
      done := done + {AtKey(k)};
    }
    NoDifferenceAtTop(a, b);
    forall steps | DifferenceAt(a, b, steps).Some? ensures steps != [] && steps[0] in done {
      FirstStepIsInside(a, b, steps);
    }
    AllStepsDone(ds, a, b, path, done);
  }

  lemma NoDifferenceAtTop(a: Json, b: Json)
    requires SameShape(a, b)
    ensures DifferenceAt(a, b, []).None?
  {
  }

  method CollectItems(a: Json, b: Json, path: string) returns (ds: seq<Difference>)
    requires a.JArray? && b.JArray?
    ensures Reported(ds, a, b, path)
    decreases a, 0
  {
    hide DifferenceAt, ReportedUpTo, ReportedBelow, Reported, Digits;
    ds := [];
    var n := if |a.items| < |b.items| then |b.items| else |a.items|;
    ghost var done: set<Step> := {};
    NothingReported(a, b, path);
    for i := 0 to n
      invariant ReportedUpTo(ds, a, b, path, done)
      invariant forall s :: s in done <==> s.AtIndex? && s.index < i
    {
      BelowItem(a, b, i);
      var child := path + "/" + Digits(i);
      var more;
      if i >= |a.items| || i >= |b.items| {
        var missing := Difference(child, if i < |a.items| then Some(a.items[i]) else None, if i < |b.items| then Some(b.items[i]) else None);
        MissingIsReported(missing, a, b, path, AtIndex(i));
        more := [missing];
      } else {
        more := CollectDifferences(a.items[i], b.items[i], child);
        ChildIsReported(more, a, b, path, AtIndex(i), a.items[i], b.items[i]);
      }
      OneMoreStep(ds, more, a, b, path, done, AtIndex(i));
      ds := ds + more;
      done := done + {AtIndex(i)};
    }
    NoDifferenceAtTop(a, b);
    forall steps | DifferenceAt(a, b, steps).Some? ensures steps != [] && steps[0] in done {
      FirstStepIsInside(a, b, steps);
    }
    AllStepsDone(ds, a, b, path, done);
  }

  // The report is empty exactly when the two values are equal up to truth values and the numbers
  // zero and one; otherwise it lists every difference once, and no two under one path.
  method Compare(original: Json, replayed: Json) returns (ds: seq<Difference>)
    ensures ds == [] <==> LooselyEqual(original, replayed)
    ensures Reported(ds, original, replayed, "")
  {
    ds := CollectDifferences(original, replayed, "");
    if LooselyEqual(original, replayed) {
      forall steps ensures DifferenceAt(original, replayed, steps) == None {
        EqualHasNoDifference(original, replayed, steps);
      }
      assert ds != [] ==> Telling(ds[0], original, replayed, "");
    } else {
      ghost var steps := UnequalHasADifference(original, replayed);
      assert Told(ds, original, replayed, "", steps);
    }
  }

  // Equality up to truth values and numbers is weaker than equality.
  lemma TruthAndOneAreTakenForEqual()
    ensures LooselyEqual(JBool(true), JInt(1)) && JBool(true) != JInt(1)
  {
  }
}
