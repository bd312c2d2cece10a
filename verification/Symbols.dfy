// The compiler's symbol table: a stack of scopes without shadowing, and numbered symbols.

module Symbols {
  import opened Wrappers
  import opened Core
  import opened Ir

  datatype Namespace = VALUE | CHECKS | APPROVALS

  datatype Binding = Binding(id: SymbolId, name: string, namespace: Namespace, ty: Type, cls: Classification)

  datatype Frame = Frame(scope: nat, names: map<string, Binding>)

  // Frames outermost first; symbols are numbered in order of declaration.
  datatype Table = Table(scopeCounter: nat, symbolCounter: nat, frames: seq<Frame>, bindings: seq<Binding>)

  const ROOT_TABLE := Table(1, 0, [Frame(1, map[])], [])

  predicate Visible(frames: seq<Frame>, name: string) {
    exists i :: 0 <= i < |frames| && name in frames[i].names
  }

  function Find(frames: seq<Frame>, name: string): (r: Option<Binding>)
    ensures r.Some? <==> Visible(frames, name)
    ensures r.Some? ==> exists i :: 0 <= i < |frames| && name in frames[i].names && frames[i].names[name] == r.value
  {
    if frames == [] then None
    else
      var n := |frames| - 1;
      if name in frames[n].names then Some(frames[n].names[name])
      else
        var r := Find(frames[..n], name);
        assert Visible(frames, name) ==> Visible(frames[..n], name) by {
          if Visible(frames, name) {
            var i :| 0 <= i < |frames| && name in frames[i].names;
            assert name in frames[..n][i].names;
          }
        }
        assert r.Some? ==> exists i :: 0 <= i < |frames| && name in frames[i].names && frames[i].names[name] == r.value by {
          if r.Some? {
            var i :| 0 <= i < n && name in frames[..n][i].names && frames[..n][i].names[name] == r.value;
            assert frames[i].names[name] == r.value;
          }
        }
        r
  }

  function Enter(t: Table): Table {
    t.(scopeCounter := t.scopeCounter + 1, frames := t.frames + [Frame(t.scopeCounter + 1, map[])])
  }

  function Leave(t: Table): Table
    requires |t.frames| > 1
  {
    t.(frames := t.frames[..|t.frames| - 1])
  }

  function NextBinding(t: Table, name: string, namespace: Namespace, ty: Type, cls: Classification): Binding {
    Binding(t.symbolCounter + 1, name, namespace, ty, cls)
  }

  // The table after a legal declaration.
  function Declared(t: Table, name: string, namespace: Namespace, ty: Type, cls: Classification): Table
    requires t.frames != []
  {
    var binding := NextBinding(t, name, namespace, ty, cls);
    var n := |t.frames| - 1;
    t.(symbolCounter := t.symbolCounter + 1,
       frames := t.frames[n := t.frames[n].(names := t.frames[n].names[name := binding])],
       bindings := t.bindings + [binding])
  }

  // ---------- invariants of every table a compiler can reach ----------

  predicate InFrame(t: Table, i: int, name: string) {
    0 <= i < |t.frames| && name in t.frames[i].names
  }

  // No name is visible twice, and a symbol's number is its position among all declarations, so
  // numbers are unique and already issued.
  ghost predicate Unambiguous(t: Table) {
    && t.frames != []
    && |t.bindings| == t.symbolCounter
    && (forall i, j, name :: InFrame(t, i, name) && InFrame(t, j, name) ==> i == j)
    && (forall i, name :: InFrame(t, i, name) ==> Issued(t, name, t.frames[i].names[name]))
  }

  predicate Issued(t: Table, name: string, b: Binding) {
    b.name == name && 1 <= b.id <= |t.bindings| && t.bindings[b.id - 1] == b
  }

  lemma {:induction false} DeclaringStaysUnambiguous(t: Table, name: string, namespace: Namespace, ty: Type, cls: Classification)
    requires Unambiguous(t) && !Visible(t.frames, name)
    ensures Unambiguous(Declared(t, name, namespace, ty, cls))
  {
    var d := Declared(t, name, namespace, ty, cls);
    var n := |t.frames| - 1;
    forall i, other | InFrame(d, i, other)
      ensures if i == n && other == name then d.frames[i].names[other] == NextBinding(t, name, namespace, ty, cls)
              else InFrame(t, i, other) && d.frames[i].names[other] == t.frames[i].names[other]
    {
    }
    forall i ensures !InFrame(t, i, name) {
    }
  }

  lemma {:induction false} EnteringStaysUnambiguous(t: Table)
    requires Unambiguous(t)
    ensures Unambiguous(Enter(t)) && Leave(Enter(t)).frames == t.frames
  {
    forall i, name | InFrame(Enter(t), i, name) ensures InFrame(t, i, name) {
    }
  }

  // Without shadowing, the innermost-first search finds the one visible binding of a name.
  lemma {:induction false} FindIsTheOnlyBinding(t: Table, i: nat, name: string)
    requires Unambiguous(t) && i < |t.frames| && name in t.frames[i].names
    ensures Find(t.frames, name) == Some(t.frames[i].names[name])
  {
    hide Find;
    assert Visible(t.frames, name);
    var r := Find(t.frames, name);
    var j :| 0 <= j < |t.frames| && name in t.frames[j].names && t.frames[j].names[name] == r.value;
    assert InFrame(t, i, name) && InFrame(t, j, name);
  }

  class SymbolTable {
    var scopeCounter: nat
    var symbolCounter: nat
    var frames: seq<Frame>
    var bindings: seq<Binding>

    constructor ()
      ensures Contents() == ROOT_TABLE
    {
      scopeCounter, symbolCounter, frames, bindings := 1, 0, [Frame(1, map[])], [];
    }

    function Contents(): Table
      reads this
    {
      Table(scopeCounter, symbolCounter, frames, bindings)
    }

    method EnterScope() returns (scope: nat)
      modifies this
      ensures Contents() == Enter(old(Contents()))
      ensures scope == frames[|frames| - 1].scope
    {
      scopeCounter := scopeCounter + 1;
      scope := scopeCounter;
      frames := frames + [Frame(scope, map[])];
    }

    // Scopes are left in stack order, and the root scope never.
    method LeaveScope(scope: nat) returns (ok: bool)
      requires frames != []
      modifies this
      ensures ok <==> old(|frames| > 1 && frames[|frames| - 1].scope == scope)
      ensures ok ==> Contents() == Leave(old(Contents()))
      ensures !ok ==> Contents() == old(Contents())
    {
      ok := |frames| > 1 && frames[|frames| - 1].scope == scope;
      if ok {
        frames := frames[..|frames| - 1];
      }
    }

    method Declare(name: string, namespace: Namespace, ty: Type, cls: Classification) returns (r: Option<Binding>)
      requires frames != []
      modifies this
      ensures r.Some? <==> old(!Visible(frames, name))
      ensures r.Some? ==> r.value == NextBinding(old(Contents()), name, namespace, ty, cls)
      ensures r.Some? ==> Contents() == Declared(old(Contents()), name, namespace, ty, cls)
      ensures r.None? ==> Contents() == old(Contents())
    {
      for i := 0 to |frames|
        invariant unchanged(this)
        invariant forall j | 0 <= j < i :: name !in frames[j].names
      {
        if name in frames[i].names {
          return None;
        }
      }
      symbolCounter := symbolCounter + 1;
      var binding := Binding(symbolCounter, name, namespace, ty, cls);
      var n := |frames| - 1;
      frames := frames[n := frames[n].(names := frames[n].names[name := binding])];
      bindings := bindings + [binding];
      return Some(binding);
    }

    method Lookup(name: string) returns (r: Option<Binding>)
      ensures r == Find(frames, name)
    {
      var i := |frames|;
      assert frames[..i] == frames;
      while i > 0
        invariant 0 <= i <= |frames|
        invariant Find(frames, name) == Find(frames[..i], name)
      {
        i := i - 1;
        assert frames[..i + 1][..i] == frames[..i];
        if name in frames[i].names {
          return Some(frames[i].names[name]);
        }
      }
      return None;
    }
  }
}
