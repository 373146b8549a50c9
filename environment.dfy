/** Variable scopes: a frame holds a dictionary from names to values and
    the frame that encloses it, if any. Lookups and assignments walk
    outwards; definitions touch only the frame they are made in. The
    chain of dictionaries, innermost first, is what the pure functions
    below speak about. */
module Environments {
  import opened Wrappers
  import opened Tokens

  /** The dictionaries of a scope chain, innermost first. */
  type Chain = seq<map<string, Value>>

  /** Whether some frame of the chain holds the name. */
  predicate Bound(chain: Chain, name: string)
  {
    exists i :: 0 <= i < |chain| && name in chain[i]
  }

  /** The index of the innermost frame that holds the name. */
  function Innermost(chain: Chain, name: string): (i: nat)
    requires Bound(chain, name)
    ensures i < |chain| && name in chain[i]
    ensures forall j :: 0 <= j < i ==> name !in chain[j]
  {
    if name in chain[0] then 0
    else
      assert Bound(chain[1..], name) by {
        var i :| 0 <= i < |chain| && name in chain[i];
        assert chain[1..][i - 1] == chain[i];
      }
      1 + Innermost(chain[1..], name)
  }

  /** The innermost frame holding a name is the first one that does. */
  lemma InnermostIs(chain: Chain, name: string, i: nat)
    requires i < |chain| && name in chain[i]
    requires forall j :: 0 <= j < i ==> name !in chain[j]
    ensures Bound(chain, name) && Innermost(chain, name) == i
  {
    var k := Innermost(chain, name);
    assert !(k < i);
  }

  /** A name the innermost frame lacks is bound, found and assigned in
      the frames outside it. */
  lemma {:induction false} OuterFrames(chain: Chain, name: string, value: Value)
    requires |chain| > 0 && name !in chain[0]
    ensures Bound(chain, name) <==> Bound(chain[1..], name)
    ensures Bound(chain, name) ==> Innermost(chain, name) == 1 + Innermost(chain[1..], name)
    ensures Bound(chain, name) ==> AssignIn(chain, name, value) == [chain[0]] + AssignIn(chain[1..], name, value)
  {
    if Bound(chain[1..], name) {
      var i :| 0 <= i < |chain[1..]| && name in chain[1..][i];
      assert name in chain[i + 1];
    }
    if Bound(chain, name) {
      var i :| 0 <= i < |chain| && name in chain[i];
      assert chain[1..][i - 1] == chain[i];
    }
  }

  /** The same, for a chain written as its innermost frame and the rest. */
  lemma OuterFramesOf(frame: map<string, Value>, outer: Chain, name: string, value: Value)
    requires name !in frame
    ensures Bound([frame] + outer, name) <==> Bound(outer, name)
    ensures Bound(outer, name) ==> AssignIn([frame] + outer, name, value) == [frame] + AssignIn(outer, name, value)
  {
    assert ([frame] + outer)[1..] == outer;
    OuterFrames([frame] + outer, name, value);
  }

  /** A name the innermost frame holds is assigned there. */
  lemma AssignInFirst(frame: map<string, Value>, outer: Chain, name: string, value: Value)
    requires name in frame
    ensures Bound([frame] + outer, name)
    ensures AssignIn([frame] + outer, name, value) == [frame[name := value]] + outer
  {
    InnermostIs([frame] + outer, name, 0);
    assert ([frame] + outer)[0 := frame[name := value]] == [frame[name := value]] + outer;
  }

  /** What `get` finds: the binding of the innermost frame that holds the
      name, so inner bindings shadow outer ones. */
  function Find(chain: Chain, name: string): (r: Option<Value>)
    ensures r.Some? <==> Bound(chain, name)
    ensures r.Some? ==> r.value == chain[Innermost(chain, name)][name]
  {
    if |chain| == 0 then None
    else if name in chain[0] then Some(chain[0][name])
    else
      OuterFrames(chain, name, Nil);
      Find(chain[1..], name)
  }

  /** What `define` does: bind the name in the innermost frame, replacing
      any binding it had there. */
  function DefineIn(chain: Chain, name: string, value: Value): (r: Chain)
    requires |chain| > 0
    ensures |r| == |chain| && r[0].Keys == chain[0].Keys + {name} && r[0][name] == value
    ensures forall k :: k in chain[0] && k != name ==> r[0][k] == chain[0][k]
    ensures forall j :: 0 < j < |chain| ==> r[j] == chain[j]
  {
    [chain[0][name := value]] + chain[1..]
  }

  /** What a successful `assign` does: rebind the name in the innermost
      frame that holds it. */
  function AssignIn(chain: Chain, name: string, value: Value): (r: Chain)
    requires Bound(chain, name)
    ensures |r| == |chain| && forall j :: 0 <= j < |chain| ==> r[j].Keys == chain[j].Keys
    ensures r[Innermost(chain, name)][name] == value
    ensures forall k :: k in chain[Innermost(chain, name)] && k != name ==> r[Innermost(chain, name)][k] == chain[Innermost(chain, name)][k]
    ensures forall j :: 0 <= j < |chain| && j != Innermost(chain, name) ==> r[j] == chain[j]
  {
    var i := Innermost(chain, name);
    chain[i := chain[i][name := value]]
  }

  /** The error `get` and `assign` throw for a name no frame holds. */
  function UndefinedVariable(name: Token): RuntimeError
  {
    RuntimeError(name, "Undefined variable '" + name.lexeme + "'.")
  }

  /** After `define(n, v)`, `get(n)` finds `v`, and every other name finds
      what it found before. */
  lemma DefineThenFind(chain: Chain, name: string, value: Value, other: string)
    requires |chain| > 0
    ensures Find(DefineIn(chain, name, value), name) == Some(value)
    ensures other != name ==> Find(DefineIn(chain, name, value), other) == Find(chain, other)
  {
    var d := DefineIn(chain, name, value);
    InnermostIs(d, name, 0);
    if other != name && Bound(chain, other) {
      var i := Innermost(chain, other);
      InnermostIs(d, other, i);
    }
    if other != name && Bound(d, other) {
      var i := Innermost(d, other);
      InnermostIs(chain, other, i);
    }
  }

  /** `assign` never creates a binding, changes only the innermost frame
      that holds the name and only that name's entry there, and afterwards
      `get(n)` finds the assigned value. */
  lemma AssignThenFind(chain: Chain, name: string, value: Value, other: string)
    requires Bound(chain, name)
    ensures var a := AssignIn(chain, name, value);
      && |a| == |chain|
      && (forall j :: 0 <= j < |chain| ==> a[j].Keys == chain[j].Keys)
      && (forall j :: 0 <= j < |chain| && j != Innermost(chain, name) ==> a[j] == chain[j])
      && Find(a, name) == Some(value)
      && (other != name ==> Find(a, other) == Find(chain, other))
  {
    var a := AssignIn(chain, name, value);
    var i := Innermost(chain, name);
    InnermostIs(a, name, i);
    if other != name && Bound(chain, other) {
      var k := Innermost(chain, other);
      InnermostIs(a, other, k);
    }
    if other != name && Bound(a, other) {
      var k := Innermost(a, other);
      InnermostIs(chain, other, k);
    }
  }

  class Environment {
    const enclosing: Environment?
    var values: map<string, Value>
    /** This frame and every frame it encloses. */
    ghost const Repr: set<object>

    ghost predicate Valid()
      reads this, Repr
      decreases Repr
    {
      && this in Repr
      && (enclosing == null ==> Repr == {this})
      && (enclosing != null ==>
            && enclosing in Repr && enclosing.Repr <= Repr && this !in enclosing.Repr
            && Repr == {this} + enclosing.Repr
            && enclosing.Valid())
    }

    /** The dictionaries from this frame outwards. */
    ghost function Scopes(): (chain: Chain)
      reads this, Repr
      requires Valid()
      ensures |chain| > 0 && chain[0] == values
      decreases Repr
    {
      [values] + (if enclosing == null then [] else enclosing.Scopes())
    }

    /** The global frame. */
    constructor ()
      ensures Valid() && fresh(Repr) && enclosing == null
      ensures Scopes() == [map[]]
    {
      enclosing := null;
      values := map[];
      Repr := {this};
    }

    /** A frame inside `enclosing`. */
    constructor Nested(enclosing: Environment)
      requires enclosing.Valid()
      ensures Valid() && fresh(Repr - enclosing.Repr) && this.enclosing == enclosing
      ensures Scopes() == [map[]] + enclosing.Scopes()
    {
      this.enclosing := enclosing;
      values := map[];
      Repr := {this} + enclosing.Repr;
    }

    /** Binds the name in this frame, silently replacing a binding it had
        here. It never fails, and the enclosing frames are untouched. */
    method Define(name: string, value: Value)
      requires Valid()
      modifies this
      ensures Valid() && Scopes() == DefineIn(old(Scopes()), name, value)
    {
      values := values[name := value];
    }

    /** The value of the innermost binding of the name, or "Undefined
        variable" when no frame holds it. */
    method Get(name: Token) returns (r: Result<Value, RuntimeError>)
      requires Valid()
      ensures r.Ok? <==> Bound(Scopes(), name.lexeme)
      ensures r.Ok? ==> Some(r.value) == Find(Scopes(), name.lexeme)
      ensures r.Err? ==> r.error == UndefinedVariable(name)
      decreases Repr
    {
      if name.lexeme in values {
        return Ok(values[name.lexeme]);
      }

      if enclosing != null {
        r := enclosing.Get(name);
        OuterFrames(Scopes(), name.lexeme, Nil);
        return;
      }

      return Err(UndefinedVariable(name));
    }

    /** Rebinds the name in the innermost frame that holds it, or fails
        with "Undefined variable" and changes nothing when none does. */
    method Assign(name: Token, value: Value) returns (r: Outcome<RuntimeError>)
      requires Valid()
      modifies Repr
      ensures Valid()
      ensures r.Pass? <==> Bound(old(Scopes()), name.lexeme)
      ensures r.Pass? ==> Scopes() == AssignIn(old(Scopes()), name.lexeme, value)
      ensures r.Fail? ==> Scopes() == old(Scopes()) && r.error == UndefinedVariable(name)
      decreases Repr
    {
      ghost var outer := if enclosing == null then [] else enclosing.Scopes();
      if name.lexeme in values {
        AssignInFirst(values, outer, name.lexeme, value);
        values := values[name.lexeme := value];
        return Pass;
      }

      if enclosing != null {
        r := enclosing.Assign(name, value);
        OuterFramesOf(values, outer, name.lexeme, value);
        return;
      }

      return Fail(UndefinedVariable(name));
    }
  }
}
