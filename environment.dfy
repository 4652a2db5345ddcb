/**
 * Runtime scopes: each environment holds its own bindings and a fixed link
 * to the enclosing environment. Lookup by name walks the chain outward;
 * lookup by distance jumps straight to the scope the resolver computed.
 */
module Environments {
  import opened Types

  /** The bindings of one scope. */
  type Bindings = map<string, Value>

  /**
   * The index of the first scope (innermost first) that binds `name`.
   */
  function FindScope(scopes: seq<Bindings>, name: string): (r: Option<nat>)
    ensures r.Some? ==> r.value < |scopes| && name in scopes[r.value]
    ensures r.Some? ==> forall k :: 0 <= k < r.value ==> name !in scopes[k]
    ensures r.None? <==> forall k :: 0 <= k < |scopes| ==> name !in scopes[k]
  {
    if scopes == [] then None
    else if name in scopes[0] then Some(0)
    else
      match FindScope(scopes[1..], name)
      case None => None
      case Some(i) => Some(i + 1)
  }

  /** What `get` yields on a chain with these scopes. */
  function GetSpec(scopes: seq<Bindings>, name: Token): Result<Value> {
    match FindScope(scopes, name.lexeme)
    case None => Err(RuntimeError(name, "Undefined variable " + name.lexeme + "."))
    case Some(i) => Ok(scopes[i][name.lexeme])
  }

  /** The scopes after `assign`, or the error it raises. */
  function AssignSpec(scopes: seq<Bindings>, name: Token, value: Value): Result<seq<Bindings>> {
    match FindScope(scopes, name.lexeme)
    case None => Err(RuntimeError(name, "Undefined variable \"" + name.lexeme + "\"."))
    case Some(i) => Ok(scopes[i := scopes[i][name.lexeme := value]])
  }

  /** The index `ancestor(distance)` reaches on a chain of `n` scopes: it stops at the root. */
  function AncestorIndex(n: nat, distance: nat): nat
    requires n > 0
  {
    if distance < n then distance else n - 1
  }

  /** What `getAt` yields: the ancestor's own entry, `undefined` when absent. */
  function GetAtSpec(scopes: seq<Bindings>, distance: nat, name: string): Value
    requires |scopes| > 0
  {
    var a := AncestorIndex(|scopes|, distance);
    if name in scopes[a] then scopes[a][name] else Undefined
  }

  /** The scopes after `assignAt`: the ancestor's entry is created or overwritten. */
  function AssignAtSpec(scopes: seq<Bindings>, distance: nat, name: string, value: Value): seq<Bindings>
    requires |scopes| > 0
  {
    var a := AncestorIndex(|scopes|, distance);
    scopes[a := scopes[a][name := value]]
  }

  /**
   * When `name` is bound in scope `d` and in no closer scope, the
   * distance-addressed read and write agree with the search by name.
   */
  lemma DistanceAgreesWithSearch(scopes: seq<Bindings>, d: nat, name: Token, value: Value)
    requires d < |scopes| && name.lexeme in scopes[d]
    requires forall k :: 0 <= k < d ==> name.lexeme !in scopes[k]
    ensures GetSpec(scopes, name) == Ok(GetAtSpec(scopes, d, name.lexeme))
    ensures AssignSpec(scopes, name, value) == Ok(AssignAtSpec(scopes, d, name.lexeme, value))
  {
    var r := FindScope(scopes, name.lexeme);
  }

  /** Searching past a scope that does not bind the name is searching the rest of the chain. */
  lemma SearchSkipsUnboundScope(head: Bindings, tail: seq<Bindings>, name: Token, value: Value)
    requires name.lexeme !in head
    ensures GetSpec([head] + tail, name) == GetSpec(tail, name)
    ensures AssignSpec(tail, name, value).Ok? ==>
      AssignSpec([head] + tail, name, value) == Ok([head] + AssignSpec(tail, name, value).value)
    ensures AssignSpec(tail, name, value).Err? ==>
      AssignSpec([head] + tail, name, value) == AssignSpec(tail, name, value)
  {
    var t := [head] + tail;
    assert t[1..] == tail;
    match FindScope(tail, name.lexeme)
    case None =>
    case Some(i) =>
      assert t[i + 1 := t[i + 1][name.lexeme := value]] == [head] + tail[i := tail[i][name.lexeme := value]];
  }

  /** After a successful `assign`, `get` of the same name yields the new value. */
  lemma GetAfterAssign(scopes: seq<Bindings>, name: Token, value: Value)
    requires AssignSpec(scopes, name, value).Ok?
    ensures GetSpec(AssignSpec(scopes, name, value).value, name) == Ok(value)
  {
    var i := FindScope(scopes, name.lexeme).value;
    var s := AssignSpec(scopes, name, value).value;
    DistanceAgreesWithSearch(s, i, name, value);
  }

  /** A successful `assign` leaves every other name's lookup as it was. */
  lemma GetOtherAfterAssign(scopes: seq<Bindings>, name: Token, value: Value, other: Token)
    requires AssignSpec(scopes, name, value).Ok?
    requires other.lexeme != name.lexeme
    ensures GetSpec(AssignSpec(scopes, name, value).value, other) == GetSpec(scopes, other)
  {
    var i := FindScope(scopes, name.lexeme).value;
    var s := AssignSpec(scopes, name, value).value;
    assert forall k :: 0 <= k < |s| ==> s[k].Keys == scopes[k].Keys;
    var j := FindScope(scopes, other.lexeme);
    if j.Some? {
      DistanceAgreesWithSearch(s, j.value, other, value);
      DistanceAgreesWithSearch(scopes, j.value, other, value);
    } else {
      assert FindScope(s, other.lexeme).None?;
    }
  }

  /** `define` in the innermost scope shadows every outer binding of the name. */
  lemma GetAfterDefine(scopes: seq<Bindings>, name: Token, value: Value)
    requires |scopes| > 0
    ensures GetSpec(scopes[0 := scopes[0][name.lexeme := value]], name) == Ok(value)
  {
  }

  class Environment {
    var values: Bindings
    const enclosing: Environment?
    /** This environment followed by its enclosing chain, outward to the root. */
    ghost const Chain: seq<Environment>

    ghost predicate Valid()
      decreases |Chain|
    {
      0 < |Chain| && Chain[0] == this &&
      (enclosing == null ==> |Chain| == 1) &&
      (enclosing != null ==>
        Chain[1..] == enclosing.Chain && this !in enclosing.Chain && enclosing.Valid())
    }

    /** The bindings of each scope on the chain, innermost first. */
    ghost function Scopes(): (r: seq<Bindings>)
      requires Valid()
      reads Chain
      ensures |r| == |Chain| && r[0] == values
    {
      seq(|Chain|, k reads Chain requires 0 <= k < |Chain| => Chain[k].values)
    }

    constructor(enclosing: Environment?)
      requires enclosing != null ==> enclosing.Valid()
      ensures Valid() && this.enclosing == enclosing && values == map[]
      ensures Chain == [this] + (if enclosing == null then [] else enclosing.Chain)
    {
      this.enclosing := enclosing;
      values := map[];
      Chain := [this] + (if enclosing == null then [] else enclosing.Chain);
    }

    /** Every environment on a valid chain is valid and its own chain is the tail; they are distinct. */
    lemma {:induction false} ChainShape()
      requires Valid()
      ensures forall k :: 0 <= k < |Chain| ==> Chain[k].Valid() && Chain[k].Chain == Chain[k..]
      ensures forall i, j :: 0 <= i < j < |Chain| ==> Chain[i] != Chain[j]
      decreases |Chain|
    {
      if enclosing != null {
        enclosing.ChainShape();
        forall k | 1 <= k < |Chain|
          ensures Chain[k].Valid() && Chain[k].Chain == Chain[k..]
        {
          assert Chain[k] == enclosing.Chain[k - 1];
        }
        forall i, j | 0 <= i < j < |Chain| ensures Chain[i] != Chain[j] {
          if i == 0 {
            assert Chain[j] == enclosing.Chain[j - 1];
          } else {
            assert Chain[i] == enclosing.Chain[i - 1] && Chain[j] == enclosing.Chain[j - 1];
          }
        }
      }
    }

    /** The chain's scopes are this scope's bindings followed by the enclosing chain's. */
    lemma ScopesUnfold()
      requires Valid() && enclosing != null
      ensures Scopes() == [values] + enclosing.Scopes()
    {
      assert forall k :: 1 <= k < |Chain| ==> Chain[k] == enclosing.Chain[k - 1];
    }

    method Define(name: string, value: Value)
      requires Valid()
      modifies this
      ensures values == old(values)[name := value]
      ensures Scopes() == old(Scopes())[0 := old(values)[name := value]]
    {
      ChainShape();
      values := values[name := value];
    }

    method Get(name: Token) returns (r: Result<Value>)
      requires Valid()
      ensures r == GetSpec(Scopes(), name)
      decreases |Chain|
    {
      if name.lexeme in values {
        return Ok(values[name.lexeme]);
      }
      if enclosing != null {
        ScopesUnfold();
        SearchSkipsUnboundScope(values, enclosing.Scopes(), name, Nil);
        r := enclosing.Get(name);
        return;
      }
      return Err(RuntimeError(name, "Undefined variable " + name.lexeme + "."));
    }

    /** Returns the error `assign` throws, if any. */
    method Assign(name: Token, value: Value) returns (error: Option<RuntimeError>)
      requires Valid()
      modifies Chain
      ensures AssignSpec(old(Scopes()), name, value).Ok? ==>
        error.None? && Scopes() == AssignSpec(old(Scopes()), name, value).value
      ensures AssignSpec(old(Scopes()), name, value).Err? ==>
        error == Some(AssignSpec(old(Scopes()), name, value).error) && Scopes() == old(Scopes())
      decreases |Chain|
    {
      ChainShape();
      if name.lexeme in values {
        values := values[name.lexeme := value];
        return None;
      }
      if enclosing != null {
        ScopesUnfold();
        ghost var rest := enclosing.Scopes();
        SearchSkipsUnboundScope(values, rest, name, value);
        error := enclosing.Assign(name, value);
        assert values == old(values);
        ScopesUnfold();
        return;
      }
      return Some(RuntimeError(name, "Undefined variable \"" + name.lexeme + "\"."));
    }

    /** Follows `distance` enclosing links, stopping at the root. */
    method Ancestor(distance: nat) returns (env: Environment)
      requires Valid()
      ensures env == Chain[AncestorIndex(|Chain|, distance)]
    {
      ChainShape();
      env := this;
      var i := 0;
      while i < distance
        invariant i <= distance
        invariant env == Chain[AncestorIndex(|Chain|, i)]
      {
        var a := AncestorIndex(|Chain|, i);
        assert env.Valid() && env.Chain == Chain[a..];
        if env.enclosing != null {
          assert env.enclosing.Valid() && env.Chain[1..] == env.enclosing.Chain;
          assert env.enclosing.Chain[0] == env.enclosing;
          assert env.Chain[1] == env.enclosing;
          env := env.enclosing;
        }
        i := i + 1;
      }
    }

    method GetAt(distance: nat, name: string) returns (v: Value)
      requires Valid()
      ensures v == GetAtSpec(Scopes(), distance, name)
    {
      var env := Ancestor(distance);
      v := if name in env.values then env.values[name] else Undefined;
    }

    method AssignAt(distance: nat, name: Token, value: Value)
      requires Valid()
      modifies Chain
      ensures Scopes() == AssignAtSpec(old(Scopes()), distance, name.lexeme, value)
    {
      ChainShape();
      var env := Ancestor(distance);
      env.values := env.values[name.lexeme := value];
    }
  }
}
