/**
 * User-defined functions at run time. Calling one binds its parameters in
 * a fresh environment whose parent is the environment the function was
 * declared in, runs the body there, and turns a return signal into the
 * call's value.
 */
module LoxFunctions {
  import opened Types
  import opened Statements
  import opened Environments

  /**
   * How running a block ends: normally, with a return signal carrying a
   * value, or with a runtime error.
   */
  datatype Completion = Normal | Returned(value: Value) | Raised(error: RuntimeError)

  /** The argument for parameter `i`; a missing argument reads as `undefined`. */
  function ArgumentAt(args: seq<Value>, i: nat): Value {
    if i < |args| then args[i] else Undefined
  }

  /** The bindings after defining the parameters one by one, in declaration order. */
  function BindParams(params: seq<Token>, args: seq<Value>): Bindings
    decreases |params|
  {
    if params == [] then map[]
    else BindParams(params[..|params| - 1], args)[params[|params| - 1].lexeme := ArgumentAt(args, |params| - 1)]
  }

  /** The names of the parameters. */
  function ParamNames(params: seq<Token>): set<string> {
    set k | 0 <= k < |params| :: params[k].lexeme
  }

  /** The names of a parameter list are those of all but the last, and the last one's. */
  lemma ParamNamesSnoc(params: seq<Token>)
    requires params != []
    ensures ParamNames(params) == ParamNames(params[..|params| - 1]) + {params[|params| - 1].lexeme}
  {
    var n := |params| - 1;
    var init := params[..n];
    forall name | name in ParamNames(params) ensures name in ParamNames(init) + {params[n].lexeme} {
      var k :| 0 <= k < |params| && params[k].lexeme == name;
      if k < n {
        assert init[k] == params[k];
      }
    }
    forall name | name in ParamNames(init) ensures name in ParamNames(params) {
      var k :| 0 <= k < |init| && init[k].lexeme == name;
      assert params[k] == init[k];
    }
  }

  /** Defining the parameters binds exactly their names. */
  lemma {:induction false} BindParamsKeys(params: seq<Token>, args: seq<Value>)
    ensures BindParams(params, args).Keys == ParamNames(params)
    decreases |params|
  {
    if params != [] {
      BindParamsKeys(params[..|params| - 1], args);
      ParamNamesSnoc(params);
    }
  }

  /** A call binds at most as many names as the arity, fewer only when names repeat. */
  lemma {:induction false} BoundNamesAtMostArity(params: seq<Token>, args: seq<Value>)
    ensures |BindParams(params, args).Keys| <= |params|
    decreases |params|
  {
    if params != [] {
      BoundNamesAtMostArity(params[..|params| - 1], args);
    }
  }

  /**
   * Parameter `k` is bound to argument `k` unless a later parameter has the
   * same name: the later definition overwrites the earlier one.
   */
  lemma {:induction false} BindParamsLastWins(params: seq<Token>, args: seq<Value>, k: nat)
    requires k < |params|
    requires forall m :: k < m < |params| ==> params[m].lexeme != params[k].lexeme
    ensures params[k].lexeme in BindParams(params, args)
    ensures BindParams(params, args)[params[k].lexeme] == ArgumentAt(args, k)
    decreases |params|
  {
    var n := |params| - 1;
    if k < n {
      var init := params[..n];
      assert init[k] == params[k];
      forall m | k < m < |init| ensures init[m].lexeme != init[k].lexeme {
        assert init[m] == params[m];
      }
      BindParamsLastWins(init, args, k);
    }
  }

  /** With distinct parameter names, each parameter is bound to its own argument. */
  lemma DistinctParamsBindTheirArguments(params: seq<Token>, args: seq<Value>)
    requires forall i, j :: 0 <= i < j < |params| ==> params[i].lexeme != params[j].lexeme
    ensures forall k :: 0 <= k < |params| ==>
      params[k].lexeme in BindParams(params, args) && BindParams(params, args)[params[k].lexeme] == ArgumentAt(args, k)
  {
    forall k | 0 <= k < |params|
      ensures params[k].lexeme in BindParams(params, args) && BindParams(params, args)[params[k].lexeme] == ArgumentAt(args, k)
    {
      BindParamsLastWins(params, args, k);
    }
  }

  /** The value or error a call produces from the way its body ended. */
  function CallResult(c: Completion): (r: Result<Value>)
    ensures r.Err? <==> c.Raised?
    ensures c.Raised? ==> r.error == c.error
    ensures c.Returned? ==> r == Ok(c.value)
    ensures c.Normal? ==> r == Ok(Nil)
  {
    match c
    case Normal => Ok(Nil)
    case Returned(v) => Ok(v)
    case Raised(e) => Err(e)
  }

  class LoxFunction {
    const declaration: FunctionDecl
    const closure: Environment

    constructor(declaration: FunctionDecl, closure: Environment)
      ensures this.declaration == declaration && this.closure == closure
    {
      this.declaration := declaration;
      this.closure := closure;
    }

    /** The number of declared parameters. */
    function Arity(): (n: nat)
      ensures n == |declaration.params|
    {
      |declaration.params|
    }

    function ToString(): (s: string)
      ensures s == "<fn " + declaration.name.lexeme + ">"
    {
      "<fn " + declaration.name.lexeme + ">"
    }

    /**
     * Runs the body through `executeBlock` in a fresh environment whose
     * parent is the closure, after binding parameter `i` to argument `i`.
     * Also returns that environment, so that callers can see where the body ran.
     */
    method Call(args: seq<Value>, executeBlock: (seq<Stmt>, Environment) -> Completion)
      returns (r: Result<Value>, environment: Environment)
      requires closure.Valid()
      ensures fresh(environment) && environment.Valid() && environment.enclosing == closure
      ensures environment.values == BindParams(declaration.params, args)
      ensures r == CallResult(executeBlock(declaration.body, environment))
    {
      environment := new Environment(closure);
      var params := declaration.params;
      var i := 0;
      while i < |params|
        invariant 0 <= i <= |params|
        invariant fresh(environment) && environment.Valid() && environment.enclosing == closure
        invariant environment.values == BindParams(params[..i], args)
      {
        environment.Define(params[i].lexeme, ArgumentAt(args, i));
        assert params[..i + 1][..i] == params[..i];
        i := i + 1;
      }
      assert params[..|params|] == params;
      r := CallResult(executeBlock(declaration.body, environment));
    }
  }
}
