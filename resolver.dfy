/**
 * The static resolver. It walks the syntax tree with a stack of scopes,
 * each mapping a declared name to whether its initializer has finished,
 * records for every variable, assignment, `this` and `super` node how many
 * scopes separate it from its declaration, and reports misuse.
 */
module Resolution {
  import opened Types
  import opened Expressions
  import opened Statements
  import Environments

  /** One lexical scope: each declared name maps to "defined yet?". */
  type Scope = map<string, bool>

  /** A report as the resolver emits it: line, location text and message. */
  datatype Diagnostic = Diagnostic(line: Option<nat>, location: string, message: string)

  const RedeclaredMessage := "A variable with this name in current scope already exists."
  const OwnInitializerMessage := "Can't read local variable in its own initializer."
  const TopLevelReturnMessage := "Can't return from top-level code."
  const InitializerReturnMessage := "Can't return a value from an initializer."
  const SelfInheritMessage := "A class can't inherit from itself."
  const ThisOutsideClassMessage := "can't use 'this' outside of a class."
  const SuperOutsideClassMessage := "Can't use \"super\" outside of a class."
  const SuperWithoutSuperclassMessage := "Can't use \"super\" in a class with no subclasses."

  /** The report `error(token, message)` makes. */
  function ErrorAt(token: Token, message: string): Diagnostic {
    Diagnostic(token.line, " at '" + token.lexeme + "'", message)
  }

  /** The innermost scope; the stack is kept outermost first. */
  function Top(scopes: seq<Scope>): Scope
    requires |scopes| > 0
  {
    scopes[|scopes| - 1]
  }

  /** The highest (innermost) index of a scope that declares `name`. */
  function Innermost(scopes: seq<Scope>, name: string): (r: Option<nat>)
    ensures r.Some? ==> r.value < |scopes| && name in scopes[r.value]
    ensures r.Some? ==> forall k :: r.value < k < |scopes| ==> name !in scopes[k]
    ensures r.None? <==> forall k :: 0 <= k < |scopes| ==> name !in scopes[k]
  {
    if scopes == [] then None
    else if name in scopes[|scopes| - 1] then Some(|scopes| - 1)
    else Innermost(scopes[..|scopes| - 1], name)
  }

  /** The number of scope hops from the innermost scope to the declaration of `name`. */
  function Distance(scopes: seq<Scope>, name: string): Option<nat> {
    match Innermost(scopes, name)
    case None => None
    case Some(i) => Some(|scopes| - 1 - i)
  }

  /** The name a node is resolved under: variables and assignments by name, `this`/`super` by keyword. */
  function ReferenceName(e: Expr): Option<string> {
    match e
    case Variable(_, name) => Some(name.lexeme)
    case Assign(_, name, _) => Some(name.lexeme)
    case This(_, keyword) => Some(keyword.lexeme)
    case Super(_, keyword, _) => Some(keyword.lexeme)
    case _ => None
  }

  /** Nodes without sub-expressions. */
  predicate IsLeaf(e: Expr) {
    e.Literal? || e.Variable? || e.This? || e.Super?
  }

  /** The scope stack with the innermost scope's entries for `names` set to defined. */
  function ScopesAfter(scopes: seq<Scope>, names: set<string>): seq<Scope> {
    if scopes == [] then []
    else scopes[|scopes| - 1 := DefineAll(Top(scopes), names)]
  }

  function DefineAll(scope: Scope, names: set<string>): Scope {
    map n | n in scope.Keys + names :: if n in names then true else scope[n]
  }

  /** The scope stack after `delcare(name)`: the name is entered as not yet defined. */
  function ScopesDeclare(scopes: seq<Scope>, name: Token): seq<Scope> {
    if scopes == [] then []
    else scopes[|scopes| - 1 := Top(scopes)[name.lexeme := false]]
  }

  /** The report `delcare(name)` makes. */
  function DeclareErrors(scopes: seq<Scope>, name: Token): seq<Diagnostic> {
    if |scopes| > 0 && name.lexeme in Top(scopes) then [ErrorAt(name, RedeclaredMessage)] else []
  }

  /** The reports an expression node makes itself, before those of its sub-expressions. */
  function ExprOwnErrors(e: Expr, scopes: seq<Scope>, currentClass: ClassType): seq<Diagnostic> {
    match e
    case Variable(_, name) =>
      if |scopes| > 0 && name.lexeme in Top(scopes) && !Top(scopes)[name.lexeme]
      then [ErrorAt(name, OwnInitializerMessage)] else []
    case This(_, keyword) =>
      if currentClass == ClassType.NONE then [ErrorAt(keyword, ThisOutsideClassMessage)] else []
    case Super(_, keyword, _) =>
      (if currentClass == ClassType.NONE then [ErrorAt(keyword, SuperOutsideClassMessage)] else [])
      + (if currentClass == ClassType.CLASS then [ErrorAt(keyword, SuperWithoutSuperclassMessage)] else [])
    case _ => []
  }

  /** The reports a statement makes itself, before those of its parts. */
  function StmtOwnErrors(s: Stmt, scopes: seq<Scope>, currentFunction: FunctionType): seq<Diagnostic> {
    match s
    case Var(name, _) => DeclareErrors(scopes, name)
    case Function(d) => DeclareErrors(scopes, d.name)
    case Return(keyword, value) =>
      (if currentFunction == FunctionType.NONE then [ErrorAt(keyword, TopLevelReturnMessage)] else [])
      + (if value.Some? && currentFunction == FunctionType.INITIALIZER
         then [ErrorAt(keyword, InitializerReturnMessage)] else [])
    case Class(name, superclass, _) =>
      DeclareErrors(scopes, name)
      + (if superclass.Some? && name.lexeme == superclass.value.name.lexeme
         then [ErrorAt(superclass.value.name, SelfInheritMessage)] else [])
    case _ => []
  }

  /** The scope holding a function's parameters, each defined. */
  function ParamScope(params: seq<Token>): Scope {
    if params == [] then map[]
    else ParamScope(params[..|params| - 1])[params[|params| - 1].lexeme := true]
  }

  /** The redeclaration reports for the parameters that repeat an earlier one. */
  function ParamErrors(params: seq<Token>): seq<Diagnostic> {
    if params == [] then []
    else
      var init := params[..|params| - 1];
      var last := params[|params| - 1];
      ParamErrors(init) + (if last.lexeme in ParamScope(init) then [ErrorAt(last, RedeclaredMessage)] else [])
  }

  /** The kind a method is resolved as. */
  function MethodKind(m: FunctionDecl): FunctionType {
    if m.name.lexeme == "init" then FunctionType.INITIALIZER else FunctionType.METHOD
  }

  /** The scope stack a class's methods are resolved in: an optional `super` scope, then a `this` scope. */
  function ClassBodyScopes(scopes: seq<Scope>, hasSuperclass: bool): seq<Scope> {
    scopes + (if hasSuperclass then [map["super" := true]] else []) + [map["this" := true]]
  }

  /** The ids of a class statement's superclass node, if any. */
  function SuperclassIds(s: Stmt): set<nat>
    requires s.Class?
  {
    if s.superclass.Some? then Ids(s.superclass.value) else {}
  }

  /**
   * The side table only gains entries, and only entries for `ids` are added
   * or changed.
   */
  predicate LocalsWithin(before: map<nat, nat>, after: map<nat, nat>, ids: set<nat>) {
    before.Keys <= after.Keys && after.Keys <= before.Keys + ids
    && forall id :: id in before && id !in ids ==> after[id] == before[id]
  }

  /** Adding one parameter extends the parameter scope by it, defined, and reports it if it repeats an earlier one. */
  lemma ParamStep(params: seq<Token>, k: nat)
    requires k < |params|
    ensures ParamScope(params[..k])[params[k].lexeme := false][params[k].lexeme := true] == ParamScope(params[..k + 1])
    ensures ParamErrors(params[..k + 1]) == ParamErrors(params[..k])
      + (if params[k].lexeme in ParamScope(params[..k]) then [ErrorAt(params[k], RedeclaredMessage)] else [])
  {
    assert params[..k + 1][..k] == params[..k];
  }

  /** Declaring and then defining a name on a stack `below + [top]` only changes `top`. */
  lemma DeclareInTop(below: seq<Scope>, top: Scope, name: Token)
    ensures ScopesDeclare(below + [top], name) == below + [top[name.lexeme := false]]
    ensures DeclareErrors(below + [top], name) == if name.lexeme in top then [ErrorAt(name, RedeclaredMessage)] else []
    ensures var d := below + [top[name.lexeme := false]];
      d[|d| - 1 := Top(d)[name.lexeme := true]] == below + [top[name.lexeme := false][name.lexeme := true]]
  {
  }


  /*
   * The resolver's semantics as functions on its state. Each function gives
   * the state after one visitor of `Resolver` in `app/resolver.ts` has run,
   * in the order that visitor runs its steps; the methods of the class below
   * are proved to reach exactly these states.
   */

  /** The resolver's whole state: scope stack, function and class kinds, the side table and the reports. */
  datatype State = State(scopes: seq<Scope>, functionType: FunctionType, classType: ClassType,
                         locals: map<nat, nat>, errors: seq<Diagnostic>)

  /** `beginScope`: pushes an empty scope. */
  function AfterBeginScope(st: State): State {
    st.(scopes := st.scopes + [map[]])
  }

  /** `endScope`: pops the innermost scope; popping an empty stack does nothing. */
  function AfterEndScope(st: State): State {
    if st.scopes == [] then st else st.(scopes := st.scopes[..|st.scopes| - 1])
  }

  /** `delcare(name)`: enters the name as not yet defined, reporting a redeclaration. */
  function AfterDeclare(st: State, name: Token): State {
    st.(scopes := ScopesDeclare(st.scopes, name), errors := st.errors + DeclareErrors(st.scopes, name))
  }

  /** `define(name)`, and `peek().set(name, true)`: marks the name defined in the innermost scope. */
  function AfterDefine(st: State, name: string): State {
    if st.scopes == [] then st
    else st.(scopes := st.scopes[|st.scopes| - 1 := Top(st.scopes)[name := true]])
  }

  function AfterReports(st: State, reports: seq<Diagnostic>): State {
    st.(errors := st.errors + reports)
  }

  /** `resolveLocal`: records the distance of the innermost scope declaring `name`, if one does. */
  function AfterResolveLocal(st: State, id: nat, name: string): State {
    match Distance(st.scopes, name)
    case None => st
    case Some(d) => st.(locals := st.locals[id := d])
  }

  /** Resolving an expression: sub-expressions left to right, then the node's own checks and its distance. */
  function ResolvedExpr(e: Expr, st: State): State
    decreases e
  {
    match e
    case Literal(_, _) => st
    case Unary(_, _, right) => ResolvedExpr(right, st)
    case Binary(_, left, _, right) => ResolvedExpr(right, ResolvedExpr(left, st))
    case Grouping(_, inner) => ResolvedExpr(inner, st)
    case Variable(id, name) =>
      AfterResolveLocal(AfterReports(st, ExprOwnErrors(e, st.scopes, st.classType)), id, name.lexeme)
    case Assign(id, name, value) => AfterResolveLocal(ResolvedExpr(value, st), id, name.lexeme)
    case Logical(_, left, _, right) => ResolvedExpr(right, ResolvedExpr(left, st))
    case Call(_, callee, _, args) => ResolvedExprs(args, ResolvedExpr(callee, st))
    case Get(_, obj, _) => ResolvedExpr(obj, st)
    case Set(_, obj, _, value) => ResolvedExpr(obj, ResolvedExpr(value, st))
    case This(id, keyword) =>
      AfterResolveLocal(AfterReports(st, ExprOwnErrors(e, st.scopes, st.classType)), id, keyword.lexeme)
    case Super(id, keyword, _) =>
      AfterResolveLocal(AfterReports(st, ExprOwnErrors(e, st.scopes, st.classType)), id, keyword.lexeme)
  }

  /** Resolving a list of expressions in order. */
  function ResolvedExprs(es: seq<Expr>, st: State): State
    decreases es
  {
    if es == [] then st else ResolvedExpr(es[|es| - 1], ResolvedExprs(es[..|es| - 1], st))
  }

  /** Resolving one statement. */
  function ResolvedStmt(s: Stmt, st: State): State
    decreases s
  {
    match s
    case Print(e) => ResolvedExpr(e, st)
    case Expression(e) => ResolvedExpr(e, st)
    case Var(name, initializer) =>
      var declared := AfterDeclare(st, name);
      AfterDefine(if initializer.Some? then ResolvedExpr(initializer.value, declared) else declared, name.lexeme)
    case Block(statements) => AfterEndScope(ResolvedStmts(statements, AfterBeginScope(st)))
    case If(condition, thenBranch, elseBranch) =>
      var afterThen := ResolvedStmt(thenBranch, ResolvedExpr(condition, st));
      if elseBranch.Some? then ResolvedStmt(elseBranch.value, afterThen) else afterThen
    case While(condition, body) => ResolvedStmt(body, ResolvedExpr(condition, st))
    case Function(decl) =>
      ResolvedFunction(decl, FunctionType.FUNCTION, AfterDefine(AfterDeclare(st, decl.name), decl.name.lexeme))
    case Return(_, value) =>
      var checked := AfterReports(st, StmtOwnErrors(s, st.scopes, st.functionType));
      if value.Some? then ResolvedExpr(value.value, checked) else checked
    case Class(_, superclass, methods) =>
      var body := ResolvedMethods(methods, EnteredClass(s, st));
      var closed := if superclass.Some? then AfterEndScope(AfterEndScope(body)) else AfterEndScope(body);
      closed.(classType := st.classType)
  }

  /** Resolving a list of statements in order. */
  function ResolvedStmts(ss: seq<Stmt>, st: State): State
    decreases ss
  {
    if ss == [] then st else ResolvedStmt(ss[|ss| - 1], ResolvedStmts(ss[..|ss| - 1], st))
  }

  /** The state a function body is resolved in: kind `kind`, and a new innermost scope holding the parameters. */
  function BodyState(d: FunctionDecl, kind: FunctionType, st: State): State {
    st.(functionType := kind, scopes := st.scopes + [ParamScope(d.params)], errors := st.errors + ParamErrors(d.params))
  }

  /** `resolveFunction`: the body in its own scope, after which the scope and the enclosing kind are restored. */
  function ResolvedFunction(d: FunctionDecl, kind: FunctionType, st: State): State
    decreases d
  {
    AfterEndScope(ResolvedStmts(d.body, BodyState(d, kind, st))).(functionType := st.functionType)
  }

  /** Resolving a class's methods in order, `init` as an initializer. */
  function ResolvedMethods(ms: seq<FunctionDecl>, st: State): State
    decreases ms
  {
    if ms == [] then st
    else
      var m := ms[|ms| - 1];
      ResolvedFunction(m, MethodKind(m), ResolvedMethods(ms[..|ms| - 1], st))
  }

  /** The start of `visitClassStmt`: class kind CLASS, the name declared and defined, self-inheritance reported. */
  function DeclaredClass(s: Stmt, st: State): State
    requires s.Class?
  {
    var declared := AfterDefine(AfterDeclare(st.(classType := ClassType.CLASS), s.name), s.name.lexeme);
    AfterReports(declared,
      if s.superclass.Some? && s.name.lexeme == s.superclass.value.name.lexeme
      then [ErrorAt(s.superclass.value.name, SelfInheritMessage)] else [])
  }

  /** The state `visitClassStmt` resolves the methods in: after the superclass and the `super` and `this` scopes. */
  function EnteredClass(s: Stmt, st: State): State
    requires s.Class?
  {
    var checked := DeclaredClass(s, st);
    var withSuper :=
      if s.superclass.Some?
      then AfterDefine(AfterBeginScope(ResolvedExpr(s.superclass.value, checked.(classType := ClassType.SUBCLASS))), "super")
      else checked;
    AfterDefine(AfterBeginScope(withSuper), "this")
  }

  class Resolver {
    /** The scope stack, outermost first: `get(i)` indexes from the bottom, `peek` is the last. */
    var scopes: seq<Scope>
    var currentFunction: FunctionType
    var currentClass: ClassType
    /** The interpreter's side table, keyed by node id: the recorded scope distance. */
    var locals: map<nat, nat>
    /** The reports made so far, in order. */
    var errors: seq<Diagnostic>

    constructor()
      ensures scopes == [] && currentFunction == FunctionType.NONE && currentClass == ClassType.NONE
      ensures locals == map[] && errors == []
    {
      scopes := [];
      currentFunction := FunctionType.NONE;
      currentClass := ClassType.NONE;
      locals := map[];
      errors := [];
    }

    /** The resolver's fields as one value. */
    function Snapshot(): State
      reads this
    {
      State(scopes, currentFunction, currentClass, locals, errors)
    }

    /** Records the distance of the innermost scope declaring `name`, if any. */
    method ResolveLocal(id: nat, name: Token)
      modifies this
      ensures Snapshot() == AfterResolveLocal(old(Snapshot()), id, name.lexeme)
    {
      var i := |scopes| - 1;
      while i >= 0
        invariant -1 <= i < |scopes|
        invariant forall k :: i < k < |scopes| ==> name.lexeme !in scopes[k]
        invariant Snapshot() == old(Snapshot())
      {
        if name.lexeme in scopes[i] {
          locals := locals[id := |scopes| - 1 - i];
          return;
        }
        i := i - 1;
      }
    }

    method BeginScope()
      modifies this
      ensures Snapshot() == AfterBeginScope(old(Snapshot()))
    {
      scopes := scopes + [map[]];
    }

    /** Pops the innermost scope; popping an empty stack does nothing. */
    method EndScope()
      modifies this
      ensures Snapshot() == AfterEndScope(old(Snapshot()))
    {
      if scopes != [] {
        scopes := scopes[..|scopes| - 1];
      }
    }

    method ReportError(token: Token, message: string)
      modifies this
      ensures Snapshot() == AfterReports(old(Snapshot()), [ErrorAt(token, message)])
    {
      errors := errors + [ErrorAt(token, message)];
    }

    /** Enters `name` in the innermost scope as not yet defined, reporting a redeclaration. */
    method Declare(name: Token)
      modifies this
      ensures Snapshot() == AfterDeclare(old(Snapshot()), name)
    {
      if scopes == [] {
        return;
      }
      var scope := Top(scopes);
      if name.lexeme in scope {
        ReportError(name, RedeclaredMessage);
      }
      scopes := scopes[|scopes| - 1 := scope[name.lexeme := false]];
    }

    /** Marks `name` as defined in the innermost scope. */
    method Define(name: string)
      modifies this
      ensures Snapshot() == AfterDefine(old(Snapshot()), name)
    {
      if scopes == [] {
        return;
      }
      scopes := scopes[|scopes| - 1 := Top(scopes)[name := true]];
    }

    method ResolveExpr(e: Expr)
      modifies this
      ensures Snapshot() == ResolvedExpr(e, old(Snapshot()))
      decreases e, 1
    {
      match e
      case Literal(_, _) =>
      case Unary(_, _, _) => VisitUnary(e);
      case Binary(_, _, _, _) => VisitOperands(e);
      case Grouping(_, _) => VisitGrouping(e);
      case Variable(_, _) => VisitVariable(e);
      case Assign(_, _, _) => VisitAssign(e);
      case Logical(_, _, _, _) => VisitOperands(e);
      case Call(_, _, _, _) => VisitCall(e);
      case Get(_, _, _) => VisitGet(e);
      case Set(_, _, _, _) => VisitSet(e);
      case This(_, _) => VisitThis(e);
      case Super(_, _, _) => VisitSuper(e);
    }

    method VisitUnary(e: Expr)
      requires e.Unary?
      modifies this
      ensures Snapshot() == ResolvedExpr(e, old(Snapshot()))
      decreases e, 0
    {
      ResolveExpr(e.right);
    }

    method VisitGrouping(e: Expr)
      requires e.Grouping?
      modifies this
      ensures Snapshot() == ResolvedExpr(e, old(Snapshot()))
      decreases e, 0
    {
      ResolveExpr(e.expression);
    }

    method VisitGet(e: Expr)
      requires e.Get?
      modifies this
      ensures Snapshot() == ResolvedExpr(e, old(Snapshot()))
      decreases e, 0
    {
      ResolveExpr(e.obj);
    }

    /** Binary and logical nodes resolve their left operand, then their right. */
    method VisitOperands(e: Expr)
      requires e.Binary? || e.Logical?
      modifies this
      ensures Snapshot() == ResolvedExpr(e, old(Snapshot()))
      decreases e, 0
    {
      ResolveExpr(e.left);
      ResolveExpr(e.right);
    }

    /** A set node resolves the assigned value before the object. */
    method VisitSet(e: Expr)
      requires e.Set?
      modifies this
      ensures Snapshot() == ResolvedExpr(e, old(Snapshot()))
      decreases e, 0
    {
      ResolveExpr(e.value);
      ResolveExpr(e.obj);
    }

    method VisitVariable(e: Expr)
      requires e.Variable?
      modifies this
      ensures Snapshot() == ResolvedExpr(e, old(Snapshot()))
      decreases e, 0
    {
      if scopes != [] && e.name.lexeme in Top(scopes) && !Top(scopes)[e.name.lexeme] {
        ReportError(e.name, OwnInitializerMessage);
      }
      ResolveLocal(e.id, e.name);
    }

    method VisitAssign(e: Expr)
      requires e.Assign?
      modifies this
      ensures Snapshot() == ResolvedExpr(e, old(Snapshot()))
      decreases e, 0
    {
      ResolveExpr(e.value);
      ResolveLocal(e.id, e.name);
    }

    method VisitCall(e: Expr)
      requires e.Call?
      modifies this
      ensures Snapshot() == ResolvedExpr(e, old(Snapshot()))
      decreases e, 0
    {
      ResolveExpr(e.callee);
      ghost var start := Snapshot();
      var k := 0;
      while k < |e.args|
        invariant 0 <= k <= |e.args|
        invariant Snapshot() == ResolvedExprs(e.args[..k], start)
      {
        ResolveExpr(e.args[k]);
        assert e.args[..k + 1][..k] == e.args[..k];
        k := k + 1;
      }
      assert e.args[..k] == e.args;
    }

    method VisitThis(e: Expr)
      requires e.This?
      modifies this
      ensures Snapshot() == ResolvedExpr(e, old(Snapshot()))
      decreases e, 0
    {
      if currentClass == ClassType.NONE {
        ReportError(e.keyword, ThisOutsideClassMessage);
      }
      ResolveLocal(e.id, e.keyword);
    }

    method VisitSuper(e: Expr)
      requires e.Super?
      modifies this
      ensures Snapshot() == ResolvedExpr(e, old(Snapshot()))
      decreases e, 0
    {
      if currentClass == ClassType.NONE {
        ReportError(e.keyword, SuperOutsideClassMessage);
      }
      if currentClass == ClassType.CLASS {
        ReportError(e.keyword, SuperWithoutSuperclassMessage);
      }
      ResolveLocal(e.id, e.keyword);
    }

    method ResolveStatements(statements: seq<Stmt>)
      modifies this
      ensures Snapshot() == ResolvedStmts(statements, old(Snapshot()))
      decreases statements
    {
      var k := 0;
      while k < |statements|
        invariant 0 <= k <= |statements|
        invariant Snapshot() == ResolvedStmts(statements[..k], old(Snapshot()))
      {
        ResolveStmt(statements[k]);
        assert statements[..k + 1][..k] == statements[..k];
        k := k + 1;
      }
      assert statements[..k] == statements;
    }

    method ResolveStmt(s: Stmt)
      modifies this
      ensures Snapshot() == ResolvedStmt(s, old(Snapshot()))
      decreases s, 2
    {
      match s
      case Print(_) => VisitExpressionStmt(s);
      case Expression(_) => VisitExpressionStmt(s);
      case Var(_, _) => VisitVar(s);
      case Block(_) => VisitBlock(s);
      case If(_, _, _) => VisitIf(s);
      case While(_, _) => VisitWhile(s);
      case Function(_) => VisitFunction(s);
      case Return(_, _) => VisitReturn(s);
      case Class(_, _, _) => VisitClass(s);
    }

    /** Print and expression statements resolve their expression. */
    method VisitExpressionStmt(s: Stmt)
      requires s.Print? || s.Expression?
      modifies this
      ensures Snapshot() == ResolvedStmt(s, old(Snapshot()))
      decreases s, 1
    {
      ResolveExpr(s.expression);
    }

    method VisitVar(s: Stmt)
      requires s.Var?
      modifies this
      ensures Snapshot() == ResolvedStmt(s, old(Snapshot()))
      decreases s, 1
    {
      Declare(s.name);
      if s.initializer.Some? {
        ResolveExpr(s.initializer.value);
      }
      Define(s.name.lexeme);
    }

    method VisitBlock(s: Stmt)
      requires s.Block?
      modifies this
      ensures Snapshot() == ResolvedStmt(s, old(Snapshot()))
      decreases s, 1
    {
      BeginScope();
      ResolveStatements(s.statements);
      EndScope();
    }

    method VisitIf(s: Stmt)
      requires s.If?
      modifies this
      ensures Snapshot() == ResolvedStmt(s, old(Snapshot()))
      decreases s, 1
    {
      ResolveExpr(s.condition);
      ResolveStmt(s.thenBranch);
      if s.elseBranch.Some? {
        ResolveStmt(s.elseBranch.value);
      }
    }

    method VisitWhile(s: Stmt)
      requires s.While?
      modifies this
      ensures Snapshot() == ResolvedStmt(s, old(Snapshot()))
      decreases s, 1
    {
      ResolveExpr(s.condition);
      ResolveStmt(s.body);
    }

    method VisitFunction(s: Stmt)
      requires s.Function?
      modifies this
      ensures Snapshot() == ResolvedStmt(s, old(Snapshot()))
      decreases s, 1
    {
      Declare(s.decl.name);
      Define(s.decl.name.lexeme);
      ResolveFunction(s.decl, FunctionType.FUNCTION);
    }

    method VisitReturn(s: Stmt)
      requires s.Return?
      modifies this
      ensures Snapshot() == ResolvedStmt(s, old(Snapshot()))
      decreases s, 1
    {
      ghost var first := if currentFunction == FunctionType.NONE then [ErrorAt(s.keyword, TopLevelReturnMessage)] else [];
      ghost var second := if s.value.Some? && currentFunction == FunctionType.INITIALIZER
        then [ErrorAt(s.keyword, InitializerReturnMessage)] else [];
      if currentFunction == FunctionType.NONE {
        ReportError(s.keyword, TopLevelReturnMessage);
      }
      assert errors == old(errors) + first;
      if s.value.Some? {
        if currentFunction == FunctionType.INITIALIZER {
          ReportError(s.keyword, InitializerReturnMessage);
        }
        assert errors == old(errors) + (first + second);
        ResolveExpr(s.value.value);
      }
    }

    /** Resolves a function body in a fresh scope holding its parameters, with `kind` as the current function kind. */
    method ResolveFunction(func: FunctionDecl, kind: FunctionType)
      modifies this
      ensures Snapshot() == ResolvedFunction(func, kind, old(Snapshot()))
      decreases func
    {
      var enclosingFunction := currentFunction;
      currentFunction := kind;
      BeginScope();
      DeclareParams(func.params);
      assert scopes == old(scopes) + [ParamScope(func.params)];
      assert Snapshot() == BodyState(func, kind, old(Snapshot()));
      ResolveStatements(func.body);
      EndScope();
      currentFunction := enclosingFunction;
    }

    /** Declares and defines each parameter, in order, in the innermost scope, which starts out empty. */
    method DeclareParams(params: seq<Token>)
      requires scopes != [] && Top(scopes) == map[]
      modifies this
      ensures scopes == old(scopes)[..|old(scopes)| - 1] + [ParamScope(params)]
      ensures errors == old(errors) + ParamErrors(params)
      ensures locals == old(locals) && currentFunction == old(currentFunction) && currentClass == old(currentClass)
    {
      ghost var below := scopes[..|scopes| - 1];
      assert scopes == below + [ParamScope(params[..0])];
      var k := 0;
      while k < |params|
        invariant 0 <= k <= |params|
        invariant scopes == below + [ParamScope(params[..k])]
        invariant errors == old(errors) + ParamErrors(params[..k])
        invariant locals == old(locals) && currentFunction == old(currentFunction) && currentClass == old(currentClass)
      {
        var param := params[k];
        ParamStep(params, k);
        DeclareInTop(below, ParamScope(params[..k]), param);
        ghost var reported := ParamErrors(params[..k]);
        ghost var added := DeclareErrors(scopes, param);
        assert old(errors) + ParamErrors(params[..k + 1]) == (old(errors) + reported) + added;
        Declare(param);
        Define(param.lexeme);
        k := k + 1;
      }
      assert params[..k] == params;
    }

    /** Resolves a class declaration, its superclass and its methods, restoring the enclosing class kind. */
    method VisitClass(s: Stmt)
      requires s.Class?
      modifies this
      ensures Snapshot() == ResolvedStmt(s, old(Snapshot()))
      decreases s, 1
    {
      var enclosingClass := currentClass;
      EnterClass(s);
      ResolveMethods(s);
      EndScope();
      if s.superclass.Some? {
        EndScope();
      }
      currentClass := enclosingClass;
    }

    /**
     * The part of `visitClassStmt` before the methods: declares the class,
     * checks and resolves the superclass, and opens the `super` and `this` scopes.
     */
    method EnterClass(s: Stmt)
      requires s.Class?
      modifies this
      ensures Snapshot() == EnteredClass(s, old(Snapshot()))
    {
      DeclareClass(s);
      if s.superclass.Some? {
        currentClass := ClassType.SUBCLASS;
        OpenSuperScope(s.superclass.value);
      }
      BeginScope();
      scopes := scopes[|scopes| - 1 := Top(scopes)["this" := true]];
    }

    /** Sets the class kind to CLASS, declares and defines the class name, and reports self-inheritance. */
    method DeclareClass(s: Stmt)
      requires s.Class?
      modifies this
      ensures Snapshot() == DeclaredClass(s, old(Snapshot()))
    {
      currentClass := ClassType.CLASS;
      Declare(s.name);
      Define(s.name.lexeme);
      if s.superclass.Some? && s.name.lexeme == s.superclass.value.name.lexeme {
        ReportError(s.superclass.value.name, SelfInheritMessage);
      }
    }

    /** Resolves the superclass reference, then opens a scope binding `super`. */
    method OpenSuperScope(superclass: Expr)
      modifies this
      ensures Snapshot() == AfterDefine(AfterBeginScope(ResolvedExpr(superclass, old(Snapshot()))), "super")
    {
      ResolveExpr(superclass);
      BeginScope();
      scopes := scopes[|scopes| - 1 := Top(scopes)["super" := true]];
    }

    /** Resolves each method of a class, `init` as an initializer and every other as a method. */
    method ResolveMethods(s: Stmt)
      requires s.Class?
      modifies this
      ensures Snapshot() == ResolvedMethods(s.methods, old(Snapshot()))
      decreases s, 0
    {
      var k := 0;
      while k < |s.methods|
        invariant 0 <= k <= |s.methods|
        invariant Snapshot() == ResolvedMethods(s.methods[..k], old(Snapshot()))
      {
        var declaration := FunctionType.METHOD;
        if s.methods[k].name.lexeme == "init" {
          declaration := FunctionType.INITIALIZER;
        }
        ResolveFunction(s.methods[k], declaration);
        assert s.methods[..k + 1][..k] == s.methods[..k];
        k := k + 1;
      }
      assert s.methods[..k] == s.methods;
    }
  }

  /** Inside a method body, `this` resolves past the scopes opened within the method to the class's `this` scope. */
  lemma ThisDistance(outer: seq<Scope>, hasSuperclass: bool, inner: seq<Scope>)
    requires forall k :: 0 <= k < |inner| ==> "this" !in inner[k]
    ensures Distance(ClassBodyScopes(outer, hasSuperclass) + inner, "this") == Some(|inner|)
  {
    var all := ClassBodyScopes(outer, hasSuperclass) + inner;
    var i := |ClassBodyScopes(outer, hasSuperclass)| - 1;
    assert "this" in all[i];
    forall k | i < k < |all| ensures "this" !in all[k] {
      assert all[k] == inner[k - i - 1];
    }
  }

  /** In a subclass's method body, `super` resolves one scope further out than `this`. */
  lemma SuperDistance(outer: seq<Scope>, inner: seq<Scope>)
    requires forall k :: 0 <= k < |inner| ==> "super" !in inner[k]
    ensures Distance(ClassBodyScopes(outer, true) + inner, "super") == Some(|inner| + 1)
  {
    var all := ClassBodyScopes(outer, true) + inner;
    var i := |outer|;
    assert all[i] == map["super" := true];
    forall k | i < k < |all| ensures "super" !in all[k] {
      if k == i + 1 {
        assert all[k] == map["this" := true];
      } else {
        assert all[k] == inner[k - i - 2];
      }
    }
  }

  /**
   * The resolver's stack (outermost first) and the runtime chain (innermost
   * first) declare the same names scope for scope: then the recorded distance
   * is the index at which the runtime search by name finds the name.
   */
  lemma {:induction false} DistanceMatchesRuntimeSearch(scopes: seq<Scope>, env: seq<Environments.Bindings>, name: string)
    requires |env| == |scopes|
    requires forall k :: 0 <= k < |env| ==> env[k].Keys == scopes[|scopes| - 1 - k].Keys
    ensures Distance(scopes, name) == Environments.FindScope(env, name)
  {
    var r := Innermost(scopes, name);
    var f := Environments.FindScope(env, name);
    if r.Some? {
      var d := |scopes| - 1 - r.value;
      assert name in env[d];
      forall k | 0 <= k < d ensures name !in env[k] {
        assert name !in scopes[|scopes| - 1 - k];
      }
      assert f.Some?;
      assert f.value == d by {
        assert f.value <= d;
      }
    } else {
      forall k | 0 <= k < |env| ensures name !in env[k] {
        assert name !in scopes[|scopes| - 1 - k];
      }
    }
  }

  /**
   * Under the same correspondence, reading a resolved variable at its
   * recorded distance yields what the search by name yields.
   */
  lemma ResolvedReadAgreesWithGet(scopes: seq<Scope>, env: seq<Environments.Bindings>, name: Token)
    requires |env| == |scopes|
    requires forall k :: 0 <= k < |env| ==> env[k].Keys == scopes[|scopes| - 1 - k].Keys
    requires Distance(scopes, name.lexeme).Some?
    ensures Environments.GetSpec(env, name) == Ok(Environments.GetAtSpec(env, Distance(scopes, name.lexeme).value, name.lexeme))
  {
    DistanceMatchesRuntimeSearch(scopes, env, name.lexeme);
    var d := Distance(scopes, name.lexeme).value;
    Environments.DistanceAgreesWithSearch(env, d, name, Nil);
  }

  /** The parameter scope binds exactly the parameter names, each as defined. */
  lemma {:induction false} ParamScopeBindsParams(params: seq<Token>)
    ensures forall n :: n in ParamScope(params) <==> exists k :: 0 <= k < |params| && params[k].lexeme == n
    ensures forall n :: n in ParamScope(params) ==> ParamScope(params)[n]
  {
    if params != [] {
      var init := params[..|params| - 1];
      ParamScopeBindsParams(init);
      forall n | n in ParamScope(params) ensures exists k :: 0 <= k < |params| && params[k].lexeme == n {
        if n != params[|params| - 1].lexeme {
          assert n in ParamScope(init);
          var k :| 0 <= k < |init| && init[k].lexeme == n;
          assert params[k] == init[k];
        }
      }
      forall n | exists k :: 0 <= k < |params| && params[k].lexeme == n ensures n in ParamScope(params) {
        var k :| 0 <= k < |params| && params[k].lexeme == n;
        if k < |init| {
          assert init[k] == params[k];
        }
      }
    }
  }

  /** A function's parameters produce a redeclaration report exactly when two share a name. */
  lemma {:induction false} ParamErrorsIffDuplicates(params: seq<Token>)
    ensures ParamErrors(params) == [] <==> forall i, j :: 0 <= i < j < |params| ==> params[i].lexeme != params[j].lexeme
  {
    if params != [] {
      var init := params[..|params| - 1];
      var last := params[|params| - 1];
      ParamErrorsIffDuplicates(init);
      ParamScopeBindsParams(init);
      if ParamErrors(params) == [] {
        forall i, j | 0 <= i < j < |params| ensures params[i].lexeme != params[j].lexeme {
          if j < |params| - 1 {
            assert init[i] == params[i] && init[j] == params[j];
          } else {
            assert init[i] == params[i];
          }
        }
      } else if ParamErrors(init) == [] {
        var k :| 0 <= k < |init| && init[k].lexeme == last.lexeme;
        assert params[k].lexeme == params[|params| - 1].lexeme;
      } else {
        var i, j :| 0 <= i < j < |init| && init[i].lexeme == init[j].lexeme;
        assert params[i].lexeme == params[j].lexeme;
      }
    }
  }
}
