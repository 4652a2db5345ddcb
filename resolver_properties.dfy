/**
 * What the resolver's semantics guarantees. How each step changes the scope
 * stack, the two kinds, the reports and the side table. That every variable,
 * assignment, `this` and `super` node inside an expression gets the distance
 * its name has where it stands. And which misuse the resolver reports
 * wherever it occurs: `this` and `super` outside a class, a read in its own
 * initializer, a redeclaration, `return` at top level and a returned value
 * in an initializer.
 */
module ResolverProperties {
  import opened Types
  import opened Expressions
  import opened Statements
  import opened Resolution

  lemma LocalsWithinTrans(a: map<nat, nat>, b: map<nat, nat>, c: map<nat, nat>, ids1: set<nat>, ids2: set<nat>, ids: set<nat>)
    requires LocalsWithin(a, b, ids1) && LocalsWithin(b, c, ids2) && ids1 + ids2 <= ids
    ensures LocalsWithin(a, c, ids)
  {
  }

  lemma PrefixTrans(a: seq<Diagnostic>, b: seq<Diagnostic>, c: seq<Diagnostic>)
    requires a <= b && b <= c
    ensures a <= c
  {
    assert c[..|a|] == b[..|a|];
  }

  lemma InPrefix(a: seq<Diagnostic>, b: seq<Diagnostic>, x: Diagnostic)
    requires a <= b && x in a
    ensures x in b
  {
    var i :| 0 <= i < |a| && a[i] == x;
    assert b[i] == x;
  }

  lemma ScopesAfterCompose(scopes: seq<Scope>, names1: set<string>, names2: set<string>)
    ensures ScopesAfter(ScopesAfter(scopes, names1), names2) == ScopesAfter(scopes, names1 + names2)
  {
    if scopes != [] {
      var t := Top(scopes);
      assert DefineAll(DefineAll(t, names1), names2) == DefineAll(t, names1 + names2);
    }
  }

  lemma ScopesAfterNothing(scopes: seq<Scope>)
    ensures ScopesAfter(scopes, {}) == scopes
  {
    if scopes != [] {
      assert DefineAll(Top(scopes), {}) == Top(scopes);
    }
  }

  /** Declaring and then defining one name is defining it. */
  lemma DeclareThenDefine(scopes: seq<Scope>, name: Token)
    requires scopes != []
    ensures var d := ScopesDeclare(scopes, name);
      d[|d| - 1 := Top(d)[name.lexeme := true]] == ScopesAfter(scopes, {name.lexeme})
  {
    var t := Top(scopes);
    assert t[name.lexeme := false][name.lexeme := true] == DefineAll(t, {name.lexeme});
  }

  /** Closing the `this` scope and then the optional `super` scope gives back the stack below them. */
  lemma PopClassBodyScopes(scopes: seq<Scope>, hasSuperclass: bool)
    ensures var b := ClassBodyScopes(scopes, hasSuperclass);
      b[..|b| - 1] == scopes + (if hasSuperclass then [map["super" := true]] else [])
    ensures (scopes + [map["super" := true]])[..|scopes|] == scopes
  {
  }

  /** An extra scope that does not declare `name` adds one hop to its distance. */
  lemma DistanceThroughScope(scopes: seq<Scope>, top: Scope, name: string)
    requires name !in top && Distance(scopes, name).Some?
    ensures Distance(scopes + [top], name) == Some(Distance(scopes, name).value + 1)
  {
    assert (scopes + [top])[..|scopes|] == scopes;
  }

  /*
   * Frames: what one resolution step leaves alone.
   */

  /**
   * From `st` to `r`, the scope stack and both kinds are unchanged, reports
   * are only appended, and only side-table entries for `ids` are added or changed.
   */
  predicate Keeps(st: State, r: State, ids: set<nat>) {
    r.scopes == st.scopes && r.functionType == st.functionType && r.classType == st.classType
    && st.errors <= r.errors && LocalsWithin(st.locals, r.locals, ids)
  }

  /** As `Keeps`, except that the innermost scope also ends with `names` defined. */
  predicate KeepsDefining(st: State, r: State, names: set<string>, ids: set<nat>) {
    r.scopes == ScopesAfter(st.scopes, names) && r.functionType == st.functionType && r.classType == st.classType
    && st.errors <= r.errors && LocalsWithin(st.locals, r.locals, ids)
  }

  lemma KeepsTrans(a: State, b: State, c: State, ids1: set<nat>, ids2: set<nat>, ids: set<nat>)
    requires Keeps(a, b, ids1) && Keeps(b, c, ids2) && ids1 + ids2 <= ids
    ensures Keeps(a, c, ids)
  {
    LocalsWithinTrans(a.locals, b.locals, c.locals, ids1, ids2, ids);
    PrefixTrans(a.errors, b.errors, c.errors);
  }

  lemma KeepsDefiningNothing(a: State, b: State, ids: set<nat>)
    requires Keeps(a, b, ids)
    ensures KeepsDefining(a, b, {}, ids)
  {
    ScopesAfterNothing(a.scopes);
  }

  lemma KeepsThenDefining(a: State, b: State, c: State, names: set<string>, ids1: set<nat>, ids2: set<nat>, ids: set<nat>)
    requires Keeps(a, b, ids1) && KeepsDefining(b, c, names, ids2) && ids1 + ids2 <= ids
    ensures KeepsDefining(a, c, names, ids)
  {
    LocalsWithinTrans(a.locals, b.locals, c.locals, ids1, ids2, ids);
    PrefixTrans(a.errors, b.errors, c.errors);
  }

  lemma DefiningThenKeeps(a: State, b: State, c: State, names: set<string>, ids1: set<nat>, ids2: set<nat>, ids: set<nat>)
    requires KeepsDefining(a, b, names, ids1) && Keeps(b, c, ids2) && ids1 + ids2 <= ids
    ensures KeepsDefining(a, c, names, ids)
  {
    LocalsWithinTrans(a.locals, b.locals, c.locals, ids1, ids2, ids);
    PrefixTrans(a.errors, b.errors, c.errors);
  }

  lemma DefiningTrans(a: State, b: State, c: State, names1: set<string>, names2: set<string>, names: set<string>,
                      ids1: set<nat>, ids2: set<nat>, ids: set<nat>)
    requires KeepsDefining(a, b, names1, ids1) && KeepsDefining(b, c, names2, ids2)
    requires names1 + names2 == names && ids1 + ids2 <= ids
    ensures KeepsDefining(a, c, names, ids)
  {
    ScopesAfterCompose(a.scopes, names1, names2);
    LocalsWithinTrans(a.locals, b.locals, c.locals, ids1, ids2, ids);
    PrefixTrans(a.errors, b.errors, c.errors);
  }

  /** A node's own checks and its distance: reports appended, only its own entry recorded. */
  lemma ReferenceFrame(st: State, reports: seq<Diagnostic>, id: nat, name: string)
    ensures Keeps(st, AfterResolveLocal(AfterReports(st, reports), id, name), {id})
  {
  }

  /** Resolving an expression keeps the scopes and kinds, appends reports and records only its own nodes. */
  lemma {:induction false} ExprFrame(e: Expr, st: State)
    ensures Keeps(st, ResolvedExpr(e, st), Ids(e))
    decreases e
  {
    match e
    case Literal(_, _) =>
    case Unary(_, _, right) => ExprFrame(right, st);
    case Binary(_, left, _, right) =>
      ExprFrame(left, st);
      ExprFrame(right, ResolvedExpr(left, st));
      KeepsTrans(st, ResolvedExpr(left, st), ResolvedExpr(e, st), Ids(left), Ids(right), Ids(e));
    case Grouping(_, inner) => ExprFrame(inner, st);
    case Variable(id, name) => ReferenceFrame(st, ExprOwnErrors(e, st.scopes, st.classType), id, name.lexeme);
    case Assign(id, name, value) =>
      ExprFrame(value, st);
      ReferenceFrame(ResolvedExpr(value, st), [], id, name.lexeme);
      assert AfterReports(ResolvedExpr(value, st), []) == ResolvedExpr(value, st);
      KeepsTrans(st, ResolvedExpr(value, st), ResolvedExpr(e, st), Ids(value), {id}, Ids(e));
    case Logical(_, left, _, right) =>
      ExprFrame(left, st);
      ExprFrame(right, ResolvedExpr(left, st));
      KeepsTrans(st, ResolvedExpr(left, st), ResolvedExpr(e, st), Ids(left), Ids(right), Ids(e));
    case Call(_, callee, _, args) =>
      ExprFrame(callee, st);
      ExprsFrame(args, ResolvedExpr(callee, st));
      KeepsTrans(st, ResolvedExpr(callee, st), ResolvedExpr(e, st), Ids(callee), IdsOfAll(args), Ids(e));
    case Get(_, obj, _) => ExprFrame(obj, st);
    case Set(_, obj, _, value) =>
      ExprFrame(value, st);
      ExprFrame(obj, ResolvedExpr(value, st));
      KeepsTrans(st, ResolvedExpr(value, st), ResolvedExpr(e, st), Ids(value), Ids(obj), Ids(e));
    case This(id, keyword) => ReferenceFrame(st, ExprOwnErrors(e, st.scopes, st.classType), id, keyword.lexeme);
    case Super(id, keyword, _) => ReferenceFrame(st, ExprOwnErrors(e, st.scopes, st.classType), id, keyword.lexeme);
  }

  lemma {:induction false} ExprsFrame(es: seq<Expr>, st: State)
    ensures Keeps(st, ResolvedExprs(es, st), IdsOfAll(es))
    decreases es
  {
    if es != [] {
      var init := es[..|es| - 1];
      var mid := ResolvedExprs(init, st);
      ExprsFrame(init, st);
      ExprFrame(es[|es| - 1], mid);
      KeepsTrans(st, mid, ResolvedExprs(es, st), IdsOfAll(init), Ids(es[|es| - 1]), IdsOfAll(es));
    }
  }

  /**
   * Resolving a statement keeps the kinds, appends reports and records only
   * its own nodes; the innermost scope ends with the statement's
   * declarations defined and is otherwise as it was.
   */
  lemma {:induction false} StmtFrame(s: Stmt, st: State)
    ensures KeepsDefining(st, ResolvedStmt(s, st), Declared(s), StmtIds(s))
    decreases s, 1
  {
    match s
    case Print(e) =>
      ExprFrame(e, st);
      KeepsDefiningNothing(st, ResolvedStmt(s, st), StmtIds(s));
    case Expression(e) =>
      ExprFrame(e, st);
      KeepsDefiningNothing(st, ResolvedStmt(s, st), StmtIds(s));
    case Var(_, _) => VarFrame(s, st);
    case Block(_) => BlockFrame(s, st);
    case If(_, _, _) => IfFrame(s, st);
    case While(condition, body) =>
      var mid := ResolvedExpr(condition, st);
      ExprFrame(condition, st);
      StmtFrame(body, mid);
      KeepsThenDefining(st, mid, ResolvedStmt(s, st), Declared(body), Ids(condition), StmtIds(body), StmtIds(s));
    case Function(_) => FunctionStmtFrame(s, st);
    case Return(_, _) => ReturnFrame(s, st);
    case Class(_, _, _) => ClassFrame(s, st);
  }

  lemma {:induction false} StmtsFrame(ss: seq<Stmt>, st: State)
    ensures KeepsDefining(st, ResolvedStmts(ss, st), DeclaredAll(ss), StmtsIds(ss))
    decreases ss
  {
    if ss == [] {
      ScopesAfterNothing(st.scopes);
    } else {
      var init := ss[..|ss| - 1];
      var last := ss[|ss| - 1];
      var mid := ResolvedStmts(init, st);
      StmtsFrame(init, st);
      StmtFrame(last, mid);
      DefiningTrans(st, mid, ResolvedStmts(ss, st), DeclaredAll(init), Declared(last), DeclaredAll(ss),
        StmtsIds(init), StmtIds(last), StmtsIds(ss));
    }
  }

  lemma {:induction false} VarFrame(s: Stmt, st: State)
    requires s.Var?
    ensures KeepsDefining(st, ResolvedStmt(s, st), Declared(s), StmtIds(s))
    decreases s, 0
  {
    var declared := AfterDeclare(st, s.name);
    if s.initializer.Some? {
      ExprFrame(s.initializer.value, declared);
      PrefixTrans(st.errors, declared.errors, ResolvedExpr(s.initializer.value, declared).errors);
    }
    if st.scopes != [] {
      DeclareThenDefine(st.scopes, s.name);
    }
  }

  lemma {:induction false} BlockFrame(s: Stmt, st: State)
    requires s.Block?
    ensures KeepsDefining(st, ResolvedStmt(s, st), Declared(s), StmtIds(s))
    decreases s, 0
  {
    var inner := AfterBeginScope(st);
    var body := ResolvedStmts(s.statements, inner);
    StmtsFrame(s.statements, inner);
    assert body.scopes == st.scopes + [DefineAll(map[], DeclaredAll(s.statements))];
    ScopesAfterNothing(st.scopes);
  }

  lemma {:induction false} IfFrame(s: Stmt, st: State)
    requires s.If?
    ensures KeepsDefining(st, ResolvedStmt(s, st), Declared(s), StmtIds(s))
    decreases s, 0
  {
    var afterCondition := ResolvedExpr(s.condition, st);
    var afterThen := ResolvedStmt(s.thenBranch, afterCondition);
    ExprFrame(s.condition, st);
    StmtFrame(s.thenBranch, afterCondition);
    KeepsThenDefining(st, afterCondition, afterThen, Declared(s.thenBranch), Ids(s.condition),
      StmtIds(s.thenBranch), StmtIds(s));
    if s.elseBranch.Some? {
      StmtFrame(s.elseBranch.value, afterThen);
      DefiningTrans(st, afterThen, ResolvedStmt(s, st), Declared(s.thenBranch), Declared(s.elseBranch.value),
        Declared(s), StmtIds(s), StmtIds(s.elseBranch.value), StmtIds(s));
    } else {
      assert Declared(s) == Declared(s.thenBranch);
    }
  }

  lemma {:induction false} FunctionStmtFrame(s: Stmt, st: State)
    requires s.Function?
    ensures KeepsDefining(st, ResolvedStmt(s, st), Declared(s), StmtIds(s))
    decreases s, 0
  {
    var declared := AfterDefine(AfterDeclare(st, s.decl.name), s.decl.name.lexeme);
    if st.scopes != [] {
      DeclareThenDefine(st.scopes, s.decl.name);
    }
    assert KeepsDefining(st, declared, {s.decl.name.lexeme}, {});
    FunctionFrame(s.decl, FunctionType.FUNCTION, declared);
    DefiningThenKeeps(st, declared, ResolvedStmt(s, st), Declared(s), {}, DeclIds(s.decl), StmtIds(s));
  }

  lemma {:induction false} ReturnFrame(s: Stmt, st: State)
    requires s.Return?
    ensures KeepsDefining(st, ResolvedStmt(s, st), Declared(s), StmtIds(s))
    decreases s, 0
  {
    var checked := AfterReports(st, StmtOwnErrors(s, st.scopes, st.functionType));
    assert Keeps(st, checked, {});
    if s.value.Some? {
      ExprFrame(s.value.value, checked);
      KeepsTrans(st, checked, ResolvedStmt(s, st), {}, Ids(s.value.value), StmtIds(s));
    }
    KeepsDefiningNothing(st, ResolvedStmt(s, st), StmtIds(s));
  }

  /** A function body runs in its own scope, which is closed again; the enclosing kind is restored. */
  lemma {:induction false} FunctionFrame(d: FunctionDecl, kind: FunctionType, st: State)
    ensures Keeps(st, ResolvedFunction(d, kind, st), DeclIds(d))
    decreases d
  {
    var inner := BodyState(d, kind, st);
    var body := ResolvedStmts(d.body, inner);
    StmtsFrame(d.body, inner);
    assert body.scopes == st.scopes + [DefineAll(ParamScope(d.params), DeclaredAll(d.body))];
    PrefixTrans(st.errors, inner.errors, body.errors);
  }

  lemma {:induction false} MethodsFrame(ms: seq<FunctionDecl>, st: State)
    ensures Keeps(st, ResolvedMethods(ms, st), DeclsIds(ms))
    decreases ms
  {
    if ms != [] {
      var init := ms[..|ms| - 1];
      var last := ms[|ms| - 1];
      var mid := ResolvedMethods(init, st);
      MethodsFrame(init, st);
      FunctionFrame(last, MethodKind(last), mid);
      KeepsTrans(st, mid, ResolvedMethods(ms, st), DeclsIds(init), DeclIds(last), DeclsIds(ms));
    }
  }

  /**
   * Methods are resolved below a `this` scope, and a `super` scope when
   * there is a superclass, on top of the enclosing stack with the class
   * name defined; the class kind is SUBCLASS or CLASS accordingly.
   */
  lemma EnteredClassFrame(s: Stmt, st: State)
    requires s.Class?
    ensures var e := EnteredClass(s, st);
      e.scopes == ClassBodyScopes(ScopesAfter(st.scopes, {s.name.lexeme}), s.superclass.Some?)
      && e.classType == (if s.superclass.Some? then ClassType.SUBCLASS else ClassType.CLASS)
      && e.functionType == st.functionType
      && st.errors <= e.errors && LocalsWithin(st.locals, e.locals, SuperclassIds(s))
  {
    var checked := DeclaredClass(s, st);
    if st.scopes != [] {
      DeclareThenDefine(st.scopes, s.name);
    }
    assert checked.scopes == ScopesAfter(st.scopes, {s.name.lexeme});
    assert map[]["this" := true] == map["this" := true];
    if s.superclass.Some? {
      var sub := checked.(classType := ClassType.SUBCLASS);
      ExprFrame(s.superclass.value, sub);
      PrefixTrans(st.errors, sub.errors, ResolvedExpr(s.superclass.value, sub).errors);
      assert map[]["super" := true] == map["super" := true];
    }
  }

  lemma {:induction false} ClassFrame(s: Stmt, st: State)
    requires s.Class?
    ensures KeepsDefining(st, ResolvedStmt(s, st), Declared(s), StmtIds(s))
    decreases s, 0
  {
    var e := EnteredClass(s, st);
    var body := ResolvedMethods(s.methods, e);
    EnteredClassFrame(s, st);
    MethodsFrame(s.methods, e);
    PopClassBodyScopes(ScopesAfter(st.scopes, {s.name.lexeme}), s.superclass.Some?);
    PrefixTrans(st.errors, e.errors, body.errors);
    LocalsWithinTrans(st.locals, e.locals, body.locals, SuperclassIds(s), DeclsIds(s.methods), StmtIds(s));
  }

  /*
   * Every reference inside an expression is resolved.
   */

  /** `sub` is `e` or one of its sub-expressions. */
  predicate Within(sub: Expr, e: Expr)
    decreases e
  {
    if sub == e then true
    else match e
      case Unary(_, _, right) => Within(sub, right)
      case Binary(_, left, _, right) => Within(sub, left) || Within(sub, right)
      case Grouping(_, inner) => Within(sub, inner)
      case Assign(_, _, value) => Within(sub, value)
      case Logical(_, left, _, right) => Within(sub, left) || Within(sub, right)
      case Call(_, callee, _, args) => Within(sub, callee) || WithinSome(sub, args)
      case Get(_, obj, _) => Within(sub, obj)
      case Set(_, obj, _, value) => Within(sub, obj) || Within(sub, value)
      case _ => false
  }

  /** `sub` is within one of `es`. */
  predicate WithinSome(sub: Expr, es: seq<Expr>)
    decreases es
  {
    es != [] && (WithinSome(sub, es[..|es| - 1]) || Within(sub, es[|es| - 1]))
  }

  /**
   * No two nodes of `e` share an id. The side table is keyed by node
   * identity, and the parser creates every node once.
   */
  predicate UniqueIds(e: Expr)
    decreases e
  {
    match e
    case Unary(id, _, right) => id !in Ids(right) && UniqueIds(right)
    case Binary(id, left, _, right) =>
      id !in Ids(left) + Ids(right) && Ids(left) !! Ids(right) && UniqueIds(left) && UniqueIds(right)
    case Grouping(id, inner) => id !in Ids(inner) && UniqueIds(inner)
    case Assign(id, _, value) => id !in Ids(value) && UniqueIds(value)
    case Logical(id, left, _, right) =>
      id !in Ids(left) + Ids(right) && Ids(left) !! Ids(right) && UniqueIds(left) && UniqueIds(right)
    case Call(id, callee, _, args) =>
      id !in Ids(callee) + IdsOfAll(args) && Ids(callee) !! IdsOfAll(args) && UniqueIds(callee) && UniqueIdsAll(args)
    case Get(id, obj, _) => id !in Ids(obj) && UniqueIds(obj)
    case Set(id, obj, _, value) =>
      id !in Ids(obj) + Ids(value) && Ids(obj) !! Ids(value) && UniqueIds(obj) && UniqueIds(value)
    case _ => true
  }

  predicate UniqueIdsAll(es: seq<Expr>)
    decreases es
  {
    es == [] || (UniqueIdsAll(es[..|es| - 1]) && UniqueIds(es[|es| - 1]) && IdsOfAll(es[..|es| - 1]) !! Ids(es[|es| - 1]))
  }

  lemma {:induction false} WithinIds(sub: Expr, e: Expr)
    requires Within(sub, e)
    ensures sub.id in Ids(e)
    decreases e
  {
    if sub != e {
      match e
      case Unary(_, _, right) => WithinIds(sub, right);
      case Binary(_, left, _, right) => if Within(sub, left) { WithinIds(sub, left); } else { WithinIds(sub, right); }
      case Grouping(_, inner) => WithinIds(sub, inner);
      case Assign(_, _, value) => WithinIds(sub, value);
      case Logical(_, left, _, right) => if Within(sub, left) { WithinIds(sub, left); } else { WithinIds(sub, right); }
      case Call(_, callee, _, args) => if Within(sub, callee) { WithinIds(sub, callee); } else { WithinSomeIds(sub, args); }
      case Get(_, obj, _) => WithinIds(sub, obj);
      case Set(_, obj, _, value) => if Within(sub, obj) { WithinIds(sub, obj); } else { WithinIds(sub, value); }
    }
  }

  lemma {:induction false} WithinSomeIds(sub: Expr, es: seq<Expr>)
    requires WithinSome(sub, es)
    ensures sub.id in IdsOfAll(es)
    decreases es
  {
    if WithinSome(sub, es[..|es| - 1]) {
      WithinSomeIds(sub, es[..|es| - 1]);
    } else {
      WithinIds(sub, es[|es| - 1]);
    }
  }

  /** The entry for `id` is as it was. */
  predicate Untouched(before: map<nat, nat>, after: map<nat, nat>, id: nat) {
    (id in after <==> id in before) && (id in before ==> after[id] == before[id])
  }

  /**
   * The side-table entry of the reference node `sub` after resolution: the
   * distance its name has in `scopes`, or left as it was when no scope
   * declares the name (a global).
   */
  predicate Recorded(scopes: seq<Scope>, before: map<nat, nat>, after: map<nat, nat>, sub: Expr)
    requires ReferenceName(sub).Some?
  {
    match Distance(scopes, ReferenceName(sub).value)
    case Some(d) => sub.id in after && after[sub.id] == d
    case None => Untouched(before, after, sub.id)
  }

  lemma RecordedThenKeeps(st: State, mid: State, r: State, sub: Expr, ids: set<nat>)
    requires ReferenceName(sub).Some? && Recorded(st.scopes, st.locals, mid.locals, sub)
    requires LocalsWithin(mid.locals, r.locals, ids) && sub.id !in ids
    ensures Recorded(st.scopes, st.locals, r.locals, sub)
  {
  }

  lemma KeepsThenRecorded(st: State, mid: State, r: State, sub: Expr, ids: set<nat>)
    requires ReferenceName(sub).Some? && Keeps(st, mid, ids) && sub.id !in ids
    requires Recorded(mid.scopes, mid.locals, r.locals, sub)
    ensures Recorded(st.scopes, st.locals, r.locals, sub)
  {
  }

  /** A reference node records its own distance. */
  lemma RootRecorded(e: Expr, st: State)
    requires ReferenceName(e).Some? && UniqueIds(e)
    ensures Recorded(st.scopes, st.locals, ResolvedExpr(e, st).locals, e)
  {
    if e.Assign? {
      ExprFrame(e.value, st);
    }
  }

  /**
   * Every variable, assignment, `this` and `super` node within `e` gets the
   * distance its name has in the scopes `e` is resolved in; the resolver
   * leaves a global's entry alone.
   */
  lemma {:induction false} EveryReferenceResolved(e: Expr, st: State, sub: Expr)
    requires UniqueIds(e) && Within(sub, e) && ReferenceName(sub).Some?
    ensures Recorded(st.scopes, st.locals, ResolvedExpr(e, st).locals, sub)
    decreases e, 1
  {
    if sub == e {
      RootRecorded(e, st);
    } else {
      match e
      case Unary(_, _, right) => EveryReferenceResolved(right, st, sub);
      case Binary(_, _, _, _) => OperandsResolved(e, st, sub);
      case Grouping(_, inner) => EveryReferenceResolved(inner, st, sub);
      case Assign(id, name, value) =>
        var mid := ResolvedExpr(value, st);
        EveryReferenceResolved(value, st, sub);
        WithinIds(sub, value);
        ReferenceFrame(mid, [], id, name.lexeme);
        assert AfterReports(mid, []) == mid;
        RecordedThenKeeps(st, mid, ResolvedExpr(e, st), sub, {id});
      case Logical(_, _, _, _) => OperandsResolved(e, st, sub);
      case Call(_, callee, _, args) =>
        var mid := ResolvedExpr(callee, st);
        if Within(sub, callee) {
          EveryReferenceResolved(callee, st, sub);
          WithinIds(sub, callee);
          ExprsFrame(args, mid);
          RecordedThenKeeps(st, mid, ResolvedExpr(e, st), sub, IdsOfAll(args));
        } else {
          ExprFrame(callee, st);
          WithinSomeIds(sub, args);
          EveryReferenceResolvedIn(args, mid, sub);
          KeepsThenRecorded(st, mid, ResolvedExpr(e, st), sub, Ids(callee));
        }
      case Get(_, obj, _) => EveryReferenceResolved(obj, st, sub);
      case Set(_, _, _, _) => OperandsResolved(e, st, sub);
    }
  }

  /** The case of `EveryReferenceResolved` for nodes resolving two operands one after the other. */
  lemma {:induction false} OperandsResolved(e: Expr, st: State, sub: Expr)
    requires e.Binary? || e.Logical? || e.Set?
    requires UniqueIds(e) && Within(sub, e) && sub != e && ReferenceName(sub).Some?
    ensures Recorded(st.scopes, st.locals, ResolvedExpr(e, st).locals, sub)
    decreases e, 0
  {
    var first := if e.Set? then e.value else e.left;
    var second := if e.Set? then e.obj else e.right;
    var mid := ResolvedExpr(first, st);
    assert ResolvedExpr(e, st) == ResolvedExpr(second, mid);
    if Within(sub, first) {
      EveryReferenceResolved(first, st, sub);
      WithinIds(sub, first);
      ExprFrame(second, mid);
      RecordedThenKeeps(st, mid, ResolvedExpr(e, st), sub, Ids(second));
    } else {
      ExprFrame(first, st);
      WithinIds(sub, second);
      EveryReferenceResolved(second, mid, sub);
      KeepsThenRecorded(st, mid, ResolvedExpr(e, st), sub, Ids(first));
    }
  }

  lemma {:induction false} EveryReferenceResolvedIn(es: seq<Expr>, st: State, sub: Expr)
    requires UniqueIdsAll(es) && WithinSome(sub, es) && ReferenceName(sub).Some?
    ensures Recorded(st.scopes, st.locals, ResolvedExprs(es, st).locals, sub)
    decreases es
  {
    var init := es[..|es| - 1];
    var last := es[|es| - 1];
    var mid := ResolvedExprs(init, st);
    if WithinSome(sub, init) {
      EveryReferenceResolvedIn(init, st, sub);
      WithinSomeIds(sub, init);
      ExprFrame(last, mid);
      RecordedThenKeeps(st, mid, ResolvedExprs(es, st), sub, Ids(last));
    } else {
      ExprsFrame(init, st);
      WithinIds(sub, last);
      EveryReferenceResolved(last, mid, sub);
      KeepsThenRecorded(st, mid, ResolvedExprs(es, st), sub, IdsOfAll(init));
    }
  }

  /*
   * Every node's own checks are reported, wherever it stands in the expression.
   */

  predicate ReportsAll(errors: seq<Diagnostic>, reports: seq<Diagnostic>) {
    forall x :: x in reports ==> x in errors
  }

  lemma ReportsAllPrefix(a: seq<Diagnostic>, b: seq<Diagnostic>, reports: seq<Diagnostic>)
    requires ReportsAll(a, reports) && a <= b
    ensures ReportsAll(b, reports)
  {
    forall x | x in reports
      ensures x in b
    {
      InPrefix(a, b, x);
    }
  }

  /**
   * The reports a node makes itself (`this` or `super` misplaced, a read in
   * its own initializer) are among the reports of any expression containing
   * it.
   */
  lemma {:induction false} OwnErrorsReported(e: Expr, st: State, sub: Expr)
    requires Within(sub, e)
    ensures ReportsAll(ResolvedExpr(e, st).errors, ExprOwnErrors(sub, st.scopes, st.classType))
    decreases e, 1
  {
    if sub == e {
      if e.Assign? {
        assert ExprOwnErrors(e, st.scopes, st.classType) == [];
      }
    } else {
      match e
      case Unary(_, _, right) => OwnErrorsReported(right, st, sub);
      case Binary(_, _, _, _) => OperandsReported(e, st, sub);
      case Grouping(_, inner) => OwnErrorsReported(inner, st, sub);
      case Assign(_, _, value) => OwnErrorsReported(value, st, sub);
      case Logical(_, _, _, _) => OperandsReported(e, st, sub);
      case Call(_, callee, _, args) =>
        var mid := ResolvedExpr(callee, st);
        ExprFrame(callee, st);
        if Within(sub, callee) {
          OwnErrorsReported(callee, st, sub);
          ExprsFrame(args, mid);
          ReportsAllPrefix(mid.errors, ResolvedExpr(e, st).errors, ExprOwnErrors(sub, st.scopes, st.classType));
        } else {
          OwnErrorsReportedIn(args, mid, sub);
        }
      case Get(_, obj, _) => OwnErrorsReported(obj, st, sub);
      case Set(_, _, _, _) => OperandsReported(e, st, sub);
    }
  }

  lemma {:induction false} OperandsReported(e: Expr, st: State, sub: Expr)
    requires e.Binary? || e.Logical? || e.Set?
    requires Within(sub, e) && sub != e
    ensures ReportsAll(ResolvedExpr(e, st).errors, ExprOwnErrors(sub, st.scopes, st.classType))
    decreases e, 0
  {
    var first := if e.Set? then e.value else e.left;
    var second := if e.Set? then e.obj else e.right;
    var mid := ResolvedExpr(first, st);
    assert ResolvedExpr(e, st) == ResolvedExpr(second, mid);
    ExprFrame(first, st);
    if Within(sub, first) {
      OwnErrorsReported(first, st, sub);
      ExprFrame(second, mid);
      ReportsAllPrefix(mid.errors, ResolvedExpr(e, st).errors, ExprOwnErrors(sub, st.scopes, st.classType));
    } else {
      OwnErrorsReported(second, mid, sub);
    }
  }

  lemma {:induction false} OwnErrorsReportedIn(es: seq<Expr>, st: State, sub: Expr)
    requires WithinSome(sub, es)
    ensures ReportsAll(ResolvedExprs(es, st).errors, ExprOwnErrors(sub, st.scopes, st.classType))
    decreases es
  {
    var init := es[..|es| - 1];
    var last := es[|es| - 1];
    var mid := ResolvedExprs(init, st);
    ExprsFrame(init, st);
    if WithinSome(sub, init) {
      OwnErrorsReportedIn(init, st, sub);
      ExprFrame(last, mid);
      ReportsAllPrefix(mid.errors, ResolvedExprs(es, st).errors, ExprOwnErrors(sub, st.scopes, st.classType));
    } else {
      OwnErrorsReported(last, mid, sub);
    }
  }

  /** `this` anywhere in an expression resolved outside any class is reported. */
  lemma ThisOutsideClassReported(e: Expr, st: State, id: nat, keyword: Token)
    requires st.classType == ClassType.NONE && Within(This(id, keyword), e)
    ensures ErrorAt(keyword, ThisOutsideClassMessage) in ResolvedExpr(e, st).errors
  {
    OwnErrorsReported(e, st, This(id, keyword));
  }

  /**
   * `super` anywhere in an expression resolved outside a subclass is
   * reported: as outside a class, or as in a class without a superclass.
   */
  lemma SuperOutsideSubclassReported(e: Expr, st: State, id: nat, keyword: Token, methodName: Token)
    requires st.classType != ClassType.SUBCLASS && Within(Super(id, keyword, methodName), e)
    ensures ErrorAt(keyword, if st.classType == ClassType.NONE then SuperOutsideClassMessage
                             else SuperWithoutSuperclassMessage) in ResolvedExpr(e, st).errors
  {
    OwnErrorsReported(e, st, Super(id, keyword, methodName));
  }

  /*
   * Statements: splitting a list, and what the resolver reports or records
   * for a statement at a given position.
   */

  lemma {:induction false} StmtsSplit(ss: seq<Stmt>, j: nat, st: State)
    requires j <= |ss|
    ensures ResolvedStmts(ss, st) == ResolvedStmts(ss[j..], ResolvedStmts(ss[..j], st))
    decreases |ss|
  {
    if j == |ss| {
      assert ss[..j] == ss && ss[j..] == [];
    } else {
      var init := ss[..|ss| - 1];
      StmtsSplit(init, j, st);
      assert init[..j] == ss[..j];
      assert ss[j..][..|ss[j..]| - 1] == init[j..];
    }
  }

  /** The statements before position `k`, then statement `k`, then the rest. */
  lemma StmtsAround(ss: seq<Stmt>, k: nat, st: State)
    requires k < |ss|
    ensures ResolvedStmts(ss, st) == ResolvedStmts(ss[k + 1..], ResolvedStmt(ss[k], ResolvedStmts(ss[..k], st)))
  {
    StmtsSplit(ss, k + 1, st);
    assert ss[..k + 1][..k] == ss[..k];
  }

  lemma {:induction false} MethodsSplit(ms: seq<FunctionDecl>, j: nat, st: State)
    requires j <= |ms|
    ensures ResolvedMethods(ms, st) == ResolvedMethods(ms[j..], ResolvedMethods(ms[..j], st))
    decreases |ms|
  {
    if j == |ms| {
      assert ms[..j] == ms && ms[j..] == [];
    } else {
      var init := ms[..|ms| - 1];
      MethodsSplit(init, j, st);
      assert init[..j] == ms[..j];
      assert ms[j..][..|ms[j..]| - 1] == init[j..];
    }
  }

  /**
   * `r` is `s` or a statement nested in it through blocks, branches and loop
   * bodies; a function or class declaration starts a new context and is not
   * entered.
   */
  predicate Nested(r: Stmt, s: Stmt)
    decreases s
  {
    if r == s then true
    else match s
      case Block(ss) => NestedSome(r, ss)
      case If(_, thenBranch, elseBranch) => Nested(r, thenBranch) || (elseBranch.Some? && Nested(r, elseBranch.value))
      case While(_, body) => Nested(r, body)
      case _ => false
  }

  predicate NestedSome(r: Stmt, ss: seq<Stmt>)
    decreases ss
  {
    ss != [] && (NestedSome(r, ss[..|ss| - 1]) || Nested(r, ss[|ss| - 1]))
  }

  /**
   * The reports of a `return` statement, which depend only on the function
   * kind, are among the reports of every statement it is nested in.
   */
  lemma {:induction false} ReturnReported(s: Stmt, st: State, r: Stmt)
    requires r.Return? && Nested(r, s)
    ensures ReportsAll(ResolvedStmt(s, st).errors, StmtOwnErrors(r, st.scopes, st.functionType))
    decreases s, 1
  {
    var reports := StmtOwnErrors(r, st.scopes, st.functionType);
    if r == s {
      var checked := AfterReports(st, reports);
      if s.value.Some? {
        ExprFrame(s.value.value, checked);
        ReportsAllPrefix(checked.errors, ResolvedStmt(s, st).errors, reports);
      }
    } else {
      match s
      case Block(ss) =>
        ReturnReportedIn(ss, AfterBeginScope(st), r);
      case If(condition, thenBranch, elseBranch) =>
        var afterCondition := ResolvedExpr(condition, st);
        var afterThen := ResolvedStmt(thenBranch, afterCondition);
        ExprFrame(condition, st);
        if Nested(r, thenBranch) {
          ReturnReported(thenBranch, afterCondition, r);
          if elseBranch.Some? {
            StmtFrame(elseBranch.value, afterThen);
            ReportsAllPrefix(afterThen.errors, ResolvedStmt(s, st).errors, reports);
          }
        } else {
          StmtFrame(thenBranch, afterCondition);
          ReturnReported(elseBranch.value, afterThen, r);
        }
      case While(condition, body) =>
        ExprFrame(condition, st);
        ReturnReported(body, ResolvedExpr(condition, st), r);
    }
  }

  lemma {:induction false} ReturnReportedIn(ss: seq<Stmt>, st: State, r: Stmt)
    requires r.Return? && NestedSome(r, ss)
    ensures ReportsAll(ResolvedStmts(ss, st).errors, StmtOwnErrors(r, st.scopes, st.functionType))
    decreases ss
  {
    var reports := StmtOwnErrors(r, st.scopes, st.functionType);
    var init := ss[..|ss| - 1];
    var last := ss[|ss| - 1];
    var mid := ResolvedStmts(init, st);
    StmtsFrame(init, st);
    if NestedSome(r, init) {
      ReturnReportedIn(init, st, r);
      StmtFrame(last, mid);
      ReportsAllPrefix(mid.errors, ResolvedStmts(ss, st).errors, reports);
    } else {
      ReturnReported(last, mid, r);
    }
  }

  /** A `return` anywhere in top-level code, outside function and class declarations, is reported. */
  lemma TopLevelReturnReported(ss: seq<Stmt>, st: State, r: Stmt)
    requires st.functionType == FunctionType.NONE && r.Return? && NestedSome(r, ss)
    ensures ErrorAt(r.keyword, TopLevelReturnMessage) in ResolvedStmts(ss, st).errors
  {
    ReturnReportedIn(ss, st, r);
  }

  /**
   * In a local scope, a `var` declaration that repeats a name declared
   * earlier in the same statement list is reported.
   */
  lemma RedeclarationReported(ss: seq<Stmt>, st: State, k: nat)
    requires st.scopes != [] && k < |ss| && ss[k].Var? && ss[k].name.lexeme in DeclaredAll(ss[..k])
    ensures ErrorAt(ss[k].name, RedeclaredMessage) in ResolvedStmts(ss, st).errors
  {
    var s := ss[k];
    var report := ErrorAt(s.name, RedeclaredMessage);
    var before := ResolvedStmts(ss[..k], st);
    StmtsFrame(ss[..k], st);
    assert s.name.lexeme in Top(before.scopes);
    var declared := AfterDeclare(before, s.name);
    assert report in declared.errors;
    var at := ResolvedStmt(s, before);
    if s.initializer.Some? {
      ExprFrame(s.initializer.value, declared);
      InPrefix(declared.errors, at.errors, report);
    }
    StmtsAround(ss, k, st);
    StmtsFrame(ss[k + 1..], at);
    InPrefix(at.errors, ResolvedStmts(ss, st).errors, report);
  }

  /** In a local scope, `var a = … a …;` reports the read of `a` in its own initializer. */
  lemma SelfInitializerReported(s: Stmt, st: State, id: nat, reference: Token)
    requires s.Var? && s.initializer.Some? && st.scopes != []
    requires Within(Variable(id, reference), s.initializer.value) && reference.lexeme == s.name.lexeme
    ensures ErrorAt(reference, OwnInitializerMessage) in ResolvedStmt(s, st).errors
  {
    var declared := AfterDeclare(st, s.name);
    assert ExprOwnErrors(Variable(id, reference), declared.scopes, declared.classType)
      == [ErrorAt(reference, OwnInitializerMessage)];
    OwnErrorsReported(s.initializer.value, declared, Variable(id, reference));
  }

  /** A `return` with a value anywhere in an initializer's body, outside nested declarations, is reported. */
  lemma InitializerReturnReported(d: FunctionDecl, st: State, keyword: Token, value: Expr)
    requires NestedSome(Return(keyword, Some(value)), d.body)
    ensures ErrorAt(keyword, InitializerReturnMessage) in ResolvedFunction(d, FunctionType.INITIALIZER, st).errors
  {
    var inner := BodyState(d, FunctionType.INITIALIZER, st);
    ReturnReportedIn(d.body, inner, Return(keyword, Some(value)));
  }

  /**
   * A reference statement `k` of a function body that neither a parameter
   * nor an earlier statement of the body declares resolves one hop further
   * out than it would outside the function.
   */
  lemma BodyReferenceRecorded(d: FunctionDecl, kind: FunctionType, st: State, k: nat, ref: Expr, n: nat)
    requires ref.Variable? || ref.This? || ref.Super?
    requires k < |d.body| && d.body[k] == Expression(ref)
    requires ReferenceName(ref).value !in ParamScope(d.params) && ReferenceName(ref).value !in DeclaredAll(d.body[..k])
    requires Distance(st.scopes, ReferenceName(ref).value) == Some(n)
    requires ref.id !in StmtsIds(d.body[k + 1..])
    ensures var r := ResolvedFunction(d, kind, st); ref.id in r.locals && r.locals[ref.id] == n + 1
  {
    var name := ReferenceName(ref).value;
    var inner := BodyState(d, kind, st);
    var before := ResolvedStmts(d.body[..k], inner);
    StmtsFrame(d.body[..k], inner);
    var top := DefineAll(ParamScope(d.params), DeclaredAll(d.body[..k]));
    assert before.scopes == st.scopes + [top];
    DistanceThroughScope(st.scopes, top, name);
    var at := ResolvedStmt(d.body[k], before);
    ReferenceStmtRecorded(ref, before);
    StmtsAround(d.body, k, inner);
    StmtsFrame(d.body[k + 1..], at);
  }

  /** A reference standing as a statement records its distance and nothing else. */
  lemma ReferenceStmtRecorded(ref: Expr, st: State)
    requires ref.Variable? || ref.This? || ref.Super?
    requires Distance(st.scopes, ReferenceName(ref).value).Some?
    ensures ResolvedStmt(Expression(ref), st).locals
      == st.locals[ref.id := Distance(st.scopes, ReferenceName(ref).value).value]
  {
  }

  /** After its methods, a class declaration only closes scopes and restores the class kind. */
  lemma ClassClosing(s: Stmt, st: State)
    requires s.Class?
    ensures var body := ResolvedMethods(s.methods, EnteredClass(s, st));
      ResolvedStmt(s, st).errors == body.errors && ResolvedStmt(s, st).locals == body.locals
  {
  }

  /** In the class body scopes themselves, `this` is in the innermost scope and `super` in the next. */
  lemma ClassBodyDistances(outer: seq<Scope>, hasSuperclass: bool)
    ensures Distance(ClassBodyScopes(outer, hasSuperclass), "this") == Some(0)
    ensures hasSuperclass ==> Distance(ClassBodyScopes(outer, hasSuperclass), "super") == Some(1)
  {
    ThisDistance(outer, hasSuperclass, []);
    assert ClassBodyScopes(outer, hasSuperclass) + [] == ClassBodyScopes(outer, hasSuperclass);
    if hasSuperclass {
      SuperDistance(outer, []);
    }
  }

  /** The state method `j` of a class is resolved in. */
  function MethodState(s: Stmt, st: State, j: nat): State
    requires s.Class? && j <= |s.methods|
  {
    ResolvedMethods(s.methods[..j], EnteredClass(s, st))
  }

  /** Each method of a class sees the class body scopes and the class kind. */
  lemma MethodContext(s: Stmt, st: State, j: nat)
    requires s.Class? && j < |s.methods|
    ensures MethodState(s, st, j).scopes == ClassBodyScopes(ScopesAfter(st.scopes, {s.name.lexeme}), s.superclass.Some?)
    ensures MethodState(s, st, j).classType == if s.superclass.Some? then ClassType.SUBCLASS else ClassType.CLASS
  {
    EnteredClassFrame(s, st);
    MethodsFrame(s.methods[..j], EnteredClass(s, st));
  }

  /** What method `j` reports survives, and what it records is changed only by the later methods. */
  lemma AfterMethod(s: Stmt, st: State, j: nat)
    requires s.Class? && j < |s.methods|
    ensures var after := ResolvedFunction(s.methods[j], MethodKind(s.methods[j]), MethodState(s, st, j));
      var r := ResolvedStmt(s, st);
      after.errors <= r.errors && LocalsWithin(after.locals, r.locals, DeclsIds(s.methods[j + 1..]))
  {
    var e := EnteredClass(s, st);
    var after := ResolvedFunction(s.methods[j], MethodKind(s.methods[j]), MethodState(s, st, j));
    MethodsSplit(s.methods, j + 1, e);
    assert s.methods[..j + 1][..j] == s.methods[..j];
    assert ResolvedMethods(s.methods[..j + 1], e) == after;
    MethodsFrame(s.methods[j + 1..], after);
    ClassClosing(s, st);
  }

  /** `return <value>` anywhere in a class's `init` method, outside nested declarations, is reported. */
  lemma InitializerReturnInClassReported(s: Stmt, st: State, j: nat, keyword: Token, value: Expr)
    requires s.Class? && j < |s.methods| && s.methods[j].name.lexeme == "init"
    requires NestedSome(Return(keyword, Some(value)), s.methods[j].body)
    ensures ErrorAt(keyword, InitializerReturnMessage) in ResolvedStmt(s, st).errors
  {
    var m := s.methods[j];
    InitializerReturnReported(m, MethodState(s, st, j), keyword, value);
    AfterMethod(s, st, j);
    InPrefix(ResolvedFunction(m, MethodKind(m), MethodState(s, st, j)).errors, ResolvedStmt(s, st).errors,
      ErrorAt(keyword, InitializerReturnMessage));
  }

  /** `this` as a statement of a method body resolves one hop out, to the class's `this` scope. */
  lemma ThisInMethodRecorded(s: Stmt, st: State, j: nat, k: nat, id: nat, keyword: Token)
    requires s.Class? && j < |s.methods| && k < |s.methods[j].body|
    requires s.methods[j].body[k] == Expression(This(id, keyword)) && keyword.lexeme == "this"
    requires "this" !in ParamScope(s.methods[j].params) && "this" !in DeclaredAll(s.methods[j].body[..k])
    requires id !in StmtsIds(s.methods[j].body[k + 1..]) && id !in DeclsIds(s.methods[j + 1..])
    ensures var r := ResolvedStmt(s, st); id in r.locals && r.locals[id] == 1
  {
    var m := s.methods[j];
    var outer := ScopesAfter(st.scopes, {s.name.lexeme});
    MethodContext(s, st, j);
    ClassBodyDistances(outer, s.superclass.Some?);
    BodyReferenceRecorded(m, MethodKind(m), MethodState(s, st, j), k, This(id, keyword), 0);
    AfterMethod(s, st, j);
  }

  /** `super.method` as a statement of a subclass's method body resolves two hops out, to the `super` scope. */
  lemma SuperInMethodRecorded(s: Stmt, st: State, j: nat, k: nat, id: nat, keyword: Token, methodName: Token)
    requires s.Class? && s.superclass.Some? && j < |s.methods| && k < |s.methods[j].body|
    requires s.methods[j].body[k] == Expression(Super(id, keyword, methodName)) && keyword.lexeme == "super"
    requires "super" !in ParamScope(s.methods[j].params) && "super" !in DeclaredAll(s.methods[j].body[..k])
    requires id !in StmtsIds(s.methods[j].body[k + 1..]) && id !in DeclsIds(s.methods[j + 1..])
    ensures var r := ResolvedStmt(s, st); id in r.locals && r.locals[id] == 2
  {
    var m := s.methods[j];
    var outer := ScopesAfter(st.scopes, {s.name.lexeme});
    MethodContext(s, st, j);
    ClassBodyDistances(outer, true);
    BodyReferenceRecorded(m, MethodKind(m), MethodState(s, st, j), k, Super(id, keyword, methodName), 1);
    AfterMethod(s, st, j);
  }
}
