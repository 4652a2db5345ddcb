/**
 * Statement syntax trees: the six kinds of the statement visitor, plus the
 * function, return and class declarations the resolver visits.
 */
module Statements {
  import opened Types
  import opened Expressions

  datatype Stmt =
    | Print(expression: Expr)
    | Expression(expression: Expr)
    | Var(name: Token, initializer: Option<Expr>)
    | Block(statements: seq<Stmt>)
    | If(condition: Expr, thenBranch: Stmt, elseBranch: Option<Stmt>)
    | While(condition: Expr, body: Stmt)
    | Function(decl: FunctionDecl)
    | Return(keyword: Token, value: Option<Expr>)
    | Class(name: Token, superclass: Option<VariableExpr>, methods: seq<FunctionDecl>)

  /** A function or method declaration: its name, parameters and body. */
  datatype FunctionDecl = FunctionDecl(name: Token, params: seq<Token>, body: seq<Stmt>)

  /** The ids of all expression nodes inside a statement. */
  function StmtIds(s: Stmt): set<nat> {
    match s
    case Print(e) => Ids(e)
    case Expression(e) => Ids(e)
    case Var(_, init) => if init.Some? then Ids(init.value) else {}
    case Block(ss) => StmtsIds(ss)
    case If(c, t, e) => Ids(c) + StmtIds(t) + (if e.Some? then StmtIds(e.value) else {})
    case While(c, b) => Ids(c) + StmtIds(b)
    case Function(d) => DeclIds(d)
    case Return(_, v) => if v.Some? then Ids(v.value) else {}
    case Class(_, sup, ms) => (if sup.Some? then Ids(sup.value) else {}) + DeclsIds(ms)
  }

  function StmtsIds(ss: seq<Stmt>): set<nat> {
    if ss == [] then {} else StmtsIds(ss[..|ss| - 1]) + StmtIds(ss[|ss| - 1])
  }

  function DeclIds(d: FunctionDecl): set<nat> {
    StmtsIds(d.body)
  }

  function DeclsIds(ds: seq<FunctionDecl>): set<nat> {
    if ds == [] then {} else DeclsIds(ds[..|ds| - 1]) + DeclIds(ds[|ds| - 1])
  }

  /**
   * The names a statement declares in the scope it runs in: a variable,
   * function or class declaration, and those of an unbraced branch or loop
   * body. A block's declarations stay inside the block.
   */
  function Declared(s: Stmt): set<string> {
    match s
    case Var(name, _) => {name.lexeme}
    case Function(d) => {d.name.lexeme}
    case Class(name, _, _) => {name.lexeme}
    case If(_, t, e) => Declared(t) + (if e.Some? then Declared(e.value) else {})
    case While(_, b) => Declared(b)
    case _ => {}
  }

  function DeclaredAll(ss: seq<Stmt>): set<string> {
    if ss == [] then {} else DeclaredAll(ss[..|ss| - 1]) + Declared(ss[|ss| - 1])
  }
}
