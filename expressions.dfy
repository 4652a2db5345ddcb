/**
 * Expression syntax trees. Every node carries an `id` that stands for its
 * object identity: the resolver's side table is keyed by it, so two nodes
 * that look alike are still told apart.
 */
module Expressions {
  import opened Types

  /**
   * The twelve expression kinds, each with the fields of its node class.
   * Nodes are immutable values, as the source's `readonly` fields are.
   */
  datatype Expr =
    | Literal(id: nat, literal: Value)
    | Unary(id: nat, operator: Token, right: Expr)
    | Binary(id: nat, left: Expr, operator: Token, right: Expr)
    | Grouping(id: nat, expression: Expr)
    | Variable(id: nat, name: Token)
    | Assign(id: nat, name: Token, value: Expr)
    | Logical(id: nat, left: Expr, operator: Token, right: Expr)
    | Call(id: nat, callee: Expr, paren: Token, args: seq<Expr>)
    | Get(id: nat, obj: Expr, name: Token)
    | Set(id: nat, obj: Expr, name: Token, value: Expr)
    | This(id: nat, keyword: Token)
    | Super(id: nat, keyword: Token, methodName: Token)

  /** A class statement names its superclass through a `Variable` node. */
  type VariableExpr = e: Expr | e.Variable? witness Variable(0, Token(IDENTIFIER, "", Nil, None))

  /** The ids of all nodes of `e`, `e` itself included. */
  function Ids(e: Expr): (r: set<nat>)
    ensures e.id in r
  {
    match e
    case Literal(id, _) => {id}
    case Unary(id, _, right) => {id} + Ids(right)
    case Binary(id, left, _, right) => {id} + Ids(left) + Ids(right)
    case Grouping(id, inner) => {id} + Ids(inner)
    case Variable(id, _) => {id}
    case Assign(id, _, value) => {id} + Ids(value)
    case Logical(id, left, _, right) => {id} + Ids(left) + Ids(right)
    case Call(id, callee, _, args) => {id} + Ids(callee) + IdsOfAll(args)
    case Get(id, obj, _) => {id} + Ids(obj)
    case Set(id, obj, _, value) => {id} + Ids(obj) + Ids(value)
    case This(id, _) => {id}
    case Super(id, _, _) => {id}
  }

  /** The ids of all nodes of a list of expressions. */
  function IdsOfAll(es: seq<Expr>): (r: set<nat>)
    ensures forall k :: 0 <= k < |es| ==> Ids(es[k]) <= r
  {
    if es == [] then {} else IdsOfAll(es[..|es| - 1]) + Ids(es[|es| - 1])
  }
}
