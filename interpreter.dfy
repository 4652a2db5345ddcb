/**
 * The evaluator as it stands: literals evaluate to their value, groupings
 * to their inner expression, and binary and unary expressions to the
 * constant 1 whatever their operands. The other eight kinds have no visit
 * method yet, so evaluating one fails.
 */
module Interpreting {
  import opened Types
  import opened Expressions

  /**
   * The value of `e`, or `None` when dispatch reaches a node kind the
   * evaluator has no visit method for.
   */
  function Evaluate(e: Expr): (r: Option<Value>)
    ensures e.Literal? ==> r == Some(e.literal)
    ensures e.Binary? || e.Unary? ==> r == Some(Number(1))
    ensures !(e.Literal? || e.Grouping? || e.Binary? || e.Unary?) ==> r.None?
  {
    match e
    case Literal(_, value) => Some(value)
    case Binary(_, _, _, _) => Some(Number(1))
    case Grouping(_, inner) => Evaluate(inner)
    case Unary(_, _, _) => Some(Number(1))
    case _ => None
  }

  /** `e` with its enclosing groupings taken off. */
  function Ungrouped(e: Expr): (r: Expr)
    ensures !r.Grouping?
  {
    if e.Grouping? then Ungrouped(e.expression) else e
  }

  /**
   * Groupings are transparent: `e` has the value of the expression inside
   * its parentheses, and evaluation succeeds exactly when that expression
   * is a literal, a binary or a unary expression.
   */
  lemma {:induction false} EvaluateSeesThroughGroupings(e: Expr)
    ensures Evaluate(e) == Evaluate(Ungrouped(e))
    ensures Evaluate(e).Some? <==> Ungrouped(e).Literal? || Ungrouped(e).Binary? || Ungrouped(e).Unary?
  {
    if e.Grouping? {
      EvaluateSeesThroughGroupings(e.expression);
    }
  }

  /** Trees built only from literals, groupings, binary and unary expressions. */
  predicate Arithmetic(e: Expr) {
    match e
    case Literal(_, _) => true
    case Grouping(_, inner) => Arithmetic(inner)
    case Binary(_, left, _, right) => Arithmetic(left) && Arithmetic(right)
    case Unary(_, _, right) => Arithmetic(right)
    case _ => false
  }

  /** The values stored in the literals of `e` that evaluation can reach. */
  function ReachableLiterals(e: Expr): set<Value> {
    match e
    case Literal(_, value) => {value}
    case Grouping(_, inner) => ReachableLiterals(inner)
    case _ => {}
  }

  /**
   * Evaluating a tree of literals, groupings, binary and unary expressions
   * never fails, and gives either a literal's value or the constant 1.
   */
  lemma {:induction false} ArithmeticEvaluates(e: Expr)
    requires Arithmetic(e)
    ensures Evaluate(e).Some?
    ensures Evaluate(e).value == Number(1) || Evaluate(e).value in ReachableLiterals(e)
  {
    if e.Grouping? {
      ArithmeticEvaluates(e.expression);
    }
  }

  /** The text of a value: `null` becomes "nil", everything else is returned as it is. */
  function Stringify(v: Value): (r: Value)
    ensures v == Nil ==> r == Str("nil")
    ensures v != Nil ==> r == v
  {
    if v == Nil then Str("nil") else v
  }

  /** Stringifying never yields null, and doing it twice changes nothing more; `undefined` is left alone. */
  lemma StringifyIdempotent(v: Value)
    ensures Stringify(v) != Nil && Stringify(v).Str? == (v == Nil || v.Str?)
    ensures Stringify(Stringify(v)) == Stringify(v)
    ensures Stringify(Undefined) == Undefined
  {
  }
}
