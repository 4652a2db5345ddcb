/**
 * The expression printer: binary, unary and grouping expressions print
 * in prefix form inside parentheses, literals print their text, and the
 * remaining eight kinds print "not implemented".
 */
module Printing {
  import opened Types
  import opened Decimal
  import opened Expressions

  const NotImplemented := "not implemented"

  /** The nesting depth through the node kinds the printer descends into. */
  function Depth(e: Expr): nat {
    match e
    case Binary(_, left, _, right) => 1 + Max(Depth(left), Depth(right))
    case Grouping(_, inner) => 1 + Depth(inner)
    case Unary(_, _, right) => 1 + Depth(right)
    case _ => 0
  }

  function Max(a: nat, b: nat): nat {
    if a < b then b else a
  }

  function MaxDepth(es: seq<Expr>): (r: nat)
    ensures forall k :: 0 <= k < |es| ==> Depth(es[k]) <= r
  {
    if es == [] then 0 else Max(MaxDepth(es[..|es| - 1]), Depth(es[|es| - 1]))
  }

  lemma MaxDepthOfOne(a: Expr)
    ensures MaxDepth([a]) == Depth(a)
  {
    assert [a][..0] == [];
  }

  lemma MaxDepthOfPair(a: Expr, b: Expr)
    ensures MaxDepth([a, b]) == Max(Depth(a), Depth(b))
  {
    assert [a, b][..1] == [a];
    MaxDepthOfOne(a);
  }

  /** The text of a literal's value. */
  function LiteralText(v: Value): string {
    match v
    case Nil => "nil"
    case Undefined => "nil"
    case Number(n) => IntToString(n) + ".0"
    case Bool(b) => if b then "true" else "false"
    case Str(s) => s
  }

  function Print(e: Expr): string
    decreases Depth(e), 1, 0
  {
    match e
    case Binary(_, left, operator, right) =>
      MaxDepthOfPair(left, right);
      Parenthesize(operator.lexeme, [left, right])
    case Grouping(_, inner) =>
      MaxDepthOfOne(inner);
      Parenthesize("group", [inner])
    case Literal(_, value) => LiteralText(value)
    case Unary(_, operator, right) =>
      MaxDepthOfOne(right);
      Parenthesize(operator.lexeme, [right])
    case _ => NotImplemented
  }

  /** `name` and the printed expressions, each after a blank, in parentheses. */
  function Parenthesize(name: string, es: seq<Expr>): string
    decreases MaxDepth(es), 3, 0
  {
    "(" + name + Printed(es) + ")"
  }

  /** The fold over the expressions: each printed after a blank, in order. */
  function Printed(es: seq<Expr>): string
    decreases MaxDepth(es), 2, |es|
  {
    if es == [] then "" else Printed(es[..|es| - 1]) + " " + Print(es[|es| - 1])
  }

  lemma PrintedOfOne(a: Expr)
    ensures Printed([a]) == " " + Print(a)
  {
    assert [a][..0] == [];
  }

  lemma PrintedOfPair(a: Expr, b: Expr)
    ensures Printed([a, b]) == " " + Print(a) + " " + Print(b)
  {
    assert [a, b][..1] == [a];
    PrintedOfOne(a);
  }

  lemma PrintBinary(id: nat, left: Expr, operator: Token, right: Expr)
    ensures Print(Binary(id, left, operator, right)) == "(" + operator.lexeme + " " + Print(left) + " " + Print(right) + ")"
  {
    PrintedOfPair(left, right);
  }

  lemma PrintUnary(id: nat, operator: Token, right: Expr)
    ensures Print(Unary(id, operator, right)) == "(" + operator.lexeme + " " + Print(right) + ")"
  {
    PrintedOfOne(right);
  }

  lemma PrintGrouping(id: nat, inner: Expr)
    ensures Print(Grouping(id, inner)) == "(group " + Print(inner) + ")"
  {
    PrintedOfOne(inner);
    assert "(" + "group" + " " + Print(inner) + ")" == "(group " + Print(inner) + ")";
  }

  /**
   * Binary prints as `(op left right)`, unary as `(op operand)` and a
   * grouping as `(group inner)`.
   */
  lemma PrintShapes(e: Expr)
    ensures e.Binary? ==> Print(e) == "(" + e.operator.lexeme + " " + Print(e.left) + " " + Print(e.right) + ")"
    ensures e.Unary? ==> Print(e) == "(" + e.operator.lexeme + " " + Print(e.right) + ")"
    ensures e.Grouping? ==> Print(e) == "(group " + Print(e.expression) + ")"
  {
    match e
    case Binary(id, left, operator, right) => PrintBinary(id, left, operator, right);
    case Unary(id, operator, right) => PrintUnary(id, operator, right);
    case Grouping(id, inner) => PrintGrouping(id, inner);
    case _ =>
  }

  /** The eight kinds without a printer of their own print "not implemented". */
  lemma UnimplementedKinds(e: Expr)
    requires e.Variable? || e.Assign? || e.Logical? || e.Call? || e.Get? || e.Set? || e.This? || e.Super?
    ensures Print(e) == "not implemented"
  {
  }

  /**
   * An integer literal prints as its decimal digits followed by ".0"; for a
   * non-negative value, reading the digits back gives the number.
   */
  lemma {:induction false} NumberLiteralRoundTrip(id: nat, n: nat)
    ensures var s := Print(Literal(id, Number(n)));
      |s| > 2 && s[|s| - 2..] == ".0"
      && (forall k :: 0 <= k < |s| - 2 ==> IsDigit(s[k]))
      && ParseNat(s[..|s| - 2]) == n
  {
    var s := Print(Literal(id, Number(n)));
    assert s == NatToString(n) + ".0";
    assert s[..|s| - 2] == NatToString(n);
    ParseNatToString(n);
  }

  /** The number of occurrences of `c` in `s`. */
  function Count(s: string, c: char): nat {
    if s == [] then 0 else Count(s[..|s| - 1], c) + (if s[|s| - 1] == c then 1 else 0)
  }

  lemma {:induction false} CountAppend(s: string, t: string, c: char)
    ensures Count(s + t, c) == Count(s, c) + Count(t, c)
    decreases |t|
  {
    if t != [] {
      assert (s + t)[..|s + t| - 1] == s + t[..|t| - 1];
      assert (s + t)[|s + t| - 1] == t[|t| - 1];
      CountAppend(s, t[..|t| - 1], c);
    } else {
      assert s + t == s;
    }
  }

  /** Neither parenthesis occurs in `s`. */
  predicate ParenFree(s: string) {
    '(' !in s && ')' !in s
  }

  /** The operator lexemes and string literals that `Print` shows are free of parentheses. */
  predicate ParenFreeLeaves(e: Expr) {
    match e
    case Binary(_, left, operator, right) => ParenFree(operator.lexeme) && ParenFreeLeaves(left) && ParenFreeLeaves(right)
    case Grouping(_, inner) => ParenFreeLeaves(inner)
    case Unary(_, operator, right) => ParenFree(operator.lexeme) && ParenFreeLeaves(right)
    case Literal(_, value) => value.Str? ==> ParenFree(value.s)
    case _ => true
  }

  lemma {:induction false} ParenFreeCount(s: string)
    requires ParenFree(s)
    ensures Count(s, '(') == 0 && Count(s, ')') == 0
  {
    if s != [] {
      ParenFreeCount(s[..|s| - 1]);
    }
  }

  /** The decimal text of an integer has no parentheses. */
  lemma IntTextParenFree(n: int)
    ensures ParenFree(IntToString(n))
  {
    var s := IntToString(n);
    if n < 0 {
      assert forall k :: 1 <= k < |s| ==> s[k] == NatToString(-n)[k - 1];
    }
  }

  /**
   * When the leaves are free of parentheses, the printed text opens as
   * many parentheses as it closes.
   */
  lemma {:induction false} PrintBalanced(e: Expr)
    requires ParenFreeLeaves(e)
    ensures Count(Print(e), '(') == Count(Print(e), ')')
    decreases e
  {
    match e
    case Binary(_, left, operator, right) =>
      PrintShapes(e);
      PrintBalanced(left);
      PrintBalanced(right);
      WrapTwo(operator.lexeme, Print(left), Print(right));
    case Grouping(_, inner) =>
      PrintShapes(e);
      PrintBalanced(inner);
      WrapOne("group", Print(inner));
      assert "(" + "group" + " " == "(group ";
    case Unary(_, operator, right) =>
      PrintShapes(e);
      PrintBalanced(right);
      WrapOne(operator.lexeme, Print(right));
    case Literal(_, value) =>
      if value.Number? {
        IntTextParenFree(value.n);
        CountAppend(IntToString(value.n), ".0", '(');
        CountAppend(IntToString(value.n), ".0", ')');
      }
      ParenFreeCount(LiteralText(value));
    case _ =>
      ParenFreeCount(NotImplemented);
  }

  /** `(name part)` is balanced when `part` is and `name` has no parentheses. */
  lemma WrapOne(name: string, part: string)
    requires ParenFree(name) && Count(part, '(') == Count(part, ')')
    ensures var s := "(" + name + " " + part + ")"; Count(s, '(') == Count(s, ')')
  {
    ParenFreeCount(name);
    forall c | c == '(' || c == ')'
      ensures Count("(" + name + " " + part + ")", c)
        == Count("(", c) + Count(name, c) + Count(" ", c) + Count(part, c) + Count(")", c)
    {
      CountAppend("(", name, c);
      CountAppend("(" + name, " ", c);
      CountAppend("(" + name + " ", part, c);
      CountAppend("(" + name + " " + part, ")", c);
    }
  }

  /** `(name left right)` is balanced when both parts are and `name` has no parentheses. */
  lemma WrapTwo(name: string, left: string, right: string)
    requires ParenFree(name)
    requires Count(left, '(') == Count(left, ')') && Count(right, '(') == Count(right, ')')
    ensures var s := "(" + name + " " + left + " " + right + ")"; Count(s, '(') == Count(s, ')')
  {
    ParenFreeCount(name);
    forall c | c == '(' || c == ')'
      ensures Count("(" + name + " " + left + " " + right + ")", c)
        == Count("(", c) + Count(name, c) + Count(" ", c) + Count(left, c) + Count(" ", c) + Count(right, c) + Count(")", c)
    {
      CountAppend("(", name, c);
      CountAppend("(" + name, " ", c);
      CountAppend("(" + name + " ", left, c);
      CountAppend("(" + name + " " + left, " ", c);
      CountAppend("(" + name + " " + left + " ", right, c);
      CountAppend("(" + name + " " + left + " " + right, ")", c);
    }
  }
}
