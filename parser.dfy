/**
 * The parser's token cursor and its one grammar rule so far: a literal.
 * The cursor never moves past the EOF token that ends the list, so
 * `peek` and `previous` always find a token.
 */
module Parsing {
  import opened Types
  import opened Expressions

  /** A token list the cursor can walk: non-empty and ending in EOF. */
  predicate EndsInEof(tokens: seq<Token>) {
    |tokens| > 0 && tokens[|tokens| - 1].tokenType == EOF
  }

  /** Where `advance` leaves the cursor: one step on, unless it is on an EOF token. */
  function NextPosition(tokens: seq<Token>, position: nat): (r: nat)
    requires EndsInEof(tokens) && position < |tokens|
    ensures r < |tokens|
    ensures r == position <==> tokens[position].tokenType == EOF
    ensures r != position ==> r == position + 1
  {
    if tokens[position].tokenType == EOF then position else position + 1
  }

  /** The cursor after `n` calls of `advance`. */
  function AdvanceTimes(tokens: seq<Token>, position: nat, n: nat): (r: nat)
    requires EndsInEof(tokens) && position < |tokens|
    ensures r < |tokens|
    decreases n
  {
    if n == 0 then position else AdvanceTimes(tokens, NextPosition(tokens, position), n - 1)
  }

  /**
   * However often `advance` is called, the cursor never steps over an EOF
   * token: every token before it is not EOF, and it only moves forward.
   */
  lemma {:induction false} AdvanceNeverPassesEof(tokens: seq<Token>, position: nat, n: nat)
    requires EndsInEof(tokens) && position < |tokens|
    requires forall k :: 0 <= k < position ==> tokens[k].tokenType != EOF
    ensures var r := AdvanceTimes(tokens, position, n);
      position <= r && forall k :: 0 <= k < r ==> tokens[k].tokenType != EOF
    decreases n
  {
    if n > 0 {
      var next := NextPosition(tokens, position);
      assert forall k :: 0 <= k < next ==> tokens[k].tokenType != EOF by {
        if next != position {
          assert tokens[position].tokenType != EOF;
        }
      }
      AdvanceNeverPassesEof(tokens, next, n - 1);
    }
  }

  /** Once on EOF, `advance` keeps the cursor where it is. */
  lemma {:induction false} AdvanceStaysAtEof(tokens: seq<Token>, position: nat, n: nat)
    requires EndsInEof(tokens) && position < |tokens| && tokens[position].tokenType == EOF
    ensures AdvanceTimes(tokens, position, n) == position
  {
    if n > 0 {
      AdvanceStaysAtEof(tokens, position, n - 1);
    }
  }

  /** The value `primary` makes a literal of, for the token types it accepts. */
  function LiteralOf(token: Token): (r: Option<Value>)
    ensures r.Some? <==> token.tokenType in {TRUE, FALSE, NIL, NUMBER}
    ensures token.tokenType == NUMBER ==> r == Some(token.literal)
  {
    match token.tokenType
    case TRUE => Some(Bool(true))
    case FALSE => Some(Bool(false))
    case NIL => Some(Nil)
    case NUMBER => Some(token.literal)
    case _ => None
  }

  /** What `parse` yields for a whole token list: the literal of its first token, or nothing. */
  function ParseSpec(tokens: seq<Token>): (r: Option<Value>)
    requires EndsInEof(tokens)
    ensures r.Some? ==> tokens[0].tokenType != EOF && |tokens| > 1
  {
    LiteralOf(tokens[0])
  }

  /** `parse` on `true EOF` and on `nil EOF` yields the literal; on EOF alone it yields nothing. */
  lemma ParseExamples()
    ensures ParseSpec([Token(TRUE, "true", Nil, None), Token(EOF, "", Nil, None)]) == Some(Bool(true))
    ensures ParseSpec([Token(NIL, "nil", Nil, None), Token(EOF, "", Nil, None)]) == Some(Nil)
    ensures ParseSpec([Token(EOF, "", Nil, None)]) == None
  {
  }

  /** The outcome of a grammar rule: a tree, or the parse error it raised. */
  datatype Parsed = Parsed(expr: Expr) | ParseError(message: string)

  class Parser {
    const tokens: seq<Token>
    var position: nat
    /** The id the next expression node gets; it stands for node identity. */
    var nextId: nat

    ghost predicate Valid()
      reads this
    {
      EndsInEof(tokens) && position < |tokens|
    }

    constructor(tokens: seq<Token>)
      requires EndsInEof(tokens)
      ensures Valid() && this.tokens == tokens && position == 0 && nextId == 0
    {
      this.tokens := tokens;
      position := 0;
      nextId := 0;
    }

    function Peek(): (t: Token)
      requires Valid()
      reads this
      ensures t in tokens
    {
      tokens[position]
    }

    predicate IsAtEnd()
      requires Valid()
      reads this
    {
      Peek().tokenType == EOF
    }

    /** False at the end even when asked for EOF; otherwise whether the current token has type `t`. */
    predicate Check(t: TokenType)
      requires Valid()
      reads this
    {
      !IsAtEnd() && Peek().tokenType == t
    }

    /** The token before the cursor; only asked for once something was consumed. */
    function Previous(): (t: Token)
      requires Valid() && 0 < position
      reads this
      ensures t in tokens
    {
      tokens[position - 1]
    }

    /**
     * Steps over the current token unless it is EOF and returns the token
     * before the new position. The source fails when that token does not
     * exist, that is when it is called on EOF at the very start.
     */
    method Advance() returns (t: Token)
      requires Valid() && (0 < position || !IsAtEnd())
      modifies this
      ensures Valid() && nextId == old(nextId)
      ensures position == NextPosition(tokens, old(position))
      ensures 0 < position && t == tokens[position - 1]
    {
      if !IsAtEnd() {
        position := position + 1;
      }
      t := Previous();
    }

    /**
     * Consumes the current token when one of `types` checks true for it.
     * It consumes at most one token, and none when it answers false.
     */
    method Match(types: seq<TokenType>) returns (matched: bool)
      requires Valid()
      modifies this
      ensures Valid() && nextId == old(nextId)
      ensures matched <==> old(tokens[position]).tokenType != EOF && old(tokens[position]).tokenType in types
      ensures position == if matched then old(position) + 1 else old(position)
    {
      var i := 0;
      while i < |types|
        invariant 0 <= i <= |types|
        invariant Valid() && position == old(position) && nextId == old(nextId)
        invariant forall k :: 0 <= k < i ==> !Check(types[k])
      {
        if Check(types[i]) {
          var _ := Advance();
          return true;
        }
        i := i + 1;
      }
      return false;
    }

    /** A new literal node, with a fresh id. */
    method NewLiteral(value: Value) returns (e: Expr)
      requires Valid()
      modifies this
      ensures Valid() && position == old(position)
      ensures e == Literal(old(nextId), value) && nextId == old(nextId) + 1
    {
      e := Literal(nextId, value);
      nextId := nextId + 1;
    }

    /**
     * `true`, `false`, `nil` and a number become a literal and are consumed;
     * anything else is a parse error ("unsupported syntax") and nothing is consumed.
     */
    method Primary() returns (r: Parsed)
      requires Valid()
      modifies this
      ensures Valid()
      ensures LiteralOf(old(tokens[position])).Some? ==>
        r == Parsed(Literal(old(nextId), LiteralOf(old(tokens[position])).value))
        && position == old(position) + 1 && nextId == old(nextId) + 1
      ensures LiteralOf(old(tokens[position])).None? ==>
        r == ParseError("unsupported syntax") && position == old(position) && nextId == old(nextId)
    {
      var matched := Match([TRUE]);
      if matched {
        var e := NewLiteral(Bool(true));
        return Parsed(e);
      }
      matched := Match([FALSE]);
      if matched {
        var e := NewLiteral(Bool(false));
        return Parsed(e);
      }
      matched := Match([NIL]);
      if matched {
        var e := NewLiteral(Nil);
        return Parsed(e);
      }
      matched := Match([NUMBER]);
      if matched {
        var e := NewLiteral(Previous().literal);
        return Parsed(e);
      }
      r := ParseError("unsupported syntax");
    }

    method Expression() returns (r: Parsed)
      requires Valid()
      modifies this
      ensures Valid()
      ensures LiteralOf(old(tokens[position])).Some? ==>
        r == Parsed(Literal(old(nextId), LiteralOf(old(tokens[position])).value))
        && position == old(position) + 1 && nextId == old(nextId) + 1
      ensures LiteralOf(old(tokens[position])).None? ==>
        r == ParseError("unsupported syntax") && position == old(position) && nextId == old(nextId)
    {
      r := Primary();
    }

    /** The expression, or nothing when a parse error was raised. */
    method Parse() returns (r: Option<Expr>)
      requires Valid()
      modifies this
      ensures Valid()
      ensures LiteralOf(old(tokens[position])).Some? ==>
        r == Some(Literal(old(nextId), LiteralOf(old(tokens[position])).value))
        && position == old(position) + 1
      ensures LiteralOf(old(tokens[position])).None? ==> r.None? && position == old(position)
    {
      var parsed := Expression();
      r := if parsed.Parsed? then Some(parsed.expr) else None;
    }
  }

  /** A fresh parser over a list that ends in EOF parses exactly what `ParseSpec` says. */
  method ParseFresh(tokens: seq<Token>) returns (r: Option<Expr>)
    requires EndsInEof(tokens)
    ensures r.Some? <==> ParseSpec(tokens).Some?
    ensures r.Some? ==> r.value == Literal(0, ParseSpec(tokens).value)
  {
    var parser := new Parser(tokens);
    r := parser.Parse();
  }
}
