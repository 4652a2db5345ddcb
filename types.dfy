/**
 * Token kinds, the reserved-word table, tokens, literal values and the
 * function/class kinds the resolver tracks.
 */
module Types {

  datatype Option<+T> = None | Some(value: T)

  /**
   * A literal or runtime value. The source types these as `unknown`; the
   * model keeps the kinds the tokenizer, parser and evaluator produce.
   * `Undefined` is JavaScript's `undefined` (a missing map entry or a
   * missing call argument); numbers are restricted to integers.
   */
  datatype Value = Nil | Undefined | Bool(b: bool) | Number(n: int) | Str(s: string)

  /** The keys of `tokenType` followed by the keys of `reservedWords`. */
  datatype TokenType =
    | LEFT_PAREN | RIGHT_PAREN | LEFT_BRACE | RIGHT_BRACE | COMMA | DOT
    | MINUS | PLUS | SEMICOLON | SLASH | STAR | EQUAL | EQUAL_EQUAL | EOF
    | BANG_EQUAL | BANG | LESS | LESS_EQUAL | GREATER | GREATER_EQUAL
    | STRING | NUMBER | IDENTIFIER
    | AND | CLASS | ELSE | FALSE | FOR | FUN | IF | NIL | OR | PRINT
    | RETURN | SUPER | THIS | TRUE | VAR | WHILE

  /** The key under which a token type is written in the source tables. */
  function KeyName(t: TokenType): string {
    match t
    case LEFT_PAREN => "LEFT_PAREN"
    case RIGHT_PAREN => "RIGHT_PAREN"
    case LEFT_BRACE => "LEFT_BRACE"
    case RIGHT_BRACE => "RIGHT_BRACE"
    case COMMA => "COMMA"
    case DOT => "DOT"
    case MINUS => "MINUS"
    case PLUS => "PLUS"
    case SEMICOLON => "SEMICOLON"
    case SLASH => "SLASH"
    case STAR => "STAR"
    case EQUAL => "EQUAL"
    case EQUAL_EQUAL => "EQUAL_EQUAL"
    case EOF => "EOF"
    case BANG_EQUAL => "BANG_EQUAL"
    case BANG => "BANG"
    case LESS => "LESS"
    case LESS_EQUAL => "LESS_EQUAL"
    case GREATER => "GREATER"
    case GREATER_EQUAL => "GREATER_EQUAL"
    case STRING => "STRING"
    case NUMBER => "NUMBER"
    case IDENTIFIER => "IDENTIFIER"
    case AND => "AND"
    case CLASS => "CLASS"
    case ELSE => "ELSE"
    case FALSE => "FALSE"
    case FOR => "FOR"
    case FUN => "FUN"
    case IF => "IF"
    case NIL => "NIL"
    case OR => "OR"
    case PRINT => "PRINT"
    case RETURN => "RETURN"
    case SUPER => "SUPER"
    case THIS => "THIS"
    case TRUE => "TRUE"
    case VAR => "VAR"
    case WHILE => "WHILE"
  }

  /** The `tokenType` table, entry by entry, in declaration order. */
  const TokenTypeTable: seq<(TokenType, string)> := [
    (LEFT_PAREN, "LEFT_PAREN"), (RIGHT_PAREN, "RIGHT_PAREN"),
    (LEFT_BRACE, "LEFT_BRACE"), (RIGHT_BRACE, "RIGHT_BRACE"),
    (COMMA, "COMMA"), (DOT, "DOT"), (MINUS, "MINUS"), (PLUS, "PLUS"),
    (SEMICOLON, "SEMICOLON"), (SLASH, "SLASH"), (STAR, "STAR"),
    (EQUAL, "EQUAL"), (EQUAL_EQUAL, "EQUAL_EQUAL"), (EOF, "EOF"),
    (BANG_EQUAL, "BANG_EQUAL"), (BANG, "BANG"), (LESS, "LESS"),
    (LESS_EQUAL, "LESS_EQUAL"), (GREATER, "GREATER"),
    (GREATER_EQUAL, "GREATER_EQUAL"), (STRING, "STRING"),
    (NUMBER, "NUMBER"), (IDENTIFIER, "IDENTIFIER")
  ]

  /** The `reservedWords` table, entry by entry, in declaration order. */
  const ReservedWords: seq<(TokenType, string)> := [
    (AND, "and"), (TokenType.CLASS, "class"), (ELSE, "else"), (FALSE, "false"),
    (FOR, "for"), (FUN, "fun"), (IF, "if"), (NIL, "nil"), (OR, "or"),
    (PRINT, "print"), (RETURN, "return"), (SUPER, "super"),
    (THIS, "this"), (TRUE, "true"), (VAR, "var"), (WHILE, "while")
  ]

  /** ASCII lower-casing, as JavaScript's `toLowerCase` does on the table's keys. */
  function ToLower(s: string): string {
    seq(|s|, k requires 0 <= k < |s| => LowerChar(s[k]))
  }

  function LowerChar(c: char): char {
    if 'A' <= c <= 'Z' then (c as int + 32) as char else c
  }

  /** Every `tokenType` entry maps its key to the identical string. */
  lemma TokenTypeTableIsIdentity()
    ensures forall k :: 0 <= k < |TokenTypeTable| ==> TokenTypeTable[k].1 == KeyName(TokenTypeTable[k].0)
  {
    TokenTypeTableIsIdentityFrom0();
    TokenTypeTableIsIdentityFrom8();
    TokenTypeTableIsIdentityFrom16();
  }


  lemma TokenTypeTableIsIdentityFrom0()
    ensures forall k :: 0 <= k < 8 ==> TokenTypeTable[k].1 == KeyName(TokenTypeTable[k].0)
  {
    forall k | 0 <= k < 8 ensures TokenTypeTable[k].1 == KeyName(TokenTypeTable[k].0) {
      if k == 0 {
        assert TokenTypeTable[0] == (LEFT_PAREN, "LEFT_PAREN");
      } else if k == 1 {
        assert TokenTypeTable[1] == (RIGHT_PAREN, "RIGHT_PAREN");
      } else if k == 2 {
        assert TokenTypeTable[2] == (LEFT_BRACE, "LEFT_BRACE");
      } else if k == 3 {
        assert TokenTypeTable[3] == (RIGHT_BRACE, "RIGHT_BRACE");
      } else if k == 4 {
        assert TokenTypeTable[4] == (COMMA, "COMMA");
      } else if k == 5 {
        assert TokenTypeTable[5] == (DOT, "DOT");
      } else if k == 6 {
        assert TokenTypeTable[6] == (MINUS, "MINUS");
      } else if k == 7 {
        assert TokenTypeTable[7] == (PLUS, "PLUS");
      }
    }
  }

  lemma TokenTypeTableIsIdentityFrom8()
    ensures forall k :: 8 <= k < 16 ==> TokenTypeTable[k].1 == KeyName(TokenTypeTable[k].0)
  {
    forall k | 8 <= k < 16 ensures TokenTypeTable[k].1 == KeyName(TokenTypeTable[k].0) {
      if k == 8 {
        assert TokenTypeTable[8] == (SEMICOLON, "SEMICOLON");
      } else if k == 9 {
        assert TokenTypeTable[9] == (SLASH, "SLASH");
      } else if k == 10 {
        assert TokenTypeTable[10] == (STAR, "STAR");
      } else if k == 11 {
        assert TokenTypeTable[11] == (EQUAL, "EQUAL");
      } else if k == 12 {
        assert TokenTypeTable[12] == (EQUAL_EQUAL, "EQUAL_EQUAL");
      } else if k == 13 {
        assert TokenTypeTable[13] == (EOF, "EOF");
      } else if k == 14 {
        assert TokenTypeTable[14] == (BANG_EQUAL, "BANG_EQUAL");
      } else if k == 15 {
        assert TokenTypeTable[15] == (BANG, "BANG");
      }
    }
  }

  lemma TokenTypeTableIsIdentityFrom16()
    ensures forall k :: 16 <= k < 23 ==> TokenTypeTable[k].1 == KeyName(TokenTypeTable[k].0)
  {
    forall k | 16 <= k < 23 ensures TokenTypeTable[k].1 == KeyName(TokenTypeTable[k].0) {
      if k == 16 {
        assert TokenTypeTable[16] == (LESS, "LESS");
      } else if k == 17 {
        assert TokenTypeTable[17] == (LESS_EQUAL, "LESS_EQUAL");
      } else if k == 18 {
        assert TokenTypeTable[18] == (GREATER, "GREATER");
      } else if k == 19 {
        assert TokenTypeTable[19] == (GREATER_EQUAL, "GREATER_EQUAL");
      } else if k == 20 {
        assert TokenTypeTable[20] == (STRING, "STRING");
      } else if k == 21 {
        assert TokenTypeTable[21] == (NUMBER, "NUMBER");
      } else if k == 22 {
        assert TokenTypeTable[22] == (IDENTIFIER, "IDENTIFIER");
      }
    }
  }

  /** The position of each token type in the source's declaration order. */
  function Ordinal(t: TokenType): (r: nat)
    ensures r < |TokenTypeTable| + |ReservedWords|
  {
    match t
    case LEFT_PAREN => 0
    case RIGHT_PAREN => 1
    case LEFT_BRACE => 2
    case RIGHT_BRACE => 3
    case COMMA => 4
    case DOT => 5
    case MINUS => 6
    case PLUS => 7
    case SEMICOLON => 8
    case SLASH => 9
    case STAR => 10
    case EQUAL => 11
    case EQUAL_EQUAL => 12
    case EOF => 13
    case BANG_EQUAL => 14
    case BANG => 15
    case LESS => 16
    case LESS_EQUAL => 17
    case GREATER => 18
    case GREATER_EQUAL => 19
    case STRING => 20
    case NUMBER => 21
    case IDENTIFIER => 22
    case AND => 23
    case CLASS => 24
    case ELSE => 25
    case FALSE => 26
    case FOR => 27
    case FUN => 28
    case IF => 29
    case NIL => 30
    case OR => 31
    case PRINT => 32
    case RETURN => 33
    case SUPER => 34
    case THIS => 35
    case TRUE => 36
    case VAR => 37
    case WHILE => 38
  }

  /** The token type at each position; the inverse of `Ordinal`. */
  function FromOrdinal(n: nat): TokenType {
    if n == 0 then LEFT_PAREN else
    if n == 1 then RIGHT_PAREN else
    if n == 2 then LEFT_BRACE else
    if n == 3 then RIGHT_BRACE else
    if n == 4 then COMMA else
    if n == 5 then DOT else
    if n == 6 then MINUS else
    if n == 7 then PLUS else
    if n == 8 then SEMICOLON else
    if n == 9 then SLASH else
    if n == 10 then STAR else
    if n == 11 then EQUAL else
    if n == 12 then EQUAL_EQUAL else
    if n == 13 then EOF else
    if n == 14 then BANG_EQUAL else
    if n == 15 then BANG else
    if n == 16 then LESS else
    if n == 17 then LESS_EQUAL else
    if n == 18 then GREATER else
    if n == 19 then GREATER_EQUAL else
    if n == 20 then STRING else
    if n == 21 then NUMBER else
    if n == 22 then IDENTIFIER else
    if n == 23 then AND else
    if n == 24 then TokenType.CLASS else
    if n == 25 then ELSE else
    if n == 26 then FALSE else
    if n == 27 then FOR else
    if n == 28 then FUN else
    if n == 29 then IF else
    if n == 30 then NIL else
    if n == 31 then OR else
    if n == 32 then PRINT else
    if n == 33 then RETURN else
    if n == 34 then SUPER else
    if n == 35 then THIS else
    if n == 36 then TRUE else
    if n == 37 then VAR else
    WHILE
  }

  lemma FromOrdinalOfOrdinal(t: TokenType)
    ensures FromOrdinal(Ordinal(t)) == t
  {
    match t
    case LEFT_PAREN => assert FromOrdinal(0) == LEFT_PAREN;
    case RIGHT_PAREN => assert FromOrdinal(1) == RIGHT_PAREN;
    case LEFT_BRACE => assert FromOrdinal(2) == LEFT_BRACE;
    case RIGHT_BRACE => assert FromOrdinal(3) == RIGHT_BRACE;
    case COMMA => assert FromOrdinal(4) == COMMA;
    case DOT => assert FromOrdinal(5) == DOT;
    case MINUS => assert FromOrdinal(6) == MINUS;
    case PLUS => assert FromOrdinal(7) == PLUS;
    case SEMICOLON => assert FromOrdinal(8) == SEMICOLON;
    case SLASH => assert FromOrdinal(9) == SLASH;
    case STAR => assert FromOrdinal(10) == STAR;
    case EQUAL => assert FromOrdinal(11) == EQUAL;
    case EQUAL_EQUAL => assert FromOrdinal(12) == EQUAL_EQUAL;
    case EOF => assert FromOrdinal(13) == EOF;
    case BANG_EQUAL => assert FromOrdinal(14) == BANG_EQUAL;
    case BANG => assert FromOrdinal(15) == BANG;
    case LESS => assert FromOrdinal(16) == LESS;
    case LESS_EQUAL => assert FromOrdinal(17) == LESS_EQUAL;
    case GREATER => assert FromOrdinal(18) == GREATER;
    case GREATER_EQUAL => assert FromOrdinal(19) == GREATER_EQUAL;
    case STRING => assert FromOrdinal(20) == STRING;
    case NUMBER => assert FromOrdinal(21) == NUMBER;
    case IDENTIFIER => assert FromOrdinal(22) == IDENTIFIER;
    case AND => assert FromOrdinal(23) == AND;
    case CLASS => assert FromOrdinal(24) == TokenType.CLASS;
    case ELSE => assert FromOrdinal(25) == ELSE;
    case FALSE => assert FromOrdinal(26) == FALSE;
    case FOR => assert FromOrdinal(27) == FOR;
    case FUN => assert FromOrdinal(28) == FUN;
    case IF => assert FromOrdinal(29) == IF;
    case NIL => assert FromOrdinal(30) == NIL;
    case OR => assert FromOrdinal(31) == OR;
    case PRINT => assert FromOrdinal(32) == PRINT;
    case RETURN => assert FromOrdinal(33) == RETURN;
    case SUPER => assert FromOrdinal(34) == SUPER;
    case THIS => assert FromOrdinal(35) == THIS;
    case TRUE => assert FromOrdinal(36) == TRUE;
    case VAR => assert FromOrdinal(37) == VAR;
    case WHILE => assert FromOrdinal(38) == WHILE;
  }

  lemma OrdinalInjective(t: TokenType, u: TokenType)
    requires Ordinal(t) == Ordinal(u)
    ensures t == u
  {
    FromOrdinalOfOrdinal(t);
    FromOrdinalOfOrdinal(u);
  }

  /** The `tokenType` table lists the first 23 token types, in order. */
  lemma TokenTypeKeysInOrder()
    ensures forall k :: 0 <= k < |TokenTypeTable| ==> Ordinal(TokenTypeTable[k].0) == k
  {
    TokenTypeKeysInOrderFrom0();
    TokenTypeKeysInOrderFrom6();
    TokenTypeKeysInOrderFrom12();
    TokenTypeKeysInOrderFrom18();
  }

  lemma TokenTypeKeysInOrderFrom0()
    ensures forall k :: 0 <= k < 6 ==> Ordinal(TokenTypeTable[k].0) == k
  {
    forall k | 0 <= k < 6 ensures Ordinal(TokenTypeTable[k].0) == k {
      if k == 0 {
        assert TokenTypeTable[0].0 == LEFT_PAREN;
      } else if k == 1 {
        assert TokenTypeTable[1].0 == RIGHT_PAREN;
      } else if k == 2 {
        assert TokenTypeTable[2].0 == LEFT_BRACE;
      } else if k == 3 {
        assert TokenTypeTable[3].0 == RIGHT_BRACE;
      } else if k == 4 {
        assert TokenTypeTable[4].0 == COMMA;
      } else if k == 5 {
        assert TokenTypeTable[5].0 == DOT;
      }
    }
  }

  lemma TokenTypeKeysInOrderFrom6()
    ensures forall k :: 6 <= k < 12 ==> Ordinal(TokenTypeTable[k].0) == k
  {
    forall k | 6 <= k < 12 ensures Ordinal(TokenTypeTable[k].0) == k {
      if k == 6 {
        assert TokenTypeTable[6].0 == MINUS;
      } else if k == 7 {
        assert TokenTypeTable[7].0 == PLUS;
      } else if k == 8 {
        assert TokenTypeTable[8].0 == SEMICOLON;
      } else if k == 9 {
        assert TokenTypeTable[9].0 == SLASH;
      } else if k == 10 {
        assert TokenTypeTable[10].0 == STAR;
      } else if k == 11 {
        assert TokenTypeTable[11].0 == EQUAL;
      }
    }
  }

  lemma TokenTypeKeysInOrderFrom12()
    ensures forall k :: 12 <= k < 18 ==> Ordinal(TokenTypeTable[k].0) == k
  {
    forall k | 12 <= k < 18 ensures Ordinal(TokenTypeTable[k].0) == k {
      if k == 12 {
        assert TokenTypeTable[12].0 == EQUAL_EQUAL;
      } else if k == 13 {
        assert TokenTypeTable[13].0 == EOF;
      } else if k == 14 {
        assert TokenTypeTable[14].0 == BANG_EQUAL;
      } else if k == 15 {
        assert TokenTypeTable[15].0 == BANG;
      } else if k == 16 {
        assert TokenTypeTable[16].0 == LESS;
      } else if k == 17 {
        assert TokenTypeTable[17].0 == LESS_EQUAL;
      }
    }
  }

  lemma TokenTypeKeysInOrderFrom18()
    ensures forall k :: 18 <= k < 23 ==> Ordinal(TokenTypeTable[k].0) == k
  {
    forall k | 18 <= k < 23 ensures Ordinal(TokenTypeTable[k].0) == k {
      if k == 18 {
        assert TokenTypeTable[18].0 == GREATER;
      } else if k == 19 {
        assert TokenTypeTable[19].0 == GREATER_EQUAL;
      } else if k == 20 {
        assert TokenTypeTable[20].0 == STRING;
      } else if k == 21 {
        assert TokenTypeTable[21].0 == NUMBER;
      } else if k == 22 {
        assert TokenTypeTable[22].0 == IDENTIFIER;
      }
    }
  }

  /** The `reservedWords` table lists the remaining 16 token types, in order. */
  lemma ReservedWordKeysInOrder()
    ensures forall k :: 0 <= k < |ReservedWords| ==> Ordinal(ReservedWords[k].0) == |TokenTypeTable| + k
  {
    ReservedWordKeysInOrderFrom0();
    ReservedWordKeysInOrderFrom4();
    ReservedWordKeysInOrderFrom8();
    ReservedWordKeysInOrderFrom12();
  }

  lemma ReservedWordKeysInOrderFrom0()
    ensures forall k :: 0 <= k < 4 ==> Ordinal(ReservedWords[k].0) == |TokenTypeTable| + k
  {
    forall k | 0 <= k < 4 ensures Ordinal(ReservedWords[k].0) == |TokenTypeTable| + k {
      if k == 0 {
        assert ReservedWords[0].0 == AND;
      } else if k == 1 {
        assert ReservedWords[1].0 == TokenType.CLASS;
      } else if k == 2 {
        assert ReservedWords[2].0 == ELSE;
      } else if k == 3 {
        assert ReservedWords[3].0 == FALSE;
      }
    }
  }

  lemma ReservedWordKeysInOrderFrom4()
    ensures forall k :: 4 <= k < 8 ==> Ordinal(ReservedWords[k].0) == |TokenTypeTable| + k
  {
    forall k | 4 <= k < 8 ensures Ordinal(ReservedWords[k].0) == |TokenTypeTable| + k {
      if k == 4 {
        assert ReservedWords[4].0 == FOR;
      } else if k == 5 {
        assert ReservedWords[5].0 == FUN;
      } else if k == 6 {
        assert ReservedWords[6].0 == IF;
      } else if k == 7 {
        assert ReservedWords[7].0 == NIL;
      }
    }
  }

  lemma ReservedWordKeysInOrderFrom8()
    ensures forall k :: 8 <= k < 12 ==> Ordinal(ReservedWords[k].0) == |TokenTypeTable| + k
  {
    forall k | 8 <= k < 12 ensures Ordinal(ReservedWords[k].0) == |TokenTypeTable| + k {
      if k == 8 {
        assert ReservedWords[8].0 == OR;
      } else if k == 9 {
        assert ReservedWords[9].0 == PRINT;
      } else if k == 10 {
        assert ReservedWords[10].0 == RETURN;
      } else if k == 11 {
        assert ReservedWords[11].0 == SUPER;
      }
    }
  }

  lemma ReservedWordKeysInOrderFrom12()
    ensures forall k :: 12 <= k < 16 ==> Ordinal(ReservedWords[k].0) == |TokenTypeTable| + k
  {
    forall k | 12 <= k < 16 ensures Ordinal(ReservedWords[k].0) == |TokenTypeTable| + k {
      if k == 12 {
        assert ReservedWords[12].0 == THIS;
      } else if k == 13 {
        assert ReservedWords[13].0 == TRUE;
      } else if k == 14 {
        assert ReservedWords[14].0 == VAR;
      } else if k == 15 {
        assert ReservedWords[15].0 == WHILE;
      }
    }
  }

  predicate IsTokenTypeKey(t: TokenType) {
    exists k :: 0 <= k < |TokenTypeTable| && TokenTypeTable[k].0 == t
  }

  predicate IsReservedWordKey(t: TokenType) {
    exists k :: 0 <= k < |ReservedWords| && ReservedWords[k].0 == t
  }

  /** `TokenType` is the union of the two tables' keys, and the two key sets are disjoint. */
  lemma TokenTypeIsDisjointUnion(t: TokenType)
    ensures IsTokenTypeKey(t) != IsReservedWordKey(t)
  {
    TokenTypeKeysInOrder();
    ReservedWordKeysInOrder();
    var o := Ordinal(t);
    if o < |TokenTypeTable| {
      OrdinalInjective(TokenTypeTable[o].0, t);
      assert IsTokenTypeKey(t);
    } else {
      OrdinalInjective(ReservedWords[o - |TokenTypeTable|].0, t);
      assert IsReservedWordKey(t);
    }
  }

  /** The keys of `reservedWords` are pairwise distinct. */
  lemma ReservedWordKeysDistinct()
    ensures forall i, j :: 0 <= i < j < |ReservedWords| ==> ReservedWords[i].0 != ReservedWords[j].0
  {
    ReservedWordKeysInOrder();
  }

  /** Strict lexicographic order on strings. */
  predicate Before(a: string, b: string) {
    if |b| == 0 then false
    else if |a| == 0 then true
    else a[0] < b[0] || (a[0] == b[0] && Before(a[1..], b[1..]))
  }

  lemma {:induction false} BeforeTransitive(a: string, b: string, c: string)
    requires Before(a, b) && Before(b, c)
    ensures Before(a, c)
  {
    if |a| > 0 && a[0] == b[0] && b[0] == c[0] {
      BeforeTransitive(a[1..], b[1..], c[1..]);
    }
  }

  lemma {:induction false} BeforeIrreflexive(a: string)
    ensures !Before(a, a)
  {
    if |a| > 0 {
      BeforeIrreflexive(a[1..]);
    }
  }

  /** The reserved words are listed in strictly ascending order of their lexemes. */
  lemma ReservedLexemesAscending()
    ensures forall k :: 0 <= k < |ReservedWords| - 1 ==> Before(ReservedWords[k].1, ReservedWords[k + 1].1)
  {
    assert Before("and", "class");
    assert Before("class", "else");
    assert Before("else", "false");
    assert Before("false", "for");
    assert Before("for", "fun");
    assert Before("fun", "if");
    assert Before("if", "nil");
    assert Before("nil", "or");
    assert Before("or", "print");
    assert Before("print", "return");
    assert Before("return", "super");
    assert Before("super", "this");
    assert Before("this", "true");
    assert Before("true", "var");
    assert Before("var", "while");
    forall k | 0 <= k < |ReservedWords| - 1 ensures Before(ReservedWords[k].1, ReservedWords[k + 1].1) {
      if k == 0 {
        assert ReservedWords[k].1 == "and" && ReservedWords[k + 1].1 == "class";
      } else if k == 1 {
        assert ReservedWords[k].1 == "class" && ReservedWords[k + 1].1 == "else";
      } else if k == 2 {
        assert ReservedWords[k].1 == "else" && ReservedWords[k + 1].1 == "false";
      } else if k == 3 {
        assert ReservedWords[k].1 == "false" && ReservedWords[k + 1].1 == "for";
      } else if k == 4 {
        assert ReservedWords[k].1 == "for" && ReservedWords[k + 1].1 == "fun";
      } else if k == 5 {
        assert ReservedWords[k].1 == "fun" && ReservedWords[k + 1].1 == "if";
      } else if k == 6 {
        assert ReservedWords[k].1 == "if" && ReservedWords[k + 1].1 == "nil";
      } else if k == 7 {
        assert ReservedWords[k].1 == "nil" && ReservedWords[k + 1].1 == "or";
      } else if k == 8 {
        assert ReservedWords[k].1 == "or" && ReservedWords[k + 1].1 == "print";
      } else if k == 9 {
        assert ReservedWords[k].1 == "print" && ReservedWords[k + 1].1 == "return";
      } else if k == 10 {
        assert ReservedWords[k].1 == "return" && ReservedWords[k + 1].1 == "super";
      } else if k == 11 {
        assert ReservedWords[k].1 == "super" && ReservedWords[k + 1].1 == "this";
      } else if k == 12 {
        assert ReservedWords[k].1 == "this" && ReservedWords[k + 1].1 == "true";
      } else if k == 13 {
        assert ReservedWords[k].1 == "true" && ReservedWords[k + 1].1 == "var";
      } else if k == 14 {
        assert ReservedWords[k].1 == "var" && ReservedWords[k + 1].1 == "while";
      }
    }
  }

  lemma {:induction false} ReservedLexemesOrdered(i: nat, j: nat)
    requires i < j < |ReservedWords|
    ensures Before(ReservedWords[i].1, ReservedWords[j].1)
  {
    ReservedLexemesAscending();
    if i + 1 < j {
      ReservedLexemesOrdered(i, j - 1);
      BeforeTransitive(ReservedWords[i].1, ReservedWords[j - 1].1, ReservedWords[j].1);
    }
  }

  /**
   * The lexemes of `reservedWords` are pairwise distinct, so the tokenizer's
   * reverse lookup from a matched lexeme to its key is one-to-one.
   */
  lemma ReservedLexemesDistinct()
    ensures forall i, j :: 0 <= i < j < |ReservedWords| ==> ReservedWords[i].1 != ReservedWords[j].1
  {
    forall i, j | 0 <= i < j < |ReservedWords| ensures ReservedWords[i].1 != ReservedWords[j].1 {
      ReservedLexemesOrdered(i, j);
      BeforeIrreflexive(ReservedWords[i].1);
    }
  }

  /** Each reserved-word lexeme is the lower-case form of its key. */
  lemma ReservedWordsLowerCase()
    ensures forall k :: 0 <= k < |ReservedWords| ==> ReservedWords[k].1 == ToLower(KeyName(ReservedWords[k].0))
  {
    ReservedWordsLowerCaseFrom0();
    ReservedWordsLowerCaseFrom2();
    ReservedWordsLowerCaseFrom4();
    ReservedWordsLowerCaseFrom6();
    ReservedWordsLowerCaseFrom8();
    ReservedWordsLowerCaseFrom10();
    ReservedWordsLowerCaseFrom12();
    ReservedWordsLowerCaseFrom14();
  }

  lemma ReservedWordsLowerCaseFrom0()
    ensures ReservedWords[0].1 == ToLower(KeyName(ReservedWords[0].0))
      && ReservedWords[1].1 == ToLower(KeyName(ReservedWords[1].0))
  {
    assert ReservedWords[0].0 == AND;
    assert ToLower("AND") == "and";
    assert ReservedWords[1].0 == TokenType.CLASS;
    assert ToLower("CLASS") == "class";
  }

  lemma ReservedWordsLowerCaseFrom2()
    ensures ReservedWords[2].1 == ToLower(KeyName(ReservedWords[2].0))
      && ReservedWords[3].1 == ToLower(KeyName(ReservedWords[3].0))
  {
    assert ReservedWords[2].0 == ELSE;
    assert ToLower("ELSE") == "else";
    assert ReservedWords[3].0 == FALSE;
    assert ToLower("FALSE") == "false";
  }

  lemma ReservedWordsLowerCaseFrom4()
    ensures ReservedWords[4].1 == ToLower(KeyName(ReservedWords[4].0))
      && ReservedWords[5].1 == ToLower(KeyName(ReservedWords[5].0))
  {
    assert ReservedWords[4].0 == FOR;
    assert ToLower("FOR") == "for";
    assert ReservedWords[5].0 == FUN;
    assert ToLower("FUN") == "fun";
  }

  lemma ReservedWordsLowerCaseFrom6()
    ensures ReservedWords[6].1 == ToLower(KeyName(ReservedWords[6].0))
      && ReservedWords[7].1 == ToLower(KeyName(ReservedWords[7].0))
  {
    assert ReservedWords[6].0 == IF;
    assert ToLower("IF") == "if";
    assert ReservedWords[7].0 == NIL;
    assert ToLower("NIL") == "nil";
  }

  lemma ReservedWordsLowerCaseFrom8()
    ensures ReservedWords[8].1 == ToLower(KeyName(ReservedWords[8].0))
      && ReservedWords[9].1 == ToLower(KeyName(ReservedWords[9].0))
  {
    assert ReservedWords[8].0 == OR;
    assert ToLower("OR") == "or";
    assert ReservedWords[9].0 == PRINT;
    assert ToLower("PRINT") == "print";
  }

  lemma ReservedWordsLowerCaseFrom10()
    ensures ReservedWords[10].1 == ToLower(KeyName(ReservedWords[10].0))
      && ReservedWords[11].1 == ToLower(KeyName(ReservedWords[11].0))
  {
    assert ReservedWords[10].0 == RETURN;
    assert ToLower("RETURN") == "return";
    assert ReservedWords[11].0 == SUPER;
    assert ToLower("SUPER") == "super";
  }

  lemma ReservedWordsLowerCaseFrom12()
    ensures ReservedWords[12].1 == ToLower(KeyName(ReservedWords[12].0))
      && ReservedWords[13].1 == ToLower(KeyName(ReservedWords[13].0))
  {
    assert ReservedWords[12].0 == THIS;
    assert ToLower("THIS") == "this";
    assert ReservedWords[13].0 == TRUE;
    assert ToLower("TRUE") == "true";
  }

  lemma ReservedWordsLowerCaseFrom14()
    ensures ReservedWords[14].1 == ToLower(KeyName(ReservedWords[14].0))
      && ReservedWords[15].1 == ToLower(KeyName(ReservedWords[15].0))
  {
    assert ReservedWords[14].0 == VAR;
    assert ToLower("VAR") == "var";
    assert ReservedWords[15].0 == WHILE;
    assert ToLower("WHILE") == "while";
  }

  /**
   * The reverse lookup of the tokenizer: the first key of `reservedWords`
   * whose lexeme is `lexeme`, if any.
   */
  function ReservedWordKey(lexeme: string): (r: Option<TokenType>)
    ensures r.Some? <==> exists k :: 0 <= k < |ReservedWords| && ReservedWords[k].1 == lexeme
    ensures r.Some? ==> exists k :: 0 <= k < |ReservedWords| && ReservedWords[k] == (r.value, lexeme)
  {
    FindKey(ReservedWords, lexeme)
  }

  function FindKey(table: seq<(TokenType, string)>, lexeme: string): (r: Option<TokenType>)
    ensures r.Some? <==> exists k :: 0 <= k < |table| && table[k].1 == lexeme
    ensures r.Some? ==> exists k :: 0 <= k < |table| && table[k] == (r.value, lexeme)
  {
    if table == [] then None
    else if table[0].1 == lexeme then Some(table[0].0)
    else
      var r := FindKey(table[1..], lexeme);
      assert forall k :: 1 <= k < |table| ==> table[k] == table[1..][k - 1];
      r
  }

  /** Looking up the lexeme of any reserved word gives back that word's key. */
  lemma ReservedWordKeyRoundTrip(k: nat)
    requires k < |ReservedWords|
    ensures ReservedWordKey(ReservedWords[k].1) == Some(ReservedWords[k].0)
  {
    ReservedLexemesDistinct();
  }

  /** A token; `line` is declared in the source but never set by the tokenizer. */
  datatype Token = Token(tokenType: TokenType, lexeme: string, literal: Value, line: Option<nat>)

  /** The kinds of function body the resolver can be inside (INITIALIZER added for it). */
  datatype FunctionType = NONE | FUNCTION | METHOD | INITIALIZER

  /** The kinds of class body the resolver can be inside. */
  datatype ClassType = NONE | CLASS | SUBCLASS

  /** A runtime error carries the offending token and a message. */
  datatype RuntimeError = RuntimeError(token: Token, message: string)

  datatype Result<+T> = Ok(value: T) | Err(error: RuntimeError)
}
