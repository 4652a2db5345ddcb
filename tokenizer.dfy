/**
 * The tokenizer object: a token list and an error list that the scanning
 * loop appends to in place. The loop is proved to record exactly what the
 * scan functions of `Lexing` describe.
 */
module Scanner {
  import opened Types
  import opened Lexing

  class Tokenizer {
    const filename: string
    var tokens: seq<Token>
    var errors: seq<string>

    constructor(filename: string)
      ensures this.filename == filename && tokens == [] && errors == []
    {
      this.filename := filename;
      tokens := [];
      errors := [];
    }

    /** Appends a token; the source's default literal is `null`. */
    method Push(tokenType: TokenType, lexeme: string, literal: Value)
      modifies this
      ensures tokens == old(tokens) + [Token(tokenType, lexeme, literal, None)]
      ensures errors == old(errors)
    {
      tokens := tokens + [Token(tokenType, lexeme, literal, None)];
    }

    /** Removes and returns the first token (`shift`), or nothing when the list is empty. */
    method Pop() returns (first: Option<Token>)
      modifies this
      ensures old(tokens) == [] ==> first.None? && tokens == []
      ensures old(tokens) != [] ==> first == Some(old(tokens)[0]) && tokens == old(tokens)[1..]
      ensures errors == old(errors)
    {
      if tokens == [] {
        first := None;
      } else {
        first := Some(tokens[0]);
        tokens := tokens[1..];
      }
    }

    function Length(): (n: nat)
      reads this
    {
      |tokens|
    }

    /**
     * One pass of the character loop's `switch` at position `j`: records
     * what `ScanStep` says, and returns the index of the last character it
     * consumed and whether the rest of the line is to be skipped.
     */
    method ScanCharacter(line: string, j: nat, lineNumber: nat) returns (last: nat, ignoreLine: bool)
      requires j < |line|
      modifies this
      ensures var step := ScanStep(line, j, lineNumber);
        tokens == old(tokens) + step.tokens && errors == old(errors) + step.errors
        && ignoreLine == step.stopLine && (!ignoreLine ==> last + 1 == step.next)
    {
      var c := line[j];
      last, ignoreLine := j, false;
      if c == '"' {
        match IndexOf(line, '"', j + 1)
        case None =>
          errors := errors + [LineError(lineNumber, "Unterminated string.")];
          ignoreLine := true;
        case Some(close) =>
          var text := line[j + 1..close];
          last := close;
          Push(STRING, "\"" + text + "\"", Str(text));
      } else if c == ' ' || c == '\t' {
      } else if c == '/' {
        if NextIs(line, j, '/') {
          ignoreLine := true;
        } else {
          Push(SLASH, "/", Nil);
        }
      } else if OperatorTypes(c).Some? {
        var (single, double) := OperatorTypes(c).value;
        if NextIs(line, j, '=') {
          Push(double, [c, '='], Nil);
          last := j + 1;
        } else {
          Push(single, [c], Nil);
        }
      } else if SingleCharacterType(c).Some? {
        Push(SingleCharacterType(c).value, [c], Nil);
      } else {
        last := ScanDefault(line, j, lineNumber);
      }
    }

    /** The `default` case: a number, else a reserved word, else an identifier, else an error. */
    method ScanDefault(line: string, j: nat, lineNumber: nat) returns (last: nat)
      requires j < |line|
      modifies this
      ensures var step := DefaultStep(line, j, lineNumber);
        tokens == old(tokens) + step.tokens && errors == old(errors) + step.errors
        && last + 1 == step.next
    {
      var numberLength := NumberLength(line, j);
      if numberLength > 0 {
        last := ScanNumber(line, j, numberLength);
      } else {
        last := ScanWord(ReservedWords, line, j, lineNumber);
      }
    }

    /** A number of `length` characters: the raw text as lexeme, the normalised text as literal. */
    method ScanNumber(line: string, j: nat, length: nat) returns (last: nat)
      requires 0 < length && j + length <= |line|
      modifies this
      ensures var step := NumberStep(line, j, length);
        tokens == old(tokens) + step.tokens && errors == old(errors) + step.errors
        && last + 1 == step.next
    {
      var whole := DigitRun(line, j);
      var fraction := if length > whole && j + whole + 1 <= j + length
        then Some(line[j + whole + 1..j + length]) else None;
      var literal := NumberLiteral(line[j..j + min(whole, length)], fraction);
      Push(NUMBER, line[j..j + length], Str(literal));
      last := j + length - 1;
    }

    /** A reserved word of `words`, else an identifier, else an unexpected character. */
    method ScanWord(words: seq<(TokenType, string)>, line: string, j: nat, lineNumber: nat) returns (last: nat)
      requires j < |line|
      modifies this
      ensures var step := WordStep(words, line, j, lineNumber);
        tokens == old(tokens) + step.tokens && errors == old(errors) + step.errors
        && last + 1 == step.next
    {
      var reserved := MatchReserved(words, line[j..], 0);
      if reserved.Some? {
        last := ScanKeyword(words, line, j, words[reserved.value].1);
      } else if IsIdentifierStart(line[j]) {
        var length := 1 + IdentifierRun(line, j + 1);
        Push(IDENTIFIER, line[j..j + length], Nil);
        last := j + length - 1;
      } else {
        errors := errors + [LineError(lineNumber, "Unexpected character: " + [line[j]])];
        last := j;
      }
    }

    /** Records a matched reserved word under the key found by looking its lexeme up. */
    method ScanKeyword(words: seq<(TokenType, string)>, line: string, j: nat, word: string) returns (last: nat)
      requires j < |line|
      modifies this
      ensures var step := KeywordStep(words, line, j, word);
        tokens == old(tokens) + step.tokens && errors == old(errors) + step.errors
        && last + 1 == step.next
    {
      var key := FindKey(words, word);
      if key.Some? && 0 < |word| <= |line| - j {
        Push(key.value, word, Nil);
        last := j + |word| - 1;
      } else {
        last := j;
      }
    }

    /**
     * Scans the file's contents line by line and appends EOF: afterwards the
     * lists hold what they held before followed by what `Scan` describes.
     */
    method Tokenize(contents: string)
      modifies this
      ensures tokens == old(tokens) + Scan(contents).tokens
      ensures errors == old(errors) + Scan(contents).errors
    {
      var lines := SplitLines(contents);
      var i := 0;
      while i < |lines|
        invariant 0 <= i <= |lines|
        invariant tokens == old(tokens) + ScanLines(lines[..i]).tokens
        invariant errors == old(errors) + ScanLines(lines[..i]).errors
      {
        ScanLine(lines[i], i + 1);
        ScanLinesAppend(lines, i);
        AppendAssociates(old(tokens), ScanLines(lines[..i]).tokens, ScanFrom(lines[i], 0, i + 1).tokens);
        AppendAssociates(old(errors), ScanLines(lines[..i]).errors, ScanFrom(lines[i], 0, i + 1).errors);
        i := i + 1;
      }
      assert lines[..|lines|] == lines;
      Push(EOF, "", Nil);
    }

    /** The character loop over one line, numbered `lineNumber` in error messages. */
    method ScanLine(line: string, lineNumber: nat)
      modifies this
      ensures tokens == old(tokens) + ScanFrom(line, 0, lineNumber).tokens
      ensures errors == old(errors) + ScanFrom(line, 0, lineNumber).errors
    {
      var j := 0;
      while j < |line|
        invariant 0 <= j <= |line|
        invariant tokens + ScanFrom(line, j, lineNumber).tokens == old(tokens) + ScanFrom(line, 0, lineNumber).tokens
        invariant errors + ScanFrom(line, j, lineNumber).errors == old(errors) + ScanFrom(line, 0, lineNumber).errors
      {
        ghost var before, beforeErrors := tokens, errors;
        ghost var step := ScanStep(line, j, lineNumber);
        var last, ignoreLine := ScanCharacter(line, j, lineNumber);
        if ignoreLine {
          break;
        }
        ScanFromContinues(line, j, lineNumber);
        ghost var rest := ScanFrom(line, step.next, lineNumber);
        AppendAssociates(before, step.tokens, rest.tokens);
        AppendAssociates(beforeErrors, step.errors, rest.errors);
        j := last + 1;
      }
    }
  }

  lemma AppendAssociates<T>(a: seq<T>, b: seq<T>, c: seq<T>)
    ensures (a + b) + c == a + (b + c)
  {
  }

  /** After tokenizing, the token list ends with exactly one EOF token. */
  method TokenizeEndsWithEof(contents: string) returns (tokenizer: Tokenizer)
    ensures fresh(tokenizer)
    ensures |tokenizer.tokens| > 0 && tokenizer.tokens[|tokenizer.tokens| - 1] == Token(EOF, "", Nil, None)
    ensures forall k :: 0 <= k < |tokenizer.tokens| - 1 ==> tokenizer.tokens[k].tokenType != EOF
  {
    tokenizer := new Tokenizer("");
    tokenizer.Tokenize(contents);
    ScanEndsWithSingleEof(contents);
  }
}
