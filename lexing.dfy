/**
 * What the tokenizer produces, as functions of the file's text: the text is
 * split on line feeds, each line is scanned left to right one step at a
 * time, and an EOF token is appended at the end. The regular expressions of
 * the source (numbers, reserved words, identifiers) are written out as
 * character-class scans.
 */
module Lexing {
  import opened Types
  import opened Decimal

  /** One step of the line scan: what it records, where scanning resumes, and whether the rest of the line is dropped. */
  datatype Step = Step(tokens: seq<Token>, errors: seq<string>, next: nat, stopLine: bool)

  /** Tokens and error messages, in the order they are recorded. */
  datatype Scanned = Scanned(tokens: seq<Token>, errors: seq<string>)

  /** A token as `push(type, lexeme)` records it: literal `null`, no line. */
  function Tok(tokenType: TokenType, lexeme: string): Token {
    Token(tokenType, lexeme, Nil, None)
  }

  const EofToken: Token := Token(EOF, "", Nil, None)

  function LineError(lineNumber: nat, message: string): string {
    "[line " + NatToString(lineNumber) + "] Error: " + message
  }

  // ---------------------------------------------------------------- lines

  /** The index of the first `c` at or after `from`. */
  function IndexOf(s: string, c: char, from: nat): (r: Option<nat>)
    ensures r.Some? ==> from <= r.value < |s|
    decreases |s| - from
  {
    if from >= |s| then None
    else if s[from] == c then Some(from)
    else IndexOf(s, c, from + 1)
  }

  /** `indexOf` finds the first occurrence at or after `from`, and -1 exactly when there is none. */
  lemma {:induction false} IndexOfIsFirst(s: string, c: char, from: nat)
    ensures var r := IndexOf(s, c, from);
      (r.Some? ==> s[r.value] == c && forall k :: from <= k < r.value ==> s[k] != c)
      && (r.None? <==> forall k :: from <= k < |s| ==> s[k] != c)
    decreases |s| - from
  {
    if from < |s| && s[from] != c {
      IndexOfIsFirst(s, c, from + 1);
    }
  }

  /** `contents.split('\n')`. */
  function SplitLines(s: string): (r: seq<string>)
    ensures |r| > 0
    decreases |s|
  {
    match IndexOf(s, '\n', 0)
    case None => [s]
    case Some(i) => [s[..i]] + SplitLines(s[i + 1..])
  }

  /** No line contains a line feed. */
  lemma {:induction false} SplitLinesHaveNoLineFeed(s: string)
    ensures forall k :: 0 <= k < |SplitLines(s)| ==> '\n' !in SplitLines(s)[k]
    decreases |s|
  {
    IndexOfIsFirst(s, '\n', 0);
    match IndexOf(s, '\n', 0)
    case None =>
      assert SplitLines(s) == [s];
    case Some(i) =>
      SplitLinesHaveNoLineFeed(s[i + 1..]);
      var lines := SplitLines(s);
      assert lines == [s[..i]] + SplitLines(s[i + 1..]);
      forall k | 0 <= k < |lines| ensures '\n' !in lines[k] {
        if k > 0 {
          assert lines[k] == SplitLines(s[i + 1..])[k - 1];
        }
      }
  }

  /** Lines joined back with line feeds. */
  function JoinLines(lines: seq<string>): string
    requires |lines| > 0
  {
    if |lines| == 1 then lines[0] else lines[0] + "\n" + JoinLines(lines[1..])
  }

  /** Splitting and joining again gives back the text. */
  lemma {:induction false} JoinSplitLines(s: string)
    ensures JoinLines(SplitLines(s)) == s
    decreases |s|
  {
    IndexOfIsFirst(s, '\n', 0);
    match IndexOf(s, '\n', 0)
    case None =>
    case Some(i) =>
      JoinSplitLines(s[i + 1..]);
      assert s == s[..i] + "\n" + s[i + 1..];
  }

  /** Joining lines free of line feeds and splitting again gives back the lines. */
  lemma {:induction false} SplitJoinLines(lines: seq<string>)
    requires |lines| > 0
    requires forall k :: 0 <= k < |lines| ==> '\n' !in lines[k]
    ensures SplitLines(JoinLines(lines)) == lines
  {
    var s := JoinLines(lines);
    IndexOfIsFirst(s, '\n', 0);
    if |lines| == 1 {
      assert IndexOf(s, '\n', 0).None?;
    } else {
      SplitJoinLines(lines[1..]);
      assert s == lines[0] + "\n" + JoinLines(lines[1..]);
      assert s[|lines[0]|] == '\n';
      assert forall k :: 0 <= k < |lines[0]| ==> s[k] == lines[0][k];
      assert IndexOf(s, '\n', 0) == Some(|lines[0]|);
      assert s[..|lines[0]|] == lines[0];
      assert s[|lines[0]| + 1..] == JoinLines(lines[1..]);
    }
  }

  // ------------------------------------------------------ character scans

  /** `#checkNextCharacter`: whether the character after `i` on the line is `ch`. */
  function NextIs(line: string, i: nat, ch: char): bool {
    if |line| <= i + 1 then false else line[i + 1] == ch
  }

  /** The length of the run of decimal digits starting at `from` (`\d+` or nothing). */
  function DigitRun(line: string, from: nat): (r: nat)
    requires from <= |line|
    ensures from + r <= |line|
    decreases |line| - from
  {
    if from < |line| && IsDigit(line[from]) then 1 + DigitRun(line, from + 1) else 0
  }

  /** The run is all digits and stops at the end of the line or at a non-digit. */
  lemma {:induction false} DigitRunIsMaximal(line: string, from: nat)
    requires from <= |line|
    ensures var r := DigitRun(line, from);
      (forall k :: from <= k < from + r ==> IsDigit(line[k]))
      && (from + r == |line| || !IsDigit(line[from + r]))
    decreases |line| - from
  {
    if from < |line| && IsDigit(line[from]) {
      DigitRunIsMaximal(line, from + 1);
    }
  }

  predicate IsIdentifierStart(c: char) {
    'a' <= c <= 'z' || 'A' <= c <= 'Z' || c == '_'
  }

  predicate IsIdentifierPart(c: char) {
    IsIdentifierStart(c) || IsDigit(c)
  }

  /** The length of the run of `[a-zA-Z_0-9]` starting at `from`. */
  function IdentifierRun(line: string, from: nat): (r: nat)
    requires from <= |line|
    ensures from + r <= |line|
    decreases |line| - from
  {
    if from < |line| && IsIdentifierPart(line[from]) then 1 + IdentifierRun(line, from + 1) else 0
  }

  /** The run is all identifier characters and stops at the end of the line or at another character. */
  lemma {:induction false} IdentifierRunIsMaximal(line: string, from: nat)
    requires from <= |line|
    ensures var r := IdentifierRun(line, from);
      (forall k :: from <= k < from + r ==> IsIdentifierPart(line[k]))
      && (from + r == |line| || !IsIdentifierPart(line[from + r]))
    decreases |line| - from
  {
    if from < |line| && IsIdentifierPart(line[from]) {
      IdentifierRunIsMaximal(line, from + 1);
    }
  }

  /** The length of the match of `^(\d+)(?:\.(\d+))?` at `j`, zero when there is none. */
  function NumberLength(line: string, j: nat): nat
    requires j <= |line|
  {
    var whole := DigitRun(line, j);
    if whole == 0 then 0
    else if j + whole < |line| && line[j + whole] == '.' && DigitRun(line, j + whole + 1) > 0
    then whole + 1 + DigitRun(line, j + whole + 1)
    else whole
  }

  /** The fraction digits with their trailing zeros removed (`replace(/0+$/, '')`). */
  function StripTrailingZeros(s: string): string {
    if s != [] && s[|s| - 1] == '0' then StripTrailingZeros(s[..|s| - 1]) else s
  }

  /** Stripping keeps a prefix, removes only zeros, and leaves no trailing zero. */
  lemma {:induction false} StripTrailingZerosIsMaximal(s: string)
    ensures var r := StripTrailingZeros(s);
      r <= s && (forall k :: |r| <= k < |s| ==> s[k] == '0') && (r == [] || r[|r| - 1] != '0')
  {
    if s != [] && s[|s| - 1] == '0' {
      StripTrailingZerosIsMaximal(s[..|s| - 1]);
    }
  }

  /** The normalised literal of a number: the integer part, then the trimmed fraction or `.0`. */
  function NumberLiteral(integerPart: string, fraction: Option<string>): string {
    var trimmed := if fraction.Some? then StripTrailingZeros(fraction.value) else "";
    integerPart + (if |trimmed| > 0 then "." + trimmed else ".0")
  }

  /**
   * The index of the first reserved word, in table order from `from`, that
   * starts `rest`: the alternation regex tries its alternatives in the order
   * the table lists them and does not require a word boundary.
   */
  function MatchReserved(table: seq<(TokenType, string)>, rest: string, from: nat): (r: Option<nat>)
    requires from <= |table|
    ensures r.Some? ==> from <= r.value < |table|
    decreases |table| - from
  {
    if from == |table| then None
    else if table[from].1 <= rest then Some(from)
    else MatchReserved(table, rest, from + 1)
  }

  /** The match is the first entry that starts `rest`, and there is none exactly when no entry does. */
  lemma {:induction false} MatchReservedIsFirst(table: seq<(TokenType, string)>, rest: string, from: nat)
    requires from <= |table|
    ensures var r := MatchReserved(table, rest, from);
      (r.Some? ==> table[r.value].1 <= rest && forall k :: from <= k < r.value ==> !(table[k].1 <= rest))
      && (r.None? <==> forall k :: from <= k < |table| ==> !(table[k].1 <= rest))
    decreases |table| - from
  {
    if from < |table| && !(table[from].1 <= rest) {
      MatchReservedIsFirst(table, rest, from + 1);
    }
  }

  // ---------------------------------------------------------------- steps

  /** The characters that are a token on their own, with their token types. */
  function SingleCharacterType(c: char): Option<TokenType> {
    match c
    case '(' => Some(LEFT_PAREN)
    case ')' => Some(RIGHT_PAREN)
    case '{' => Some(LEFT_BRACE)
    case '}' => Some(RIGHT_BRACE)
    case ',' => Some(COMMA)
    case '.' => Some(DOT)
    case '-' => Some(MINUS)
    case '+' => Some(PLUS)
    case ';' => Some(SEMICOLON)
    case '*' => Some(STAR)
    case _ => None
  }

  /** The operators that may be followed by `=`: the types without and with it. */
  function OperatorTypes(c: char): Option<(TokenType, TokenType)> {
    match c
    case '>' => Some((GREATER, GREATER_EQUAL))
    case '<' => Some((LESS, LESS_EQUAL))
    case '!' => Some((BANG, BANG_EQUAL))
    case '=' => Some((EQUAL, EQUAL_EQUAL))
    case _ => None
  }

  /** A string literal runs to the next quote on the same line. */
  function StringStep(line: string, j: nat, lineNumber: nat): (r: Step)
    requires j < |line|
    ensures j < r.next <= |line|
  {
    match IndexOf(line, '"', j + 1)
    case None => Step([], [LineError(lineNumber, "Unterminated string.")], |line|, true)
    case Some(close) =>
      var text := line[j + 1..close];
      Step([Token(STRING, "\"" + text + "\"", Str(text), None)], [], close + 1, false)
  }

  /** A one-character operator, or the two-character one when `=` follows. */
  function OperatorStep(line: string, j: nat, single: TokenType, double: TokenType): (r: Step)
    requires j < |line|
    ensures j < r.next <= |line|
  {
    if NextIs(line, j, '=') then Step([Tok(double, [line[j], '='])], [], j + 2, false)
    else Step([Tok(single, [line[j]])], [], j + 1, false)
  }

  /** A number: its lexeme as matched, its literal normalised. */
  function NumberStep(line: string, j: nat, length: nat): (r: Step)
    requires 0 < length && j + length <= |line|
    ensures r.next == j + length
  {
    var whole := DigitRun(line, j);
    var fraction := if length > whole && j + whole + 1 <= j + length then Some(line[j + whole + 1..j + length]) else None;
    var literal := NumberLiteral(line[j..j + min(whole, length)], fraction);
    Step([Token(NUMBER, line[j..j + length], Str(literal), None)], [], j + length, false)
  }

  /** A matched reserved word, recorded under the key of `words` whose lexeme it is. */
  function KeywordStep(words: seq<(TokenType, string)>, line: string, j: nat, word: string): (r: Step)
    requires j < |line|
    ensures j < r.next <= |line|
  {
    var key := FindKey(words, word);
    if key.Some? && 0 < |word| <= |line| - j then Step([Tok(key.value, word)], [], j + |word|, false)
    else Step([], [], j + 1, false)
  }

  /**
   * A reserved word of the table `words`, else an identifier, else an
   * unexpected character. The tokenizer passes `reservedWords`.
   */
  function WordStep(words: seq<(TokenType, string)>, line: string, j: nat, lineNumber: nat): (r: Step)
    requires j < |line|
    ensures j < r.next <= |line|
  {
    match MatchReserved(words, line[j..], 0)
    case Some(index) => KeywordStep(words, line, j, words[index].1)
    case None =>
      if IsIdentifierStart(line[j]) then
        var length := 1 + IdentifierRun(line, j + 1);
        Step([Tok(IDENTIFIER, line[j..j + length])], [], j + length, false)
      else
        Step([], [LineError(lineNumber, "Unexpected character: " + [line[j]])], j + 1, false)
  }

  /** The `default` branch: a number, else a reserved word, else an identifier, else an error. */
  function DefaultStep(line: string, j: nat, lineNumber: nat): (r: Step)
    requires j < |line|
    ensures j < r.next <= |line|
  {
    var numberLength := NumberLength(line, j);
    if numberLength > 0 then NumberStep(line, j, numberLength)
    else WordStep(ReservedWords, line, j, lineNumber)
  }

  function min(a: nat, b: nat): nat {
    if a < b then a else b
  }

  /** What the body of the character loop does at position `j` of a line. */
  function ScanStep(line: string, j: nat, lineNumber: nat): (r: Step)
    requires j < |line|
    ensures j < r.next <= |line|
  {
    var c := line[j];
    if c == '"' then StringStep(line, j, lineNumber)
    else if c == ' ' || c == '\t' then Step([], [], j + 1, false)
    else if c == '/' then
      if NextIs(line, j, '/') then Step([], [], |line|, true)
      else Step([Tok(SLASH, "/")], [], j + 1, false)
    else if OperatorTypes(c).Some? then
      OperatorStep(line, j, OperatorTypes(c).value.0, OperatorTypes(c).value.1)
    else if SingleCharacterType(c).Some? then
      Step([Tok(SingleCharacterType(c).value, [c])], [], j + 1, false)
    else DefaultStep(line, j, lineNumber)
  }

  /** Scanning a line from position `j` to its end, or until a step drops the rest. */
  function ScanFrom(line: string, j: nat, lineNumber: nat): Scanned
    requires j <= |line|
    decreases |line| - j
  {
    if j == |line| then Scanned([], [])
    else
      var step := ScanStep(line, j, lineNumber);
      if step.stopLine then Scanned(step.tokens, step.errors)
      else
        var rest := ScanFrom(line, step.next, lineNumber);
        Scanned(step.tokens + rest.tokens, step.errors + rest.errors)
  }

  /** One step of a line scan followed by the scan of the rest. */
  lemma ScanFromContinues(line: string, j: nat, lineNumber: nat)
    requires j < |line|
    ensures var step := ScanStep(line, j, lineNumber);
      !step.stopLine ==>
        ScanFrom(line, j, lineNumber).tokens == step.tokens + ScanFrom(line, step.next, lineNumber).tokens
        && ScanFrom(line, j, lineNumber).errors == step.errors + ScanFrom(line, step.next, lineNumber).errors
  {
  }

  /** Scanning lines in order; line `i` (from 0) is reported as line `i + 1`. */
  function ScanLines(lines: seq<string>): Scanned {
    if lines == [] then Scanned([], [])
    else
      var before := ScanLines(lines[..|lines| - 1]);
      var last := ScanFrom(lines[|lines| - 1], 0, |lines|);
      Scanned(before.tokens + last.tokens, before.errors + last.errors)
  }

  /** Scanning one more line appends that line's tokens and errors. */
  lemma ScanLinesAppend(lines: seq<string>, i: nat)
    requires i < |lines|
    ensures ScanLines(lines[..i + 1]).tokens == ScanLines(lines[..i]).tokens + ScanFrom(lines[i], 0, i + 1).tokens
    ensures ScanLines(lines[..i + 1]).errors == ScanLines(lines[..i]).errors + ScanFrom(lines[i], 0, i + 1).errors
  {
    assert lines[..i + 1][..i] == lines[..i];
  }

  /** The tokens and errors of a whole file: its lines' tokens, then EOF. */
  function Scan(contents: string): Scanned {
    var lines := ScanLines(SplitLines(contents));
    Scanned(lines.tokens + [EofToken], lines.errors)
  }

  // ----------------------------------------------------------- properties

  /** Every reserved word is at least two letters long and starts with a letter. */
  lemma ReservedWordsShape()
    ensures forall k :: 0 <= k < |ReservedWords| ==>
      |ReservedWords[k].1| >= 2 && IsIdentifierStart(ReservedWords[k].1[0]) && ReservedWords[k].0 != EOF
  {
  }

  /**
   * A step records at most one token and one error, never both; a token's
   * lexeme is exactly the text the step consumed; a step that records
   * nothing and keeps the line skipped one blank or tab.
   */
  lemma StepShape(line: string, j: nat, lineNumber: nat)
    requires j < |line|
    ensures var r := ScanStep(line, j, lineNumber);
      |r.tokens| + |r.errors| <= 1
      && (|r.tokens| == 1 ==> !r.stopLine && r.tokens[0].lexeme == line[j..r.next])
      && (|r.tokens| == 1 ==> r.tokens[0].tokenType != EOF)
      && (r.tokens == [] && r.errors == [] && !r.stopLine ==> r.next == j + 1 && line[j] in {' ', '\t'})
  {
    var c := line[j];
    if c == '"' {
      IndexOfIsFirst(line, '"', j + 1);
      if IndexOf(line, '"', j + 1).Some? {
        var close := IndexOf(line, '"', j + 1).value;
        assert line[j..close + 1] == [line[j]] + line[j + 1..close] + [line[close]];
      }
    } else if c == '/' {
    } else if OperatorTypes(c).Some? {
    } else if SingleCharacterType(c).Some? {
    } else if c != ' ' && c != '\t' {
      DefaultStepShape(line, j, lineNumber);
    }
  }

  lemma DefaultStepShape(line: string, j: nat, lineNumber: nat)
    requires j < |line|
    ensures var r := DefaultStep(line, j, lineNumber);
      |r.tokens| + |r.errors| <= 1 && !r.stopLine
      && (|r.tokens| == 1 ==> r.tokens[0].lexeme == line[j..r.next] && r.tokens[0].tokenType != EOF)
      && (r.tokens == [] ==> r.errors != [])
  {
    if NumberLength(line, j) == 0 {
      ReservedWordsWellFormed();
      WordStepShape(ReservedWords, line, j, lineNumber);
    }
  }

  /**
   * What the scan relies on in the reserved-word table: every word is at
   * least two characters long and starts like an identifier, no key is EOF,
   * and the words are pairwise distinct, so looking a word up finds its own key.
   */
  predicate WellFormedTable(words: seq<(TokenType, string)>) {
    (forall k :: 0 <= k < |words| ==>
      |words[k].1| >= 2 && IsIdentifierStart(words[k].1[0]) && words[k].0 != EOF)
    && (forall i, k :: 0 <= i < k < |words| ==> words[i].1 != words[k].1)
  }

  lemma ReservedWordsWellFormed()
    ensures WellFormedTable(ReservedWords)
  {
    ReservedWordsShape();
    ReservedLexemesDistinct();
  }

  /** Looking up the lexeme of an entry of a table with distinct lexemes gives that entry's key. */
  lemma {:induction false} FindKeyOfEntry(words: seq<(TokenType, string)>, i: nat)
    requires i < |words|
    requires forall a, b :: 0 <= a < b < |words| ==> words[a].1 != words[b].1
    ensures FindKey(words, words[i].1) == Some(words[i].0)
  {
    if i > 0 {
      assert words[0].1 != words[i].1;
      assert words[1..][i - 1] == words[i];
      FindKeyOfEntry(words[1..], i - 1);
    }
  }

  lemma WordStepShape(words: seq<(TokenType, string)>, line: string, j: nat, lineNumber: nat)
    requires j < |line| && WellFormedTable(words)
    ensures var r := WordStep(words, line, j, lineNumber);
      |r.tokens| + |r.errors| <= 1 && !r.stopLine
      && (|r.tokens| == 1 ==> r.tokens[0].lexeme == line[j..r.next] && r.tokens[0].tokenType != EOF)
      && (r.tokens == [] ==> r.errors != [])
  {
    var m := MatchReserved(words, line[j..], 0);
    if m.Some? {
      KeywordMatch(words, line, j, m.value);
    }
  }

  /**
   * When the reserved-word match is the table entry `i`, the step records
   * that entry's key (found by looking its lexeme up again) with the
   * matched text as lexeme.
   */
  lemma KeywordMatch(words: seq<(TokenType, string)>, line: string, j: nat, i: nat)
    requires j < |line| && WellFormedTable(words)
    requires MatchReserved(words, line[j..], 0) == Some(i)
    ensures var word := words[i].1;
      j + |word| <= |line| && line[j..j + |word|] == word
      && KeywordStep(words, line, j, word) == Step([Tok(words[i].0, word)], [], j + |word|, false)
  {
    var word := words[i].1;
    MatchedEntryIsPrefix(words, line[j..], 0, i);
    assert line[j..j + |word|] == word;
    FindKeyOfEntry(words, i);
  }

  /** The matched entry starts the text. */
  lemma {:induction false} MatchedEntryIsPrefix(table: seq<(TokenType, string)>, rest: string, from: nat, i: nat)
    requires from <= |table| && MatchReserved(table, rest, from) == Some(i)
    ensures table[i].1 <= rest
    decreases |table| - from
  {
    if !(table[from].1 <= rest) {
      MatchedEntryIsPrefix(table, rest, from + 1, i);
    }
  }

  /** `>`, `<`, `!` and `=` consume two characters exactly when the next one is `=`. */
  lemma OperatorLength(line: string, j: nat, lineNumber: nat)
    requires j < |line| && line[j] in {'>', '<', '!', '='}
    ensures var r := ScanStep(line, j, lineNumber);
      |r.tokens| == 1 && r.errors == [] && !r.stopLine
      && (r.next == j + 2 <==> j + 1 < |line| && line[j + 1] == '=')
      && (r.next == j + 1 <==> !(j + 1 < |line| && line[j + 1] == '='))
  {
  }

  /** `//` drops the rest of the line; a lone `/` is a SLASH token. */
  lemma CommentEndsLine(line: string, j: nat, lineNumber: nat)
    requires j < |line| && line[j] == '/'
    ensures j + 1 < |line| && line[j + 1] == '/' ==> ScanFrom(line, j, lineNumber) == Scanned([], [])
    ensures !(j + 1 < |line| && line[j + 1] == '/') ==>
      ScanFrom(line, j, lineNumber).tokens[..1] == [Tok(SLASH, "/")]
  {
  }

  /**
   * A string runs to the next quote on the same line: the lexeme keeps the
   * quotes, the literal drops them. Without a closing quote one error is
   * recorded and the rest of the line is dropped.
   */
  lemma StringScan(line: string, j: nat, lineNumber: nat)
    requires j < |line| && line[j] == '"'
    ensures IndexOf(line, '"', j + 1).None? ==>
      ScanFrom(line, j, lineNumber) == Scanned([], [LineError(lineNumber, "Unterminated string.")])
    ensures IndexOf(line, '"', j + 1).Some? ==>
      var close := IndexOf(line, '"', j + 1).value;
      var r := ScanStep(line, j, lineNumber);
      r.tokens == [Token(STRING, line[j..close + 1], Str(line[j + 1..close]), None)]
      && '"' !in line[j + 1..close] && r.next == close + 1
  {
    IndexOfIsFirst(line, '"', j + 1);
    if IndexOf(line, '"', j + 1).Some? {
      var close := IndexOf(line, '"', j + 1).value;
      assert line[j..close + 1] == "\"" + line[j + 1..close] + "\"";
    }
  }

  /** A character that starts no token records "Unexpected character" and scanning goes on with the next one. */
  lemma UnexpectedCharacter(line: string, j: nat, lineNumber: nat)
    requires j < |line|
    requires line[j] !in {'"', ' ', '\t', '/', '>', '<', '!', '=', '(', ')', '{', '}', ',', '.', '-', '+', ';', '*'}
    requires !IsDigit(line[j]) && !IsIdentifierStart(line[j])
    ensures ScanStep(line, j, lineNumber)
      == Step([], [LineError(lineNumber, "Unexpected character: " + [line[j]])], j + 1, false)
  {
    var c := line[j];
    ReservedWordsWellFormed();
    NoWordStartsWith(ReservedWords, line[j..]);
    var error := Step([], [LineError(lineNumber, "Unexpected character: " + [c])], j + 1, false);
    assert WordStep(ReservedWords, line, j, lineNumber) == error;
    assert NumberLength(line, j) == 0;
    assert OperatorTypes(c).None? && SingleCharacterType(c).None?;
  }

  /** No entry matches text whose first character starts none of the entries. */
  lemma NoWordStartsWith(table: seq<(TokenType, string)>, rest: string)
    requires |rest| > 0 && WellFormedTable(table) && !IsIdentifierStart(rest[0])
    ensures MatchReserved(table, rest, 0).None?
  {
    MatchReservedIsFirst(table, rest, 0);
    forall k | 0 <= k < |table| ensures !(table[k].1 <= rest) {
      assert table[k].1[0] != rest[0];
    }
  }

  /** A fraction of zeros only is stripped to nothing. */
  lemma {:induction false} StripZerosOnly(s: string)
    requires forall k :: 0 <= k < |s| ==> s[k] == '0'
    ensures StripTrailingZeros(s) == []
  {
    if s != [] {
      StripZerosOnly(s[..|s| - 1]);
    }
  }

  /**
   * The normalised literal: the integer part and a dot, followed by `0` when
   * there is no fraction or it is all zeros.
   */
  lemma NumberLiteralShape(integerPart: string, fraction: Option<string>)
    ensures var r := NumberLiteral(integerPart, fraction);
      r[..|integerPart| + 1] == integerPart + "."
      && ((fraction.None? || forall k :: 0 <= k < |fraction.value| ==> fraction.value[k] == '0') ==>
           r == integerPart + ".0")
  {
    if fraction.Some? && forall k :: 0 <= k < |fraction.value| ==> fraction.value[k] == '0' {
      StripZerosOnly(fraction.value);
    }
  }

  /** `1.50` is one NUMBER token whose literal is `1.5`. */
  lemma FractionExample()
    ensures ScanFrom("1.50", 0, 1) == Scanned([Token(NUMBER, "1.50", Str("1.5"), None)], [])
  {
    var text := "1.50";
    assert DigitRun(text, 4) == 0;
    assert DigitRun(text, 3) == 1;
    assert DigitRun(text, 2) == 2;
    assert DigitRun(text, 1) == 0;
    assert DigitRun(text, 0) == 1;
    assert NumberLength(text, 0) == 4;
    assert text[2..4] == "50";
    assert StripTrailingZeros("5") == "5";
    assert StripTrailingZeros("50") == "5";
    assert NumberLiteral("1", Some("50")) == "1.5";
    assert text[0..1] == "1";
    assert text[0..4] == "1.50";
    assert NumberStep(text, 0, 4) == Step([Token(NUMBER, "1.50", Str("1.5"), None)], [], 4, false);
    assert ScanStep(text, 0, 1) == Step([Token(NUMBER, "1.50", Str("1.5"), None)], [], 4, false);
  }

  /** `7` is one NUMBER token whose literal is `7.0`. */
  lemma WholeNumberExample()
    ensures ScanFrom("7", 0, 1) == Scanned([Token(NUMBER, "7", Str("7.0"), None)], [])
  {
    assert DigitRun("7", 1) == 0;
    assert DigitRun("7", 0) == 1;
    assert NumberLength("7", 0) == 1;
    assert NumberLiteral("7", None) == "7.0";
    assert "7"[0..1] == "7";
    assert NumberStep("7", 0, 1) == Step([Token(NUMBER, "7", Str("7.0"), None)], [], 1, false);
    assert ScanStep("7", 0, 1) == Step([Token(NUMBER, "7", Str("7.0"), None)], [], 1, false);
  }

  /** Reserved words are matched as prefixes before identifiers: `classy` is CLASS then `y`. */
  lemma KeywordPrefixExample()
    ensures ScanFrom("classy", 0, 1) == Scanned([Tok(TokenType.CLASS, "class"), Tok(IDENTIFIER, "y")], [])
  {
    ClassyFirstStep();
    ClassySecondStep();
  }

  lemma ClassyFirstStep()
    ensures ScanStep("classy", 0, 1) == Step([Tok(TokenType.CLASS, "class")], [], 5, false)
  {
    var text := "classy";
    LetterStartsWord(text, 0, 1);
    assert text[0..] == text;
    assert ReservedWords[0].1 == "and" && !("and" <= text);
    assert ReservedWords[1].1 == "class" && "class" <= text;
    assert MatchReserved(ReservedWords, text, 1) == Some(1);
    assert WordStep(ReservedWords, text, 0, 1) == KeywordStep(ReservedWords, text, 0, "class");
    ReservedWordKeyRoundTrip(1);
    assert FindKey(ReservedWords, "class") == Some(TokenType.CLASS);
  }

  lemma ClassySecondStep()
    ensures ScanStep("classy", 5, 1) == Step([Tok(IDENTIFIER, "y")], [], 6, false)
  {
    var text := "classy";
    LetterStartsWord(text, 5, 1);
    assert text[5..] == "y";
    ShortTextIsNoReservedWord("y");
    assert IdentifierRun(text, 6) == 0;
    assert text[5..6] == "y";
  }

  /** A letter or underscore is handled by the `default` branch, and no number starts there. */
  lemma LetterStartsWord(line: string, j: nat, lineNumber: nat)
    requires j < |line| && IsIdentifierStart(line[j])
    ensures ScanStep(line, j, lineNumber) == WordStep(ReservedWords, line, j, lineNumber)
  {
    var c := line[j];
    assert c != '"' && c != ' ' && c != '\t' && c != '/';
    assert OperatorTypes(c).None?;
    assert SingleCharacterType(c).None?;
    assert DigitRun(line, j) == 0;
    assert NumberLength(line, j) == 0;
    assert DefaultStep(line, j, lineNumber) == WordStep(ReservedWords, line, j, lineNumber);
  }

  /** Text of fewer than two characters starts no reserved word. */
  lemma ShortTextIsNoReservedWord(rest: string)
    requires |rest| < 2
    ensures MatchReserved(ReservedWords, rest, 0).None?
  {
    ReservedWordsWellFormed();
    NoWordFits(ReservedWords, rest);
  }

  /** No entry matches text shorter than every entry. */
  lemma NoWordFits(table: seq<(TokenType, string)>, rest: string)
    requires forall k :: 0 <= k < |table| ==> |table[k].1| > |rest|
    ensures MatchReserved(table, rest, 0).None?
  {
    MatchReservedIsFirst(table, rest, 0);
  }

  /** No scanned line yields an EOF token. */
  lemma {:induction false} ScanFromHasNoEof(line: string, j: nat, lineNumber: nat)
    requires j <= |line|
    ensures forall t :: t in ScanFrom(line, j, lineNumber).tokens ==> t.tokenType != EOF
    decreases |line| - j
  {
    if j < |line| {
      StepShape(line, j, lineNumber);
      var step := ScanStep(line, j, lineNumber);
      if !step.stopLine {
        ScanFromHasNoEof(line, step.next, lineNumber);
      }
    }
  }

  lemma {:induction false} ScanLinesHasNoEof(lines: seq<string>)
    ensures forall t :: t in ScanLines(lines).tokens ==> t.tokenType != EOF
  {
    if lines != [] {
      ScanLinesHasNoEof(lines[..|lines| - 1]);
      ScanFromHasNoEof(lines[|lines| - 1], 0, |lines|);
    }
  }

  /** The token list ends with the one EOF token, with empty lexeme and null literal. */
  lemma ScanEndsWithSingleEof(contents: string)
    ensures var tokens := Scan(contents).tokens;
      |tokens| > 0 && tokens[|tokens| - 1] == Token(EOF, "", Nil, None)
      && forall k :: 0 <= k < |tokens| - 1 ==> tokens[k].tokenType != EOF
  {
    ScanLinesHasNoEof(SplitLines(contents));
    var tokens := Scan(contents).tokens;
    assert forall k :: 0 <= k < |tokens| - 1 ==> tokens[k] in ScanLines(SplitLines(contents)).tokens;
  }
}
