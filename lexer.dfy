/**
 * Phase 1, lexical analysis (`lexicalAnalysis`).
 *
 * The source splits the text on '\n' and scans each line from column 0.
 * At every column it tries an ordered table of anchored patterns; the
 * first one that matches produces a token (unless it is the whitespace
 * pattern) and the column moves past the match.  A column where nothing
 * matches yields a one-character ERROR token and the column moves by one.
 * Each regular expression of the table is written out below as a function
 * giving the length of its match at the start of the remaining line
 * (0 when it does not match; no pattern matches the empty string).
 */
module Lexer {
  import opened Wrappers
  import opened Text

  datatype Kind =
    | Comment | Keyword | Identifier | Number | StringLiteral | Operator
    | Whitespace  // recognised by the table, never emitted
    | Error

  /** A token: its kind, its text, its 1-based line and 0-based column. */
  datatype Token = Token(kind: Kind, value: string, line: nat, column: nat)

  /** One row of the pattern table. */
  datatype Pattern =
    | CommentPattern               // ^\/\/.*$
    | KeywordPattern(word: string) // ^word\b
    | IdentifierPattern            // ^[a-zA-Z_][a-zA-Z0-9_]*
    | NumberPattern                // ^[0-9]+
    | QuotedPattern(quote: char)   // ^"[^"]*"  and  ^'[^']*'
    | OperatorPattern              // ^[+\-*/=<>!&|(){}\[\];:,]
    | WhitespacePattern            // ^\s+

  const Keywords: seq<string> :=
    ["program", "function", "return", "var", "if", "else", "for", "while", "print"]

  /** The table, in the priority order in which it is tried. */
  const Patterns: seq<Pattern> := [
    CommentPattern,
    KeywordPattern("program"), KeywordPattern("function"), KeywordPattern("return"),
    KeywordPattern("var"), KeywordPattern("if"), KeywordPattern("else"),
    KeywordPattern("for"), KeywordPattern("while"), KeywordPattern("print"),
    IdentifierPattern, NumberPattern, QuotedPattern('"'), QuotedPattern('\''),
    OperatorPattern, WhitespacePattern
  ]

  function PatternKind(p: Pattern): Kind {
    match p
    case CommentPattern => Comment
    case KeywordPattern(_) => Keyword
    case IdentifierPattern => Identifier
    case NumberPattern => Number
    case QuotedPattern(_) => StringLiteral
    case OperatorPattern => Operator
    case WhitespacePattern => Whitespace
  }

  /** Characters that the regular-expression `.` does not match. */
  predicate IsLineTerminator(c: char) {
    c == '\n' || c == '\r' || c == '\U{2028}' || c == '\U{2029}'
  }

  predicate IsOperatorChar(c: char) {
    c in "+-*/=<>!&|(){}[];:,"
  }

  predicate IsQuote(c: char) {
    c == '"' || c == '\''
  }

  /** End of the run of word characters starting at `i`. */
  function WordEnd(s: string, i: nat): (j: nat)
    requires i <= |s|
    ensures i <= j <= |s|
    ensures forall k :: i <= k < j ==> IsWordChar(s[k])
    ensures j == |s| || !IsWordChar(s[j])
    decreases |s| - i
  {
    if i < |s| && IsWordChar(s[i]) then WordEnd(s, i + 1) else i
  }

  /** End of the run of digits starting at `i`. */
  function DigitEnd(s: string, i: nat): (j: nat)
    requires i <= |s|
    ensures i <= j <= |s|
    ensures forall k :: i <= k < j ==> IsDigit(s[k])
    ensures j == |s| || !IsDigit(s[j])
    decreases |s| - i
  {
    if i < |s| && IsDigit(s[i]) then DigitEnd(s, i + 1) else i
  }

  predicate CommentMatches(rest: string) {
    StartsWith(rest, "//") && forall k :: 2 <= k < |rest| ==> !IsLineTerminator(rest[k])
  }

  /** `\b` after a keyword: the keyword ends the text or a non-word character follows. */
  predicate KeywordMatches(rest: string, word: string) {
    StartsWith(rest, word) && (|rest| == |word| || !IsWordChar(rest[|word|]))
  }

  /** Length of the match of `p` at the start of `rest`, 0 when it does not match. */
  function MatchLength(p: Pattern, rest: string): (n: nat)
    ensures n <= |rest|
  {
    match p
    case CommentPattern => if CommentMatches(rest) then |rest| else 0
    case KeywordPattern(w) => if KeywordMatches(rest, w) then |w| else 0
    case IdentifierPattern =>
      if |rest| > 0 && IsIdentStart(rest[0]) then WordEnd(rest, 1) else 0
    case NumberPattern => DigitEnd(rest, 0)
    case QuotedPattern(q) =>
      if |rest| > 0 && rest[0] == q && IndexOf(rest, q, 1) < |rest|
      then IndexOf(rest, q, 1) + 1 else 0
    case OperatorPattern => if |rest| > 0 && IsOperatorChar(rest[0]) then 1 else 0
    case WhitespacePattern => SkipWs(rest, 0)
  }

  /** Index of the first row of the table (from `k` on) that matches, or |Patterns|. */
  function FirstPattern(rest: string, k: nat): (p: nat)
    requires k <= |Patterns|
    ensures k <= p <= |Patterns|
    ensures forall q :: k <= q < p ==> MatchLength(Patterns[q], rest) == 0
    ensures p < |Patterns| ==> MatchLength(Patterns[p], rest) > 0
    decreases |Patterns| - k
  {
    if k == |Patterns| || MatchLength(Patterns[k], rest) > 0 then k
    else FirstPattern(rest, k + 1)
  }

  /** What the table recognises at the start of `rest`: a kind and a length. */
  datatype Lexeme = Lexeme(kind: Kind, len: nat)

  /** The lexeme of the first row of the table (from `k` on) that matches. */
  function FirstMatch(rest: string, k: nat): (r: Option<Lexeme>)
    requires k <= |Patterns|
    ensures r.Some? ==> 1 <= r.value.len <= |rest|
    decreases |Patterns| - k
  {
    if k == |Patterns| then None
    else if MatchLength(Patterns[k], rest) > 0
    then Some(Lexeme(PatternKind(Patterns[k]), MatchLength(Patterns[k], rest)))
    else FirstMatch(rest, k + 1)
  }

  /** What the table recognises at the start of `rest`. */
  function Match(rest: string): (r: Option<Lexeme>)
    ensures r.Some? ==> 1 <= r.value.len <= |rest|
  {
    FirstMatch(rest, 0)
  }

  /** The first matching row from `k` is the `p` before which no row from `k` matches. */
  lemma {:induction false} FirstPatternAt(rest: string, k: nat, p: nat)
    requires k <= p <= |Patterns|
    requires forall q :: k <= q < p ==> MatchLength(Patterns[q], rest) == 0
    requires p == |Patterns| || MatchLength(Patterns[p], rest) > 0
    ensures FirstPattern(rest, k) == p
    decreases p - k
  {
    if k < p {
      FirstPatternAt(rest, k + 1, p);
    }
  }

  /** The lexeme of the first match is that of the first matching row. */
  lemma {:induction false} FirstMatchRow(rest: string, k: nat)
    requires k <= |Patterns|
    ensures var p := FirstPattern(rest, k);
      FirstMatch(rest, k) == if p == |Patterns| then None
                             else Some(Lexeme(PatternKind(Patterns[p]), MatchLength(Patterns[p], rest)))
    decreases |Patterns| - k
  {
    if k < |Patterns| && MatchLength(Patterns[k], rest) == 0 {
      FirstMatchRow(rest, k + 1);
    }
  }

  lemma MatchRow(rest: string)
    ensures var p := FirstPattern(rest, 0);
      Match(rest) == if p == |Patterns| then None
                     else Some(Lexeme(PatternKind(Patterns[p]), MatchLength(Patterns[p], rest)))
  {
    FirstMatchRow(rest, 0);
  }

  /** What one column step pushes, and the column it moves to. */
  datatype Step = Step(emitted: seq<Token>, next: nat)

  /** One step of the column loop at `col` on line number `lineNo`. */
  function ScanAt(line: string, lineNo: nat, col: nat): (s: Step)
    requires col < |line|
    ensures col < s.next <= |line|
  {
    match Match(line[col..])
    case None => Step([Token(Error, [line[col]], lineNo, col)], col + 1)
    case Some(m) =>
      var emitted := if m.kind == Whitespace then [] else [Token(m.kind, line[col..col + m.len], lineNo, col)];
      Step(emitted, col + m.len)
  }

  /** The tokens of one line (1-based number `lineNo`) from column `col` on. */
  function LexLine(line: string, lineNo: nat, col: nat): seq<Token>
    requires col <= |line|
    decreases |line| - col
  {
    if col == |line| then []
    else
      var s := ScanAt(line, lineNo, col);
      s.emitted + LexLine(line, lineNo, s.next)
  }

  /** The tokens of the first `n` lines. */
  function LexLines(lines: seq<string>, n: nat): seq<Token>
    requires n <= |lines|
  {
    if n == 0 then [] else LexLines(lines, n - 1) + LexLine(lines[n - 1], n, 0)
  }

  function Tokenize(code: string): seq<Token> {
    var lines := Split(code, '\n');
    LexLines(lines, |lines|)
  }

  /**
   * The pattern loop of `lexicalAnalysis`: try the rows of the table in
   * order and stop at the first that matches.
   */
  method MatchPatterns(currentLine: string) returns (m: Option<Lexeme>)
    ensures m == Match(currentLine)
  {
    var p := 0;
    while p < |Patterns| && MatchLength(Patterns[p], currentLine) == 0
      invariant p <= |Patterns|
      invariant forall q :: 0 <= q < p ==> MatchLength(Patterns[q], currentLine) == 0
    {
      p := p + 1;
    }
    FirstPatternAt(currentLine, 0, p);
    if p < |Patterns| {
      m := Some(Lexeme(PatternKind(Patterns[p]), MatchLength(Patterns[p], currentLine)));
    } else {
      m := None;
    }
    MatchRow(currentLine);
  }

  /**
   * One step of the column loop of `lexicalAnalysis`: the tokens pushed at
   * `column` and the next column.
   */
  method ScanColumn(line: string, lineNo: nat, column: nat) returns (emitted: seq<Token>, next: nat)
    requires column < |line|
    ensures Step(emitted, next) == ScanAt(line, lineNo, column)
  {
    var currentLine := line[column..];
    var m := MatchPatterns(currentLine);
    match m
    case Some(l) =>
      var value := currentLine[..l.len];
      assert value == line[column..column + l.len];
      emitted := if l.kind != Whitespace then [Token(l.kind, value, lineNo, column)] else [];
      next := column + l.len;
    case None =>
      emitted := [Token(Error, [currentLine[0]], lineNo, column)];
      next := column + 1;
  }

  /** `lexicalAnalysis`: the line loop and the column loop. */
  method LexicalAnalysis(code: string) returns (tokens: seq<Token>)
    ensures tokens == Tokenize(code)
  {
    tokens := [];
    var lines := Split(code, '\n');
    for lineIdx := 0 to |lines|
      invariant tokens == LexLines(lines, lineIdx)
    {
      var line := lines[lineIdx];
      ghost var before := tokens;
      var column := 0;
      while column < |line|
        invariant column <= |line|
        invariant tokens + LexLine(line, lineIdx + 1, column) == before + LexLine(line, lineIdx + 1, 0)
        decreases |line| - column
      {
        var emitted, next := ScanColumn(line, lineIdx + 1, column);
        tokens := tokens + emitted;
        column := next;
      }
    }
  }

  // ---------------------------------------------------------------------
  // What a match means, row by row of the table

  /** No row of the table matches at the start of `rest`. */
  predicate Unrecognisable(rest: string)
    requires |rest| > 0
  {
    var c := rest[0];
    && !IsWordChar(c) && !IsWs(c) && !IsOperatorChar(c)
    && !(IsQuote(c) && IndexOf(rest, c, 1) < |rest|)
  }

  /** `//` to the end of the line, with no line terminator after it, as `.*$` demands. */
  predicate IsComment(rest: string, n: nat) {
    && StartsWith(rest, "//") && n == |rest|
    && forall k :: 2 <= k < |rest| ==> !IsLineTerminator(rest[k])
  }

  predicate IsKeyword(rest: string, n: nat) requires n <= |rest| {
    rest[..n] in Keywords && (n == |rest| || !IsWordChar(rest[n]))
  }

  predicate IsIdentifier(rest: string, n: nat) requires n <= |rest| {
    && 1 <= n && rest[..n] !in Keywords && IsIdentStart(rest[0])
    && (forall k :: 0 <= k < n ==> IsWordChar(rest[k]))
    && (n == |rest| || !IsWordChar(rest[n]))
  }

  predicate IsNumber(rest: string, n: nat) requires n <= |rest| {
    1 <= n && AllDigits(rest[..n]) && (n == |rest| || !IsDigit(rest[n]))
  }

  predicate IsString(rest: string, n: nat) requires n <= |rest| {
    && n >= 2 && IsQuote(rest[0]) && rest[n - 1] == rest[0]
    && (forall k :: 0 < k < n - 1 ==> rest[k] != rest[0])
  }

  predicate IsOperator(rest: string, n: nat) requires n <= |rest| {
    n == 1 && IsOperatorChar(rest[0])
  }

  predicate IsWhitespace(rest: string, n: nat) requires n <= |rest| {
    1 <= n && AllWs(rest[..n]) && (n == |rest| || !IsWs(rest[n]))
  }

  /** The first `l.len` characters of `rest` are a lexeme of kind `l.kind`. */
  predicate Recognised(rest: string, l: Lexeme)
    requires l.len <= |rest|
  {
    match l.kind
    case Comment => IsComment(rest, l.len)
    case Keyword => IsKeyword(rest, l.len)
    case Identifier => IsIdentifier(rest, l.len)
    case Number => IsNumber(rest, l.len)
    case StringLiteral => IsString(rest, l.len)
    case Operator => IsOperator(rest, l.len)
    case Whitespace => IsWhitespace(rest, l.len)
    case Error => false
  }

  lemma KeywordRows()
    ensures forall j :: 0 <= j < |Keywords| ==> Patterns[j + 1] == KeywordPattern(Keywords[j])
  {
  }

  lemma LastRows()
    ensures Patterns[10] == IdentifierPattern && Patterns[11] == NumberPattern
    ensures Patterns[12] == QuotedPattern('"') && Patterns[13] == QuotedPattern('\'')
    ensures Patterns[14] == OperatorPattern && Patterns[15] == WhitespacePattern
  {
  }

  /** Only row 10 of the table is the identifier row. */
  lemma IdentifierRow(p: nat)
    requires p < |Patterns| && Patterns[p] == IdentifierPattern
    ensures p == 10
  {
  }

  lemma KeywordRowRecognised(rest: string, w: string)
    requires w in Keywords && MatchLength(KeywordPattern(w), rest) > 0
    ensures IsKeyword(rest, |w|)
  {
  }

  /** An identifier that no keyword row matched is not a keyword. */
  lemma IdentifierRowRecognised(rest: string)
    requires MatchLength(IdentifierPattern, rest) > 0
    requires forall j :: 0 <= j < |Keywords| ==> MatchLength(KeywordPattern(Keywords[j]), rest) == 0
    ensures IsIdentifier(rest, MatchLength(IdentifierPattern, rest))
  {
  }

  lemma QuotedRowRecognised(rest: string, q: char)
    requires IsQuote(q) && MatchLength(QuotedPattern(q), rest) > 0
    ensures IsString(rest, MatchLength(QuotedPattern(q), rest))
  {
  }

  /** Whatever the table matches is a lexeme of the kind of the row that matched. */
  lemma MatchRecognised(rest: string)
    requires Match(rest).Some?
    ensures Recognised(rest, Match(rest).value)
  {
    MatchRow(rest);
    var p := FirstPattern(rest, 0);
    RowRecognised(rest, p);
  }

  /** The first row that matches recognises what it matched. */
  lemma RowRecognised(rest: string, p: nat)
    requires p < |Patterns| && MatchLength(Patterns[p], rest) > 0
    requires forall q :: 0 <= q < p ==> MatchLength(Patterns[q], rest) == 0
    ensures Recognised(rest, Lexeme(PatternKind(Patterns[p]), MatchLength(Patterns[p], rest)))
  {
    match Patterns[p]
    case CommentPattern =>
    case KeywordPattern(w) =>
      assert Patterns[p] in Patterns;
      KeywordRowRecognised(rest, w);
    case IdentifierPattern =>
      IdentifierFirst(rest, p);
    case NumberPattern =>
    case QuotedPattern(q) =>
      assert Patterns[p] in Patterns;
      QuotedRowRecognised(rest, q);
    case OperatorPattern =>
    case WhitespacePattern =>
  }

  /** The identifier row comes after every keyword row, so a match there is no keyword. */
  lemma IdentifierFirst(rest: string, p: nat)
    requires p < |Patterns| && Patterns[p] == IdentifierPattern && MatchLength(IdentifierPattern, rest) > 0
    requires forall q :: 0 <= q < p ==> MatchLength(Patterns[q], rest) == 0
    ensures IsIdentifier(rest, MatchLength(IdentifierPattern, rest))
  {
    IdentifierRow(p);
    KeywordRows();
    forall j | 0 <= j < |Keywords|
      ensures MatchLength(KeywordPattern(Keywords[j]), rest) == 0
    {
      assert MatchLength(Patterns[j + 1], rest) == 0;
    }
    IdentifierRowRecognised(rest);
  }

  /** A row that matches at a character rules out that the character is unrecognisable. */
  lemma RowMatchRecognisable(pat: Pattern, rest: string)
    requires pat in Patterns && MatchLength(pat, rest) > 0
    ensures !Unrecognisable(rest)
  {
    match pat
    case KeywordPattern(w) =>
      KeywordStartsWord(w, rest);
    case CommentPattern =>
      assert rest[0] == '/';
    case _ =>
  }

  /** Every keyword starts with a letter, so a keyword match starts with a word character. */
  lemma KeywordStartsWord(w: string, rest: string)
    requires KeywordPattern(w) in Patterns && KeywordMatches(rest, w)
    ensures |rest| > 0 && IsWordChar(rest[0])
  {
    assert w in Keywords;
    assert |w| > 0 && IsLetter(w[0]);
    assert rest[0] == rest[..|w|][0] == w[0];
  }

  /** Where the table matches nothing, its last six rows fail. */
  lemma NoRowMatches(rest: string)
    requires Match(rest).None?
    ensures MatchLength(IdentifierPattern, rest) == 0 && MatchLength(NumberPattern, rest) == 0
    ensures MatchLength(QuotedPattern('"'), rest) == 0 && MatchLength(QuotedPattern('\''), rest) == 0
    ensures MatchLength(OperatorPattern, rest) == 0 && MatchLength(WhitespacePattern, rest) == 0
  {
    MatchRow(rest);
    LastRows();
  }

  lemma FailingRowsUnrecognisable(rest: string)
    requires |rest| > 0
    requires MatchLength(IdentifierPattern, rest) == 0 && MatchLength(NumberPattern, rest) == 0
    requires MatchLength(QuotedPattern('"'), rest) == 0 && MatchLength(QuotedPattern('\''), rest) == 0
    requires MatchLength(OperatorPattern, rest) == 0 && MatchLength(WhitespacePattern, rest) == 0
    ensures Unrecognisable(rest)
  {
  }

  /** The table matches nothing exactly at an unrecognisable character. */
  lemma MatchNone(rest: string)
    requires |rest| > 0
    ensures Match(rest).None? <==> Unrecognisable(rest)
  {
    MatchRow(rest);
    if Match(rest).None? {
      NoRowMatches(rest);
      FailingRowsUnrecognisable(rest);
    } else {
      var p := FirstPattern(rest, 0);
      RowMatchRecognisable(Patterns[p], rest);
    }
  }

  // ---------------------------------------------------------------------
  // Positions and coverage of the tokens of a line

  /** A token sits on `line` where its column says and is classified by the table there. */
  predicate Classified(line: string, t: Token) {
    && t.column < |line| && 1 <= |t.value| <= |line| - t.column
    && t.value == line[t.column..t.column + |t.value|]
    && var rest := line[t.column..];
       if t.kind == Error then |t.value| == 1 && Unrecognisable(rest)
       else Recognised(rest, Lexeme(t.kind, |t.value|))
  }

  /**
   * The text of `line` from `col` on is exactly the tokens `toks`, in
   * increasing column order, with only whitespace before, between and after
   * them.
   */
  predicate Covers(line: string, toks: seq<Token>, col: nat)
    decreases |toks|
  {
    && col <= |line|
    && if toks == [] then AllWs(line[col..])
       else
         var t := toks[0];
         var end := t.column + |t.value|;
         && col <= t.column < end <= |line|
         && AllWs(line[col..t.column])
         && line[t.column..end] == t.value
         && Covers(line, toks[1..], end)
  }

  lemma CoversWiden(line: string, toks: seq<Token>, c1: nat, c2: nat)
    requires c1 <= c2 <= |line| && AllWs(line[c1..c2]) && Covers(line, toks, c2)
    ensures Covers(line, toks, c1)
  {
    var stop := if toks == [] then |line| else toks[0].column;
    assert forall k :: c1 <= k < stop ==> (k < c2 ==> line[c1..c2][k - c1] == line[k]) && (k >= c2 ==> line[c2..stop][k - c2] == line[k]);
  }

  /** A column step pushes nothing exactly over a run of whitespace. */
  lemma ScanAtSkips(line: string, lineNo: nat, col: nat)
    requires col < |line| && ScanAt(line, lineNo, col).emitted == []
    ensures AllWs(line[col..ScanAt(line, lineNo, col).next])
  {
    var rest := line[col..];
    assert Match(rest).Some? && Match(rest).value.kind == Whitespace;
    MatchRecognised(rest);
    var n := Match(rest).value.len;
    assert IsWhitespace(rest, n);
    assert rest[..n] == line[col..col + n];
    assert ScanAt(line, lineNo, col).next == col + n;
    assert AllWs(line[col..col + n]);
  }

  /** Otherwise it pushes one classified token that ends at the next column. */
  lemma ScanAtToken(line: string, lineNo: nat, col: nat)
    requires col < |line| && ScanAt(line, lineNo, col).emitted != []
    ensures var s := ScanAt(line, lineNo, col);
      && |s.emitted| == 1
      && var t := s.emitted[0];
         t.column == col && t.line == lineNo && t.kind != Whitespace
         && col + |t.value| == s.next && Classified(line, t)
  {
    var rest := line[col..];
    var t := ScanAt(line, lineNo, col).emitted[0];
    match Match(rest)
    case None =>
      MatchNone(rest);
      assert t == Token(Error, [line[col]], lineNo, col);
      assert t.value == line[col..col + 1];
    case Some(m) =>
      MatchRecognised(rest);
      assert t == Token(m.kind, line[col..col + m.len], lineNo, col);
      assert Lexeme(t.kind, |t.value|) == m;
  }

  lemma CoversCons(line: string, t: Token, rest: seq<Token>, col: nat)
    requires col == t.column && col + |t.value| <= |line| && |t.value| >= 1
    requires line[col..col + |t.value|] == t.value
    requires Covers(line, rest, col + |t.value|)
    ensures Covers(line, [t] + rest, col)
  {
    assert ([t] + rest)[1..] == rest;
  }

  /** The token a column step pushes spans exactly the characters it steps over. */
  lemma ScanAtSpan(line: string, lineNo: nat, col: nat)
    requires col < |line| && ScanAt(line, lineNo, col).emitted != []
    ensures var s := ScanAt(line, lineNo, col);
      |s.emitted| == 1 && s.emitted[0].column == col && line[col..s.next] == s.emitted[0].value
  {
  }

  /** Tokenizer coverage: a line is its tokens and whitespace, in order. */
  lemma {:induction false} LexLineCovers(line: string, lineNo: nat, col: nat)
    requires col <= |line|
    ensures Covers(line, LexLine(line, lineNo, col), col)
    decreases |line| - col
  {
    if col < |line| {
      var s := ScanAt(line, lineNo, col);
      var rest := LexLine(line, lineNo, s.next);
      LexLineCovers(line, lineNo, s.next);
      if s.emitted == [] {
        ScanAtSkips(line, lineNo, col);
        CoversWiden(line, rest, col, s.next);
        assert LexLine(line, lineNo, col) == [] + rest;
        assert [] + rest == rest;
      } else {
        ScanAtSpan(line, lineNo, col);
        var t := s.emitted[0];
        CoversCons(line, t, rest, col);
        assert LexLine(line, lineNo, col) == [t] + rest;
      }
    }
  }

  /** Every token of a line carries the line's number and is classified where it stands. */
  lemma {:induction false} LexLineTokens(line: string, lineNo: nat, col: nat)
    requires col <= |line|
    ensures forall t :: t in LexLine(line, lineNo, col) ==>
      t.line == lineNo && col <= t.column && t.kind != Whitespace && Classified(line, t)
    decreases |line| - col
  {
    if col < |line| {
      var s := ScanAt(line, lineNo, col);
      LexLineTokens(line, lineNo, s.next);
      if s.emitted != [] {
        ScanAtToken(line, lineNo, col);
      }
    }
  }

  /**
   * Every token of the text carries a line number between 1 and the number
   * of lines, and is classified where it stands on that line.
   */
  lemma {:induction false} LexLinesTokens(lines: seq<string>, n: nat)
    requires n <= |lines|
    ensures forall t :: t in LexLines(lines, n) ==>
      1 <= t.line <= n && t.kind != Whitespace && Classified(lines[t.line - 1], t)
  {
    if n > 0 {
      LexLinesTokens(lines, n - 1);
      LexLineTokens(lines[n - 1], n, 0);
    }
  }

  /** Line numbers never decrease along the token stream. */
  lemma {:induction false} LexLinesOrdered(lines: seq<string>, n: nat)
    requires n <= |lines|
    ensures forall i, j :: 0 <= i < j < |LexLines(lines, n)| ==>
      LexLines(lines, n)[i].line <= LexLines(lines, n)[j].line
  {
    if n > 0 {
      LexLinesOrdered(lines, n - 1);
      LexLinesTokens(lines, n - 1);
      LexLineTokens(lines[n - 1], n, 0);
      var a, b := LexLines(lines, n - 1), LexLine(lines[n - 1], n, 0);
      var ab: seq<Token> := a + b;
      assert LexLines(lines, n) == ab;
      forall i, j | 0 <= i < j < |ab|
        ensures ab[i].line <= ab[j].line
      {
        if j < |a| {
        } else if i < |a| {
          assert a[i] in a && b[j - |a|] in b;
        } else {
          assert b[i - |a|] in b && b[j - |a|] in b;
        }
      }
    }
  }

  /** The tokens of `code`: positioned, classified and in line order. */
  lemma TokenizeTokens(code: string)
    ensures var lines := Split(code, '\n');
      && (forall t :: t in Tokenize(code) ==>
            1 <= t.line <= |lines| && t.kind != Whitespace && Classified(lines[t.line - 1], t))
      && (forall i, j :: 0 <= i < j < |Tokenize(code)| ==> Tokenize(code)[i].line <= Tokenize(code)[j].line)
  {
    var lines := Split(code, '\n');
    LexLinesTokens(lines, |lines|);
    LexLinesOrdered(lines, |lines|);
  }
}
