/** The scanner as the source writes it: cursor state in fields, advanced one
    character at a time, tokens appended to a list, errors reported to the
    error log. Every method is proved to do what the corresponding part of
    the `Scanning` functions describes. */
module Lexer {
  import opened Tokens
  import opened Milt
  import opened Scanning
  import opened Sequences
  import opened ScanProperties

  class Lexer {
    var source: string
    var tokens: seq<Token>
    var currentLexemeStart: int
    var currentIndex: int
    var currentLine: int
    /** Where errors go (the driver's `Error`). */
    const errors: ErrorLog

    /** The cursor never leaves the source. */
    ghost predicate Valid()
      reads this
    {
      0 <= currentIndex <= |source|
    }

    /** The lexeme being read is `source[currentLexemeStart..currentIndex]`. */
    ghost predicate InLexeme()
      reads this
    {
      Valid() && 0 <= currentLexemeStart <= currentIndex
    }

    /** The state before the first call: nothing read, line 1. The source's
        text field starts out null; `""` stands for it here, since no scan
        reads it before `Lex` sets it. */
    constructor (errors: ErrorLog)
      ensures this.errors == errors && source == "" && tokens == []
      ensures currentLexemeStart == 0 && currentIndex == 0 && currentLine == 1
    {
      this.errors := errors;
      source := "";
      tokens := [];
      currentLexemeStart, currentIndex, currentLine := 0, 0, 1;
    }

    /** Scans all of `text`. The result is the reference token list, the log
        gains exactly the reference errors, and its flag is set if any. */
    method Lex(text: string) returns (result: seq<Token>)
      requires errors.Valid()
      modifies this, errors
      ensures Valid() && errors.Valid() && source == text
      ensures result == Tokenize(text) && tokens == result
      ensures errors.reported == old(errors.reported) + ScanErrors(text)
      ensures errors.hadError == (old(errors.hadError) || ScanErrors(text) != [])
      ensures currentIndex == |text| && currentLine == EntryLine + Newlines(text, 0, |text|)
    {
      source := text;
      tokens := [];
      currentIndex := 0;
      currentLine := 0;

      while !AtEnd()
        invariant Valid() && source == text && errors.Valid()
        invariant Scan(text, 0, EntryLine).tokens == tokens + Scan(text, currentIndex, currentLine).tokens
        invariant old(errors.reported) + Scan(text, 0, EntryLine).diags ==
                  errors.reported + Scan(text, currentIndex, currentLine).diags
        invariant Scan(text, 0, EntryLine).line == Scan(text, currentIndex, currentLine).line
        decreases |source| - currentIndex
      {
        currentLexemeStart := currentIndex;
        ghost var before, reportedBefore := tokens, errors.reported;
        ghost var st := ScanStep(text, currentIndex, currentLine);
        ghost var rest := Scan(text, st.next, st.line);
        ScanUnfolds(text, currentIndex, currentLine);
        EatToken();
        ConcatAssociates(before, ToSeq(st.token), rest.tokens);
        ConcatAssociates(reportedBefore, ToSeq(st.diag), rest.diags);
      }

      ScanEndLine(text, 0, EntryLine);
      tokens := tokens + [Token(Eof, "", NoValue, currentLine)];
      result := tokens;
    }

    /** One turn of the main loop: consumes one lexeme as `ScanStep` says,
        appending its token or reporting its error. */
    method EatToken()
      requires Valid() && currentLexemeStart == currentIndex < |source| && errors.Valid()
      modifies this`currentIndex, this`currentLine, this`tokens, errors
      ensures Valid() && errors.Valid()
      ensures var st := ScanStep(source, old(currentIndex), old(currentLine));
        currentIndex == st.next && currentLine == st.line &&
        tokens == old(tokens) + ToSeq(st.token) &&
        errors.reported == old(errors.reported) + ToSeq(st.diag)
    {
      var c := EatChar();
      if SingleCharKind(c).Some? {
        // ( ) { } [ ] , . _ : ; ? + - * %
        AddToken(SingleCharKind(c).value, NoValue);
      } else if OperatorKinds(c).Some? {
        // ! = < > and their forms followed by =
        var (alone, withEqual) := OperatorKinds(c).value;
        var m := MatchNext('=');
        AddToken(if m then withEqual else alone, NoValue);
      } else {
        match c
        case '/' =>
          var m := MatchNext('/');
          if m {
            SkipComment();
          } else {
            AddToken(Slash, NoValue);
          }

        case ' ' | '\r' | '\t' =>
        case '\n' => currentLine := currentLine + 1;
        case '"' =>
          HandleString();
          StringTurn(source, currentLexemeStart, old(currentLine), currentIndex, currentLine,
            old(tokens), tokens, old(errors.reported), errors.reported);

        case _ =>
          if IsDigit(c) {
            HandleNumber();
            NumberTurn(source, currentLexemeStart, currentIndex, currentLine, old(tokens), tokens);
          } else if IsLetter(c) {
            HandleIdentifier();
          } else {
            UnexpectedCharacter(source, currentLexemeStart, currentLine);
            errors.Error(currentLine, "Unexpected Character '" + [c] + "'");
          }
      }
    }

    /** The comment loop of `EatToken`: a comment runs up to the end of its
        line, and the line terminator is left for the main loop. */
    method SkipComment()
      requires Valid()
      modifies this`currentIndex
      ensures Valid() && currentIndex == SpanEnd(source, old(currentIndex), LineText)
    {
      while CurrentChar() != '\n' && !AtEnd()
        invariant Valid() && old(currentIndex) <= currentIndex
        invariant SpanEnd(source, currentIndex, LineText) == SpanEnd(source, old(currentIndex), LineText)
        decreases |source| - currentIndex
      {
        var _ := EatChar();
      }
    }

    method HandleIdentifier()
      requires InLexeme() && currentIndex == currentLexemeStart + 1 && IsLetter(source[currentLexemeStart])
      modifies this`currentIndex, this`tokens
      ensures InLexeme()
      ensures var st := WordStep(source, currentLexemeStart, currentLine);
        currentIndex == st.next && tokens == old(tokens) + ToSeq(st.token)
    {
      while IsAlphaNumeric(CurrentChar())
        invariant InLexeme() && currentLexemeStart < currentIndex
        modifies this`currentIndex
        invariant SpanEnd(source, currentIndex, WordChars) == SpanEnd(source, currentLexemeStart, WordChars)
        decreases |source| - currentIndex
      {
        var _ := EatChar();
      }
      assert currentIndex == SpanEnd(source, currentLexemeStart, WordChars);
      var kind := KindOfWord(CurrentLexeme());
      AddToken(kind, NoValue);
    }

    method HandleNumber()
      requires InLexeme() && currentIndex == currentLexemeStart + 1 && IsDigit(source[currentLexemeStart])
      modifies this`currentIndex, this`tokens
      ensures InLexeme()
      ensures NumberOutcome(source, currentLexemeStart, currentIndex, currentLine, old(tokens), tokens)
    {
      SkipDigits();
      ghost var intEnd := currentIndex;
      assert intEnd == SpanEnd(source, currentLexemeStart, Digits);

      // a `.` belongs to the number only when a digit follows it
      var isFloat := false;
      if CurrentChar() == '.' && IsDigit(PeekChar()) {
        assert HasFraction(source, intEnd);
        isFloat := true;
        var _ := EatChar();
        SkipDigits();
      } else {
        assert !HasFraction(source, intEnd);
      }

      var lexeme := CurrentLexeme();
      // the conditional has type float: the integer is converted to float
      var literal := if isFloat then FloatValue(lexeme) else WholeValue(SingleOf(DecimalValue(lexeme)));
      AddToken(Number, literal);
    }

    /** The digit loop, which `HandleNumber` runs for the integer part and
        again for the fraction. */
    method SkipDigits()
      requires Valid()
      modifies this`currentIndex
      ensures Valid() && currentIndex == SpanEnd(source, old(currentIndex), Digits)
    {
      while IsDigit(CurrentChar())
        invariant Valid() && old(currentIndex) <= currentIndex
        invariant SpanEnd(source, currentIndex, Digits) == SpanEnd(source, old(currentIndex), Digits)
        decreases |source| - currentIndex
      {
        var _ := EatChar();
      }
    }

    method HandleString()
      requires InLexeme() && currentIndex == currentLexemeStart + 1 && source[currentLexemeStart] == '"'
      requires errors.Valid()
      modifies this`currentIndex, this`currentLine, this`tokens, errors
      ensures InLexeme() && errors.Valid()
      ensures StringOutcome(source, currentLexemeStart, old(currentLine), currentIndex, currentLine,
        old(tokens), tokens, old(errors.reported), errors.reported)
    {
      SkipStringText();
      if AtEnd() {
        errors.Error(currentLine, "Unterminated string.");
        return;
      }
      CloseString();
    }

    /** The end of `HandleString` for a closed literal: takes the closing quote
        and appends the token, whose value is the lexeme with its quotes
        trimmed off. */
    method CloseString()
      requires InLexeme() && currentLexemeStart < currentIndex < |source|
      requires source[currentLexemeStart] == '"' && source[currentIndex] == '"'
      requires currentIndex == SpanEnd(source, currentLexemeStart + 1, StringText)
      modifies this`currentIndex, this`tokens
      ensures InLexeme() && currentIndex == old(currentIndex) + 1
      ensures tokens == old(tokens) + [Token(String, source[currentLexemeStart..currentIndex],
        StringValue(source[currentLexemeStart + 1..old(currentIndex)]), currentLine)]
    {
      // the closing quote
      var _ := EatChar();

      // the text without its quotes
      var literal := Trim(CurrentLexeme(), '"');
      TrimQuoted(source, currentLexemeStart, currentIndex);
      AddToken(String, StringValue(literal));
    }

    /** The loop of `HandleString`: reads up to the closing quote or the end
        of the input, counting the line terminators it passes. */
    method SkipStringText()
      requires Valid() && 0 <= currentLexemeStart < currentIndex
      modifies this`currentIndex, this`currentLine
      ensures Valid()
      ensures currentIndex == SpanEnd(source, old(currentIndex), StringText)
      ensures currentIndex < |source| ==> source[currentIndex] == '"'
      ensures currentLine == old(currentLine) + Newlines(source, old(currentIndex), currentIndex)
    {
      while CurrentChar() != '"' && !AtEnd()
        invariant Valid() && old(currentIndex) <= currentIndex
        invariant SpanEnd(source, currentIndex, StringText) == SpanEnd(source, old(currentIndex), StringText)
        invariant currentLine == old(currentLine) + Newlines(source, old(currentIndex), currentIndex)
        decreases |source| - currentIndex
      {
        if CurrentChar() == '\n' {
          currentLine := currentLine + 1;
        }
        var _ := EatChar();
      }
    }

    /** Whether the whole source has been consumed. */
    function AtEnd(): (r: bool)
      requires Valid()
      reads this
      ensures r <==> currentIndex == |source|
    {
      currentIndex >= |source|
    }

    /** Consumes the current character only when it is `expected`. */
    method MatchNext(expected: char) returns (matched: bool)
      requires Valid()
      modifies this`currentIndex
      ensures Valid()
      ensures matched <==> old(currentIndex) < |source| && source[old(currentIndex)] == expected
      ensures currentIndex == if matched then old(currentIndex) + 1 else old(currentIndex)
    {
      if AtEnd() {
        return false;
      }
      if source[currentIndex] != expected {
        return false;
      }
      currentIndex := currentIndex + 1;
      return true;
    }

    /** Consumes and returns the current character. */
    method EatChar() returns (c: char)
      requires Valid() && currentIndex < |source|
      modifies this`currentIndex
      ensures Valid() && currentIndex == old(currentIndex) + 1
      ensures c == source[old(currentIndex)]
    {
      c := source[currentIndex];
      currentIndex := currentIndex + 1;
    }

    /** The character under the cursor, or `'\0'` at the end (a character no
        scanning loop continues on). */
    function CurrentChar(): (c: char)
      requires Valid()
      reads this
      ensures currentIndex < |source| ==> c == source[currentIndex]
      ensures currentIndex == |source| ==> c == '\0' && !IsDigit(c) && !IsAlphaNumeric(c)
    {
      if AtEnd() then '\0' else source[currentIndex]
    }

    /** The character after the cursor, or `'\0'` if there is none. */
    function PeekChar(): (c: char)
      requires Valid()
      reads this
      ensures currentIndex + 1 < |source| ==> c == source[currentIndex + 1]
      ensures currentIndex + 1 >= |source| ==> c == '\0' && !IsDigit(c)
    {
      if currentIndex + 1 >= |source| then '\0' else source[currentIndex + 1]
    }

    /** The text read since the lexeme started. */
    function CurrentLexeme(): (lexeme: string)
      requires InLexeme()
      reads this
      ensures |lexeme| == currentIndex - currentLexemeStart
      ensures lexeme == source[currentLexemeStart..currentIndex]
    {
      source[currentLexemeStart..currentIndex]
    }

    /** Appends a token for the current lexeme on the current line. */
    method AddToken(kind: TokenType, value: Literal)
      requires InLexeme()
      modifies this`tokens
      ensures tokens == old(tokens) + [Token(kind, source[currentLexemeStart..currentIndex], value, currentLine)]
    {
      tokens := tokens + [Token(kind, CurrentLexeme(), value, currentLine)];
    }
  }

  // ---------------------------------------------------------------------------
  // String trimming of the runtime library

  /** The first position from `i` on that does not hold `c`. */
  function SkipLeading(s: string, c: char, i: nat): (j: nat)
    requires i <= |s|
    ensures i <= j <= |s|
    decreases |s| - i
  {
    if i < |s| && s[i] == c then SkipLeading(s, c, i + 1) else i
  }

  /** Going back from `j` over occurrences of `c`, but not below `lo`. */
  function SkipTrailing(s: string, c: char, lo: nat, j: nat): (k: nat)
    requires lo <= j <= |s|
    ensures lo <= k <= j
    decreases j
  {
    if j > lo && s[j - 1] == c then SkipTrailing(s, c, lo, j - 1) else j
  }

  /** `s` without its leading and trailing occurrences of `c`. */
  function Trim(s: string, c: char): string {
    var lo := SkipLeading(s, c, 0);
    s[lo..SkipTrailing(s, c, lo, |s|)]
  }

  /** Trimming removes exactly the leading and trailing runs of `c`: what is
      cut off holds only `c`, and what is left neither starts nor ends with it. */
  lemma {:induction false} TrimCutsRuns(s: string, c: char)
    ensures exists lo, hi ::
      0 <= lo <= hi <= |s| && Trim(s, c) == s[lo..hi] &&
      (forall k :: 0 <= k < lo ==> s[k] == c) && (forall k :: hi <= k < |s| ==> s[k] == c)
    ensures var r := Trim(s, c); r != [] ==> r[0] != c && r[|r| - 1] != c
  {
    var lo := SkipLeading(s, c, 0);
    var hi := SkipTrailing(s, c, lo, |s|);
    LeadingRun(s, c, 0);
    TrailingRun(s, c, lo, |s|);
    assert Trim(s, c) == s[lo..hi];
  }

  lemma {:induction false} LeadingRun(s: string, c: char, i: nat)
    requires i <= |s|
    ensures var j := SkipLeading(s, c, i);
      (forall k :: i <= k < j ==> s[k] == c) && (j < |s| ==> s[j] != c)
    decreases |s| - i
  {
    if i < |s| && s[i] == c {
      LeadingRun(s, c, i + 1);
    }
  }

  lemma {:induction false} TrailingRun(s: string, c: char, lo: nat, j: nat)
    requires lo <= j <= |s|
    ensures var k := SkipTrailing(s, c, lo, j);
      (forall m :: k <= m < j ==> s[m] == c) && (k > lo ==> s[k - 1] != c)
    decreases j
  {
    if j > lo && s[j - 1] == c {
      TrailingRun(s, c, lo, j - 1);
    }
  }

  /** Trimming the quotes off a scanned string literal leaves exactly its text,
      because the text holds no quote. */
  lemma TrimQuoted(s: string, start: nat, next: nat)
    requires start + 2 <= next <= |s| && s[start] == '"' && s[next - 1] == '"'
    requires next - 1 == SpanEnd(s, start + 1, StringText)
    ensures Trim(s[start..next], '"') == s[start + 1..next - 1]
  {
    var x := s[start..next];
    var n := |x|;
    assert x[0] == '"' && x[n - 1] == '"';
    if n == 2 {
      assert x[1] == '"';
      assert SkipLeading(x, '"', 0) == 2;
      assert SkipTrailing(x, '"', 2, n) == 2;
    } else {
      SpanEndIsMaximal(s, start + 1, StringText);
      assert x[1] == s[start + 1] != '"';
      assert x[n - 2] == s[next - 2] != '"';
      assert SkipLeading(x, '"', 0) == 1;
      assert SkipTrailing(x, '"', 1, n - 1) == n - 1;
      assert SkipTrailing(x, '"', 1, n) == n - 1;
      var inner, text := x[1..n - 1], s[start + 1..next - 1];
      assert inner == text by {
        forall k | 0 <= k < |inner| ensures inner[k] == text[k] {
          assert inner[k] == x[k + 1] == s[start + k + 1];
        }
      }
    }
  }

  /** What reading a string literal from the quote at `start` does to the
      cursor (`next`), the line counter (`line` to `l`), the token list (`t0`
      to `t1`) and the error log (`r0` to `r1`): the text runs to the next
      quote; without one, the rest of the input is consumed and an error is
      reported. */
  ghost predicate StringOutcome(s: string, start: nat, line: int, next: int, l: int,
                                t0: seq<Token>, t1: seq<Token>, r0: seq<Diagnostic>, r1: seq<Diagnostic>)
    requires start < |s|
  {
    var close := SpanEnd(s, start + 1, StringText);
    l == line + Newlines(s, start + 1, close) &&
    if close == |s| then
      next == close && t1 == t0 && r1 == r0 + [Diagnostic(l, "Unterminated string.")]
    else
      var literal := Token(String, s[start..close + 1], StringValue(s[start + 1..close]), l);
      next == close + 1 && r1 == r0 && t1 == t0 + [literal]
  }

  /** That outcome is the reference turn for a quote. */
  lemma StringTurn(s: string, start: nat, line: int, next: int, l: int,
                   t0: seq<Token>, t1: seq<Token>, r0: seq<Diagnostic>, r1: seq<Diagnostic>)
    requires start < |s| && s[start] == '"'
    requires StringOutcome(s, start, line, next, l, t0, t1, r0, r1)
    ensures var st := ScanStep(s, start, line);
      next == st.next && l == st.line && t1 == t0 + ToSeq(st.token) && r1 == r0 + ToSeq(st.diag)
  {
    assert SingleCharKind(s[start]).None? && OperatorKinds(s[start]).None?;
  }

  /** What reading a number from the digit at `start` does to the cursor
      (`next`) and the token list (`t0` to `t1`): the integer digits, and the
      fraction when a digit follows the `.`; the literal is a decimal number
      in the second case and the float of the integer value in the first. */
  ghost predicate NumberOutcome(s: string, start: nat, next: int, line: int, t0: seq<Token>, t1: seq<Token>)
    requires start < |s|
  {
    var intEnd := SpanEnd(s, start, Digits);
    start <= next <= |s| &&
    if HasFraction(s, intEnd) then
      next == SpanEnd(s, intEnd + 1, Digits) && t1 == t0 + [Token(Number, s[start..next], FloatValue(s[start..next]), line)]
    else
      next == intEnd && t1 == t0 + [Token(Number, s[start..next], WholeValue(SingleOf(DecimalValue(s[start..next]))), line)]
  }

  /** That outcome is the reference turn for a digit. */
  lemma NumberTurn(s: string, start: nat, next: int, line: int, t0: seq<Token>, t1: seq<Token>)
    requires start < |s| && IsDigit(s[start])
    requires NumberOutcome(s, start, next, line, t0, t1)
    ensures var st := ScanStep(s, start, line);
      next == st.next && line == st.line && t1 == t0 + ToSeq(st.token) && st.diag.None?
  {
    assert SingleCharKind(s[start]).None? && OperatorKinds(s[start]).None?;
  }
}
