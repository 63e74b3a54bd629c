/** What the scanner guarantees, proved about the reference functions of
    `Scanning` (and so, through `Lexer.Lexer.Lex`, about the class). */
module ScanProperties {
  import opened Tokens
  import opened Milt
  import opened Scanning
  import opened Sequences

  // ---------------------------------------------------------------------------
  // Runs and line terminators

  /** A run ends at the first position that does not continue it. */
  lemma {:induction false} SpanEndAt(s: string, i: nat, run: Run, j: nat)
    requires i <= j <= |s|
    requires forall k :: i <= k < j ==> Continues(run, s[k])
    requires j == |s| || !Continues(run, s[j])
    ensures SpanEnd(s, i, run) == j
    decreases j - i
  {
    if i < j {
      SpanEndAt(s, i + 1, run, j);
    }
  }

  /** Counting line terminators is additive over adjacent ranges. */
  lemma {:induction false} NewlinesSplit(s: string, i: nat, j: nat, k: nat)
    requires i <= j <= k <= |s|
    ensures Newlines(s, i, k) == Newlines(s, i, j) + Newlines(s, j, k)
    decreases k - j
  {
    if j < k {
      NewlinesSplit(s, i, j, k - 1);
    }
  }

  /** A range with no line terminator in it counts none. */
  lemma {:induction false} NoNewlines(s: string, i: nat, j: nat)
    requires i <= j <= |s|
    requires forall k :: i <= k < j ==> s[k] != '\n'
    ensures Newlines(s, i, j) == 0
    decreases j - i
  {
    if i < j {
      NoNewlines(s, i, j - 1);
    }
  }

  /** Digits, identifier characters and comment text hold no line terminator. */
  lemma RunHasNoNewlines(s: string, i: nat, run: Run)
    requires i <= |s| && run != StringText
    ensures Newlines(s, i, SpanEnd(s, i, run)) == 0
  {
    SpanEndIsMaximal(s, i, run);
    NoNewlines(s, i, SpanEnd(s, i, run));
  }

  /** The quotes around a string literal are not line terminators: its
      lexeme holds as many as its text. */
  lemma QuotedNewlines(s: string, start: nat)
    requires start < |s| && s[start] == '"'
    ensures var close := SpanEnd(s, start + 1, StringText);
      Newlines(s, start, if close == |s| then close else close + 1) == Newlines(s, start + 1, close)
  {
    var close := SpanEnd(s, start + 1, StringText);
    NoNewlines(s, start, start + 1);
    NewlinesSplit(s, start, start + 1, close);
    if close < |s| {
      SpanEndIsMaximal(s, start + 1, StringText);
      NoNewlines(s, close, close + 1);
      NewlinesSplit(s, start, close, close + 1);
    }
  }

  /** A number spans no line terminator. */
  lemma NumberHasNoNewlines(s: string, start: nat)
    requires start < |s| && IsDigit(s[start])
    ensures Newlines(s, start, NumberEnd(s, start)) == 0
  {
    var intEnd := SpanEnd(s, start, Digits);
    RunHasNoNewlines(s, start, Digits);
    if HasFraction(s, intEnd) {
      var fracEnd := SpanEnd(s, intEnd + 1, Digits);
      RunHasNoNewlines(s, intEnd + 1, Digits);
      NoNewlines(s, intEnd, intEnd + 1);
      NewlinesSplit(s, start, intEnd, intEnd + 1);
      NewlinesSplit(s, start, intEnd + 1, fracEnd);
    }
  }

  /** The line counter after one turn of the main loop is the line before it
      plus the line terminators the lexeme (or the skipped text) held. */
  lemma StepLine(s: string, start: nat, line: int)
    requires start < |s|
    ensures ScanStep(s, start, line).line == line + Newlines(s, start, ScanStep(s, start, line).next)
  {
    var c := s[start];
    if c == '"' || IsDigit(c) || IsLetter(c) {
      LiteralStepLine(s, start, line);
    } else {
      ShortStepLine(s, start, line);
    }
  }

  /** The line terminators among the next one or two characters. */
  lemma ShortNewlines(s: string, i: nat)
    requires i < |s|
    ensures Newlines(s, i, i + 1) == (if s[i] == '\n' then 1 else 0)
    ensures i + 1 < |s| ==> Newlines(s, i, i + 2) == Newlines(s, i, i + 1) + (if s[i + 1] == '\n' then 1 else 0)
  {
    assert Newlines(s, i, i + 1) == Newlines(s, i, i) + (if s[i] == '\n' then 1 else 0);
  }

  /** `StepLine` for the turns that read at most two characters or a comment. */
  lemma ShortStepLine(s: string, start: nat, line: int)
    requires start < |s| && s[start] != '"' && !IsDigit(s[start]) && !IsLetter(s[start])
    ensures ScanStep(s, start, line).line == line + Newlines(s, start, ScanStep(s, start, line).next)
  {
    ShortNewlines(s, start);
    if s[start] == '/' && start + 1 < |s| && s[start + 1] == '/' {
      CommentStepLine(s, start, line);
    }
  }

  lemma CommentStepLine(s: string, start: nat, line: int)
    requires start + 1 < |s| && s[start] == '/' && s[start + 1] == '/'
    ensures ScanStep(s, start, line).line == line + Newlines(s, start, ScanStep(s, start, line).next)
  {
    var e := SpanEnd(s, start + 2, LineText);
    RunHasNoNewlines(s, start + 2, LineText);
    ShortNewlines(s, start);
    NewlinesSplit(s, start, start + 2, e);
    assert ScanStep(s, start, line) == Skip(e, line);
  }

  /** `StepLine` for string literals, numbers and words. */
  lemma LiteralStepLine(s: string, start: nat, line: int)
    requires start < |s| && (s[start] == '"' || IsDigit(s[start]) || IsLetter(s[start]))
    ensures ScanStep(s, start, line).line == line + Newlines(s, start, ScanStep(s, start, line).next)
  {
    var c := s[start];
    assert SingleCharKind(c).None? && OperatorKinds(c).None?;
    if c == '"' {
      StringStepLine(s, start, line);
    } else if IsDigit(c) {
      NumberStepLine(s, start, line);
    } else {
      WordStepLine(s, start, line);
    }
  }

  lemma StringStepLine(s: string, start: nat, line: int)
    requires start < |s| && s[start] == '"'
    ensures StringStep(s, start, line).line == line + Newlines(s, start, StringStep(s, start, line).next)
  {
    var close := SpanEnd(s, start + 1, StringText);
    var e := if close == |s| then close else close + 1;
    QuotedNewlines(s, start);
    assert Newlines(s, start, e) == Newlines(s, start + 1, close);
    var st := StringStep(s, start, line);
    assert st.next == e && st.line == line + Newlines(s, start + 1, close);
  }

  lemma NumberStepLine(s: string, start: nat, line: int)
    requires start < |s| && IsDigit(s[start])
    ensures NumberStep(s, start, line).line == line + Newlines(s, start, NumberStep(s, start, line).next)
  {
    NumberHasNoNewlines(s, start);
  }

  lemma WordStepLine(s: string, start: nat, line: int)
    requires start < |s| && IsLetter(s[start])
    ensures WordStep(s, start, line).line == line + Newlines(s, start, WordStep(s, start, line).next)
  {
    RunHasNoNewlines(s, start, WordChars);
  }

  // ---------------------------------------------------------------------------
  // One turn of the main loop

  /** `! = < >` take a following `=` into the token exactly when there is one,
      and never consume anything else. */
  lemma OperatorLookahead(s: string, start: nat, line: int)
    requires start < |s| && OperatorKinds(s[start]).Some?
    ensures var st := ScanStep(s, start, line);
      var kinds := OperatorKinds(s[start]).value;
      var equalFollows := start + 1 < |s| && s[start + 1] == '=';
      st.token.Some? && st.diag.None? && st.line == line &&
      (st.token.value.kind == kinds.1 <==> equalFollows) &&
      (st.token.value.kind == kinds.0 <==> !equalFollows) &&
      st.next == (if equalFollows then start + 2 else start + 1)
  {
  }

  /** A `//` comment produces nothing and stops in front of the line
      terminator that ends it (or at the end of the input), which is left for
      the next turn to count. */
  lemma CommentSkipsLine(s: string, start: nat, line: int)
    requires start + 1 < |s| && s[start] == '/' && s[start + 1] == '/'
    ensures var st := ScanStep(s, start, line);
      st.token.None? && st.diag.None? && st.line == line &&
      (st.next == |s| || s[st.next] == '\n') &&
      forall k :: start + 2 <= k < st.next ==> s[k] != '\n'
  {
    SpanEndIsMaximal(s, start + 2, LineText);
  }

  /** A slash that does not start a comment is the division token. */
  lemma LoneSlash(s: string, start: nat, line: int)
    requires start < |s| && s[start] == '/' && !(start + 1 < |s| && s[start + 1] == '/')
    ensures ScanStep(s, start, line) == Step(start + 1, line, Some(Token(Slash, "/", NoValue, line)), None)
  {
    assert s[start..start + 1] == "/";
  }

  /** A string literal closed by the quote at `q` is one token whose value is the
      text between the quotes; the line counter has counted the line
      terminators in that text, and the token carries the new line. */
  lemma TerminatedString(s: string, start: nat, line: int, q: nat)
    requires start < q < |s| && s[start] == '"' && s[q] == '"'
    requires forall k :: start < k < q ==> s[k] != '"'
    ensures var l := line + Newlines(s, start + 1, q);
      ScanStep(s, start, line) ==
        Step(q + 1, l, Some(Token(String, s[start..q + 1], StringValue(s[start + 1..q]), l)), None)
  {
    SpanEndAt(s, start + 1, StringText, q);
    StringClosedAt(s, start, line, q);
  }

  lemma StringClosedAt(s: string, start: nat, line: int, q: nat)
    requires start < q < |s| && s[start] == '"' && SpanEnd(s, start + 1, StringText) == q
    ensures var l := line + Newlines(s, start + 1, q);
      ScanStep(s, start, line) ==
        Step(q + 1, l, Some(Token(String, s[start..q + 1], StringValue(s[start + 1..q]), l)), None)
  {
    assert ScanStep(s, start, line) == StringStep(s, start, line) by {
      assert SingleCharKind(s[start]).None? && OperatorKinds(s[start]).None?;
    }
  }

  /** A string literal without a closing quote consumes the rest of the input,
      produces no token and reports an unterminated string on the line the
      input ends on. */
  lemma UnterminatedString(s: string, start: nat, line: int)
    requires start < |s| && s[start] == '"'
    requires forall k :: start < k < |s| ==> s[k] != '"'
    ensures var l := line + Newlines(s, start + 1, |s|);
      ScanStep(s, start, line) == Step(|s|, l, None, Some(Diagnostic(l, "Unterminated string.")))
  {
    SpanEndAt(s, start + 1, StringText, |s|);
    StringOpenAt(s, start, line);
  }

  lemma StringOpenAt(s: string, start: nat, line: int)
    requires start < |s| && s[start] == '"' && SpanEnd(s, start + 1, StringText) == |s|
    ensures var l := line + Newlines(s, start + 1, |s|);
      ScanStep(s, start, line) == Step(|s|, l, None, Some(Diagnostic(l, "Unterminated string.")))
  {
    assert SingleCharKind(s[start]).None? && OperatorKinds(s[start]).None?;
  }

  /** The end of a number: its integer part is the longest digit run, and a
      `.` joins it only together with the digit run after it. */
  lemma NumberEndShape(s: string, start: nat)
    requires start < |s| && IsDigit(s[start])
    ensures var e, p := NumberEnd(s, start), SpanEnd(s, start, Digits);
      start < p <= e && (forall k :: start <= k < p ==> IsDigit(s[k])) &&
      (if HasFraction(s, p) then
         p + 1 < e && s[p] == '.' && (forall k :: p < k < e ==> IsDigit(s[k]))
       else e == p && (p + 1 < |s| && s[p] == '.' ==> !IsDigit(s[p + 1]))) &&
      (e < |s| ==> !IsDigit(s[e]))
  {
    var p := SpanEnd(s, start, Digits);
    SpanEndIsMaximal(s, start, Digits);
    if HasFraction(s, p) {
      SpanEndIsMaximal(s, p + 1, Digits);
    }
  }

  /** Maximal munch for numbers: the token takes every digit, and a `.` only
      when a digit follows it; its value is the float nearest the integer the
      digits spell, or, with a fraction, the decimal text itself. So `1.` is
      the integer 1 with the `.` left for the next turn. */
  lemma NumberMaximalMunch(s: string, start: nat, line: int)
    requires start < |s| && IsDigit(s[start])
    ensures var st := ScanStep(s, start, line);
      st.token.Some? && st.diag.None? && st.line == line && st.token.value.kind == Number &&
      (st.next < |s| ==> !IsDigit(s[st.next])) &&
      (st.token.value.value.WholeValue? <==> forall k :: start <= k < st.next ==> IsDigit(s[k])) &&
      (st.token.value.value.WholeValue? ==>
         st.token.value.value.n == SingleOf(DecimalValue(s[start..st.next])) &&
         (st.next + 1 < |s| && s[st.next] == '.' ==> !IsDigit(s[st.next + 1]))) &&
      (st.token.value.value.FloatValue? ==> st.token.value.value.digits == s[start..st.next])
  {
    var e, p := NumberEnd(s, start), SpanEnd(s, start, Digits);
    var lexeme := s[start..e];
    var value := if HasFraction(s, p) then FloatValue(lexeme) else WholeValue(SingleOf(DecimalValue(lexeme)));
    assert ScanStep(s, start, line) == Step(e, line, Some(Token(Number, lexeme, value, line)), None) by {
      assert SingleCharKind(s[start]).None? && OperatorKinds(s[start]).None?;
      assert ScanStep(s, start, line) == NumberStep(s, start, line);
    }
    NumberEndShape(s, start);
    if HasFraction(s, p) {
      assert !IsDigit(s[p]);
    }
  }

  /** Every integer of magnitude at most 2^24 converts to `float` exactly. */
  lemma SmallIntegersAreExact(n: int)
    requires -0x100_0000 <= n <= 0x100_0000
    ensures SingleOf(n) == n
  {
    var m := if n < 0 then -n else n;
    if m == 0x100_0000 {
      assert Spacing(m) == 2;
    } else {
      assert Spacing(m) == 1;
    }
  }

  /** The conversion to `float` gives a multiple of the spacing at the value's
      magnitude, at most half a spacing away from the value. */
  lemma SingleOfIsNearest(n: int)
    ensures var u: int := Spacing(if n < 0 then -n else n);
      SingleOf(n) % u == 0 && -u <= 2 * (SingleOf(n) - n) <= u
  {
    var m := if n < 0 then -n else n;
    var u := Spacing(m);
    var k := Spacings(m, u);
    var v := k * u;
    assert SingleOf(n) == if n < 0 then -v else v;
    HalfEvenStep(m, u, k);
    MultipleOf(k, u);
    if n < 0 {
      NegatedMultiple(v, u);
    }
  }

  /** The negation of a multiple of `u` is one too. */
  lemma NegatedMultiple(v: int, u: int)
    requires u >= 1 && v % u == 0
    ensures (-v) % u == 0
  {
    var k := v / u;
    assert v == k * u;
    assert -v == (-k) * u;
    MultipleOf(-k, u);
  }

  /** Rounding `m` to `k` spacings of `u` with ties to even lands within half
      a spacing. */
  lemma HalfEvenStep(m: nat, u: int, k: int)
    requires u >= 1 && k == Spacings(m, u)
    ensures -u <= 2 * (k * u - m) <= u
  {
    var q, r := m / u, m % u;
    assert m == q * u + r;
    if k == q + 1 {
      assert k * u == q * u + u;
    }
  }

  /** A multiple of `u` leaves no remainder. */
  lemma MultipleOf(k: int, u: int)
    requires u >= 1
    ensures (k * u) % u == 0
  {
    var p := k * u;
    var q, r := p / u, p % u;
    assert p == q * u + r && 0 <= r < u;
    var d := q - k;
    assert d * u == -r by {
      assert d * u == q * u - k * u;
    }
    ProductBound(d, u);
  }

  /** A nonzero multiple of `u` is at least `u` away from zero. */
  lemma ProductBound(d: int, u: int)
    requires u >= 1
    ensures d >= 1 ==> d * u >= u
    ensures d <= -1 ==> d * u <= -u
  {
    if d >= 1 {
      assert d * u == (d - 1) * u + u;
      assert (d - 1) * u >= 0;
    } else if d <= -1 {
      assert d * u == (d + 1) * u - u;
      assert (d + 1) * u <= 0;
    }
  }

  /** Above 2^24 the conversion rounds: 123456789 becomes 123456792, and
      2^24 + 1, halfway between two floats, goes to the even one, 2^24. */
  lemma LargeIntegersRound()
    ensures SingleOf(123456789) == 123456792
    ensures SingleOf(0x100_0001) == 0x100_0000
  {
    assert Spacing(123456789) == 8 by {
      assert Spacing(15432098) == 1;
    }
    assert Spacing(0x100_0001) == 2 by {
      assert Spacing(0x100_0001 / 2) == 1;
    }
  }

  /** An identifier takes every following letter, digit and underscore; a
      reserved word becomes its keyword kind and any other word an identifier,
      with the word as lexeme in both cases. */
  lemma WordToken(s: string, start: nat, line: int)
    requires start < |s| && IsLetter(s[start])
    ensures var st := ScanStep(s, start, line); var word := s[start..st.next];
      st.token == Some(Token(KindOfWord(word), word, NoValue, line)) &&
      st.diag.None? && st.line == line &&
      (forall k :: start <= k < st.next ==> IsAlphaNumeric(s[k])) &&
      (st.next < |s| ==> !IsAlphaNumeric(s[st.next]))
  {
    SpanEndIsMaximal(s, start, WordChars);
    assert SingleCharKind(s[start]).None? && OperatorKinds(s[start]).None?;
  }

  /** The characters that start a lexeme of some kind. */
  predicate StartsLexeme(c: char) {
    SingleCharKind(c).Some? || OperatorKinds(c).Some? || c == '/' ||
    c == ' ' || c == '\r' || c == '\t' || c == '\n' || c == '"' || IsDigit(c) || IsLetter(c)
  }

  /** The characters of the one-character table, of the operator table and of
      the remaining cases are disjoint, as the cases of one `switch` are; so the
      order in which a turn consults them does not matter. */
  lemma CasesAreDisjoint(c: char)
    ensures SingleCharKind(c).Some? ==>
              OperatorKinds(c).None? && c != '/' && c != ' ' && c != '\r' && c != '\t' &&
              c != '\n' && c != '"' && !IsDigit(c) && !IsLetter(c)
    ensures OperatorKinds(c).Some? ==>
              c != '/' && c != ' ' && c != '\r' && c != '\t' &&
              c != '\n' && c != '"' && !IsDigit(c) && !IsLetter(c)
  {
  }

  /** Any other character is skipped and reported, quoted in the message, on
      the current line. */
  lemma UnexpectedCharacter(s: string, start: nat, line: int)
    requires start < |s| && !StartsLexeme(s[start])
    ensures ScanStep(s, start, line) ==
      Step(start + 1, line, None, Some(Diagnostic(line, "Unexpected Character '" + [s[start]] + "'")))
  {
  }

  /** A turn reports an error exactly for an unexpected character and for a
      string literal that is never closed. */
  lemma StepReportsError(s: string, start: nat, line: int)
    requires start < |s|
    ensures ScanStep(s, start, line).diag.Some? <==>
      !StartsLexeme(s[start]) || (s[start] == '"' && SpanEnd(s, start + 1, StringText) == |s|)
  {
    var c := s[start];
    if c == '"' {
      assert SingleCharKind(s[start]).None? && OperatorKinds(s[start]).None?;
    } else if IsDigit(c) {
      assert SingleCharKind(c).None? && OperatorKinds(c).None?;
    } else if IsLetter(c) {
      assert SingleCharKind(c).None? && OperatorKinds(c).None?;
    }
  }

  // ---------------------------------------------------------------------------
  // The whole pass, token by token

  /** How the outcome `o` of a pass from `i` is made of one turn `st` in front
      of the outcome `rest` of the pass after it. */
  ghost predicate Conses(s: string, i: nat, st: Step, rest: Outcome, o: Outcome) {
    i < st.next <= |s| &&
    (st.token.Some? ==>
      st.token.value.lexeme == s[i..st.next] && st.token.value.line == st.line && st.token.value.kind != Eof) &&
    |rest.spans| == |rest.tokens| &&
    o.spans == (if st.token.Some? then [Span(i, st.next)] else []) + rest.spans &&
    o.tokens == ToSeq(st.token) + rest.tokens
  }

  /** The number of tokens one turn puts in front of the rest. */
  function Shift(st: Step): nat {
    if st.token.Some? then 1 else 0
  }

  lemma ScanConses(s: string, i: nat, line: int)
    requires i < |s|
    ensures var st := ScanStep(s, i, line); Conses(s, i, st, Scan(s, st.next, st.line), Scan(s, i, line))
  {
  }

  lemma ConsSpanAt(s: string, i: nat, st: Step, rest: Outcome, o: Outcome, k: nat)
    requires Conses(s, i, st, rest, o) && k < |o.spans|
    requires k >= Shift(st) ==> var sp := rest.spans[k - Shift(st)];
      st.next <= sp.start < sp.end <= |s| && rest.tokens[k - Shift(st)].lexeme == s[sp.start..sp.end]
    ensures i <= o.spans[k].start < o.spans[k].end <= |s| &&
      o.tokens[k].lexeme == s[o.spans[k].start..o.spans[k].end]
  {
    var d := Shift(st);
    if k < d {
      assert o.spans[k] == Span(i, st.next) && o.tokens[k] == st.token.value;
    } else {
      assert o.spans[k] == rest.spans[k - d] && o.tokens[k] == rest.tokens[k - d];
    }
  }

  /** The `k`-th token of a pass and its span: the span lies after the
      starting cursor and is non-empty, and the lexeme is that slice of the
      source. */
  lemma {:induction false} SpanAt(s: string, i: nat, line: int, k: nat)
    requires i <= |s| && k < |Scan(s, i, line).spans|
    ensures var o := Scan(s, i, line);
      i <= o.spans[k].start < o.spans[k].end <= |s| &&
      o.tokens[k].lexeme == s[o.spans[k].start..o.spans[k].end]
    decreases |s| - i
  {
    var st := ScanStep(s, i, line);
    ScanConses(s, i, line);
    if k >= Shift(st) {
      SpanAt(s, st.next, st.line, k - Shift(st));
    }
    ConsSpanAt(s, i, st, Scan(s, st.next, st.line), Scan(s, i, line), k);
  }

  lemma ConsTokenLineAt(s: string, i: nat, line: int, st: Step, rest: Outcome, o: Outcome, k: nat)
    requires Conses(s, i, st, rest, o) && k < |o.tokens| && st.line == line + Newlines(s, i, st.next)
    requires k >= Shift(st) ==> var e := rest.spans[k - Shift(st)].end;
      st.next <= e <= |s| && rest.tokens[k - Shift(st)].line == st.line + Newlines(s, st.next, e)
    ensures i <= o.spans[k].end <= |s| && o.tokens[k].line == line + Newlines(s, i, o.spans[k].end)
  {
    var d := Shift(st);
    if k < d {
      assert o.spans[k] == Span(i, st.next) && o.tokens[k] == st.token.value;
    } else {
      assert o.spans[k] == rest.spans[k - d] && o.tokens[k] == rest.tokens[k - d];
      NewlinesSplit(s, i, st.next, rest.spans[k - d].end);
    }
  }

  /** The `k`-th token of a pass carries the line its lexeme ends on: the
      starting line plus the line terminators from the cursor to the end of
      its span. */
  lemma {:induction false} TokenLineAt(s: string, i: nat, line: int, k: nat)
    requires i <= |s| && k < |Scan(s, i, line).tokens|
    ensures var o := Scan(s, i, line);
      i <= o.spans[k].end <= |s| && o.tokens[k].line == line + Newlines(s, i, o.spans[k].end)
    decreases |s| - i
  {
    var st := ScanStep(s, i, line);
    ScanConses(s, i, line);
    StepLine(s, i, line);
    if k >= Shift(st) {
      TokenLineAt(s, st.next, st.line, k - Shift(st));
    }
    ConsTokenLineAt(s, i, line, st, Scan(s, st.next, st.line), Scan(s, i, line), k);
  }

  lemma ConsNoEofAt(s: string, i: nat, st: Step, rest: Outcome, o: Outcome, k: nat)
    requires Conses(s, i, st, rest, o) && k < |o.tokens|
    requires k >= Shift(st) ==> rest.tokens[k - Shift(st)].kind != Eof
    ensures o.tokens[k].kind != Eof
  {
    var d := Shift(st);
    if k < d {
      assert o.tokens[k] == st.token.value;
    } else {
      assert o.tokens[k] == rest.tokens[k - d];
    }
  }

  /** No token of a pass has the end-of-input kind. */
  lemma {:induction false} NoEofAt(s: string, i: nat, line: int, k: nat)
    requires i <= |s| && k < |Scan(s, i, line).tokens|
    ensures Scan(s, i, line).tokens[k].kind != Eof
    decreases |s| - i
  {
    var st := ScanStep(s, i, line);
    ScanConses(s, i, line);
    if k >= Shift(st) {
      NoEofAt(s, st.next, st.line, k - Shift(st));
    }
    ConsNoEofAt(s, i, st, Scan(s, st.next, st.line), Scan(s, i, line), k);
  }

  /** Spans that lie, in order and without overlapping, between `from` and the
      end of `s`. */
  ghost predicate SpansFit(s: string, from: nat, spans: seq<Span>)
    decreases |spans|
  {
    spans == [] ||
    (from <= spans[0].start <= spans[0].end <= |s| && SpansFit(s, spans[0].end, spans[1..]))
  }

  /** Fitting spans lie within the text from `from` on and follow each other
      without overlapping. */
  lemma {:induction false} SpansFitOrdered(s: string, from: nat, spans: seq<Span>, j: nat, k: nat)
    requires SpansFit(s, from, spans) && j < k < |spans|
    ensures from <= spans[j].start && spans[j].end <= spans[k].start <= spans[k].end <= |s|
    decreases |spans|
  {
    if j > 0 {
      SpansFitOrdered(s, spans[0].end, spans[1..], j - 1, k - 1);
    } else if k > 1 {
      SpansFitOrdered(s, spans[0].end, spans[1..], 0, k - 1);
    } else {
      assert spans[1..][0] == spans[1];
    }
  }

  /** The text from `from` on, put together from the tokens' lexemes and the
      text between their spans (what the scanner skipped: white space,
      comments and the characters it reported). */
  function Reassemble(s: string, from: nat, spans: seq<Span>, tokens: seq<Token>): string
    requires from <= |s| && |spans| == |tokens| && SpansFit(s, from, spans)
    decreases |spans|
  {
    if spans == [] then s[from..]
    else s[from..spans[0].start] + tokens[0].lexeme + Reassemble(s, spans[0].end, spans[1..], tokens[1..])
  }

  /** Starting the reassembly earlier adds the skipped text in front. */
  lemma ReassembleEarlier(s: string, from: nat, from': nat, spans: seq<Span>, tokens: seq<Token>)
    requires from <= from' <= |s| && |spans| == |tokens| && SpansFit(s, from', spans)
    ensures SpansFit(s, from, spans)
    ensures Reassemble(s, from, spans, tokens) == s[from..from'] + Reassemble(s, from', spans, tokens)
  {
    if spans == [] {
      assert s[from..] == s[from..from'] + s[from'..];
    } else {
      var sp := spans[0];
      assert s[from..sp.start] == s[from..from'] + s[from'..sp.start];
      ConcatAssociates(s[from..from'], s[from'..sp.start], tokens[0].lexeme + Reassemble(s, sp.end, spans[1..], tokens[1..]));
      ConcatAssociates(s[from'..sp.start], tokens[0].lexeme, Reassemble(s, sp.end, spans[1..], tokens[1..]));
      ConcatAssociates(s[from..sp.start], tokens[0].lexeme, Reassemble(s, sp.end, spans[1..], tokens[1..]));
    }
  }

  /** A token whose lexeme is the slice in front of a reassembled rest extends
      the reassembly by that slice. */
  lemma ReassembleFront(s: string, i: nat, e: nat, t: Token, spans: seq<Span>, tokens: seq<Token>)
    requires i <= e <= |s| && t.lexeme == s[i..e] && |spans| == |tokens| && SpansFit(s, e, spans)
    requires Reassemble(s, e, spans, tokens) == s[e..]
    ensures SpansFit(s, i, [Span(i, e)] + spans)
    ensures Reassemble(s, i, [Span(i, e)] + spans, [t] + tokens) == s[i..]
  {
    var sps, tks := [Span(i, e)] + spans, [t] + tokens;
    assert sps[0] == Span(i, e) && sps[1..] == spans && tks[0] == t && tks[1..] == tokens;
    assert s[i..] == s[i..i] + s[i..e] + s[e..];
  }

  /** Skipped text in front of a reassembled rest extends the reassembly by
      that text. */
  lemma ReassembleSkipped(s: string, i: nat, e: nat, spans: seq<Span>, tokens: seq<Token>)
    requires i <= e <= |s| && |spans| == |tokens| && SpansFit(s, e, spans)
    requires Reassemble(s, e, spans, tokens) == s[e..]
    ensures SpansFit(s, i, spans) && Reassemble(s, i, spans, tokens) == s[i..]
  {
    ReassembleEarlier(s, i, e, spans, tokens);
    assert s[i..] == s[i..e] + s[e..];
  }

  /** One turn in front of a reassembled rest: a lexeme that is the slice it
      was read from, or skipped text, extends the reassembly to the turn's
      start. */
  lemma ConsReassembles(s: string, i: nat, st: Step, rest: Outcome, o: Outcome)
    requires i < st.next <= |s| && (st.token.Some? ==> st.token.value.lexeme == s[i..st.next])
    requires |rest.spans| == |rest.tokens| && SpansFit(s, st.next, rest.spans)
    requires Reassemble(s, st.next, rest.spans, rest.tokens) == s[st.next..]
    requires o.spans == (if st.token.Some? then [Span(i, st.next)] else []) + rest.spans
    requires o.tokens == ToSeq(st.token) + rest.tokens
    ensures |o.spans| == |o.tokens| && SpansFit(s, i, o.spans) && Reassemble(s, i, o.spans, o.tokens) == s[i..]
  {
    if st.token.Some? {
      assert o.spans == [Span(i, st.next)] + rest.spans && o.tokens == [st.token.value] + rest.tokens;
      ReassembleFront(s, i, st.next, st.token.value, rest.spans, rest.tokens);
    } else {
      assert o.spans == rest.spans && o.tokens == rest.tokens;
      ReassembleSkipped(s, i, st.next, rest.spans, rest.tokens);
    }
  }

  /** Nothing is lost or reordered: the lexemes of a pass, with the text
      skipped between them, give back the text passed over. */
  lemma {:induction false} ScanReassembles(s: string, i: nat, line: int)
    requires i <= |s|
    ensures var o := Scan(s, i, line);
      SpansFit(s, i, o.spans) && Reassemble(s, i, o.spans, o.tokens) == s[i..]
    decreases |s| - i
  {
    if i < |s| {
      var st := ScanStep(s, i, line);
      ScanConses(s, i, line);
      ScanReassembles(s, st.next, st.line);
      ConsReassembles(s, i, st, Scan(s, st.next, st.line), Scan(s, i, line));
    }
  }

  /** The whole text is its tokens' lexemes with the skipped text between them. */
  lemma TokenizeReassembles(s: string)
    ensures var o := Scan(s, 0, EntryLine);
      SpansFit(s, 0, o.spans) && Reassemble(s, 0, o.spans, o.tokens) == s
  {
    ScanReassembles(s, 0, EntryLine);
    assert s[0..] == s;
  }

  // ---------------------------------------------------------------------------
  // What the scanner skips

  /** The characters a turn skips on their own: white space and the line
      terminator. */
  predicate IsBlank(c: char) {
    c == ' ' || c == '\r' || c == '\t' || c == '\n'
  }

  /** `s[i..e]` is a comment: `//`, then text without a line terminator, up
      to a line terminator (which is not part of it) or the end of the input. */
  ghost predicate IsComment(s: string, i: nat, e: nat)
    requires i <= e <= |s|
  {
    i + 2 <= e && s[i] == '/' && s[i + 1] == '/' &&
    (forall k :: i + 2 <= k < e ==> s[k] != '\n') &&
    (e == |s| || s[e] == '\n')
  }

  /** `s[i..j]` is made of white space, line terminators and comments only. */
  ghost predicate Blank(s: string, i: nat, j: nat)
    requires i <= j <= |s|
    decreases j - i
  {
    i == j ||
    (IsBlank(s[i]) && Blank(s, i + 1, j)) ||
    (exists e :: i + 2 <= e <= j && IsComment(s, i, e) && Blank(s, e, j))
  }

  /** Every text between fitting spans, and after the last one, is blank. */
  ghost predicate GapsBlank(s: string, from: nat, spans: seq<Span>)
    requires from <= |s| && SpansFit(s, from, spans)
    decreases |spans|
  {
    if spans == [] then Blank(s, from, |s|)
    else Blank(s, from, spans[0].start) && GapsBlank(s, spans[0].end, spans[1..])
  }

  /** A turn that makes neither a token nor an error has consumed one blank
      character or one comment, and nothing else. */
  lemma SilentTurn(s: string, start: nat, line: int)
    requires start < |s|
    ensures var st := ScanStep(s, start, line);
      st.token.None? && st.diag.None? ==>
        (st.next == start + 1 && IsBlank(s[start])) || IsComment(s, start, st.next)
    ensures var st := ScanStep(s, start, line);
      st.token.None? && st.diag.None? ==> Blank(s, start, st.next)
  {
    var st := ScanStep(s, start, line);
    var c := s[start];
    CasesAreDisjoint(c);
    if st.token.None? && st.diag.None? {
      if c == '/' {
        CommentSkipsLine(s, start, line);
        assert IsComment(s, start, st.next);
        assert Blank(s, st.next, st.next);
      } else {
        if c == '"' || IsDigit(c) || IsLetter(c) {
          LiteralTurnSpeaks(s, start, line);
          assert false;
        }
        StepReportsError(s, start, line);
        assert IsBlank(c) && st.next == start + 1;
        assert Blank(s, start + 1, start + 1);
      }
    }
  }

  /** A quote, a digit or a letter always makes a token or an error. */
  lemma LiteralTurnSpeaks(s: string, start: nat, line: int)
    requires start < |s| && (s[start] == '"' || IsDigit(s[start]) || IsLetter(s[start]))
    ensures ScanStep(s, start, line).token.Some? || ScanStep(s, start, line).diag.Some?
  {
    var c := s[start];
    if c == '"' {
      assert SingleCharKind(c).None? && OperatorKinds(c).None?;
      assert ScanStep(s, start, line) == StringStep(s, start, line);
    } else if IsDigit(c) {
      NumberMaximalMunch(s, start, line);
    } else {
      WordToken(s, start, line);
    }
  }

  /** Blank text followed by blank text is blank. */
  lemma {:induction false} BlankConcat(s: string, i: nat, m: nat, j: nat)
    requires i <= m <= j <= |s| && Blank(s, i, m) && Blank(s, m, j)
    ensures Blank(s, i, j)
    decreases m - i
  {
    if i < m {
      if IsBlank(s[i]) && Blank(s, i + 1, m) {
        BlankConcat(s, i + 1, m, j);
      } else {
        var e :| i + 2 <= e <= m && IsComment(s, i, e) && Blank(s, e, m);
        BlankConcat(s, e, m, j);
      }
    }
  }

  /** Blank text in front of blank gaps keeps the gaps blank. */
  lemma GapsBlankEarlier(s: string, i: nat, e: nat, spans: seq<Span>)
    requires i <= e <= |s| && Blank(s, i, e) && SpansFit(s, e, spans) && GapsBlank(s, e, spans)
    ensures SpansFit(s, i, spans) && GapsBlank(s, i, spans)
  {
    if spans == [] {
      BlankConcat(s, i, e, |s|);
    } else {
      BlankConcat(s, i, e, spans[0].start);
    }
  }

  /** A pass that reports nothing skips only white space, line terminators and
      comments: every text outside the tokens' spans is blank. */
  lemma {:induction false} ScanSkipsBlank(s: string, i: nat, line: int)
    requires i <= |s|
    ensures var o := Scan(s, i, line);
      o.diags == [] ==> SpansFit(s, i, o.spans) && GapsBlank(s, i, o.spans)
    decreases |s| - i
  {
    var o := Scan(s, i, line);
    if i == |s| {
      assert Blank(s, i, i);
    } else if o.diags == [] {
      var st := ScanStep(s, i, line);
      var rest := Scan(s, st.next, st.line);
      ScanConses(s, i, line);
      ScanUnfolds(s, i, line);
      assert st.diag.None? && rest.diags == [] by {
        assert |o.diags| == |ToSeq(st.diag)| + |rest.diags|;
      }
      ScanSkipsBlank(s, st.next, st.line);
      if st.token.Some? {
        assert o.spans[0] == Span(i, st.next) && o.spans[1..] == rest.spans;
        assert Blank(s, i, i);
      } else {
        SilentTurn(s, i, line);
        assert o.spans == rest.spans;
        GapsBlankEarlier(s, i, st.next, rest.spans);
      }
    }
  }

  /** A source text that scans without errors is exactly its tokens' lexemes,
      in order, with only white space, line terminators and comments between
      and after them. */
  lemma TokenizeSkipsOnlyBlank(s: string)
    ensures var o := Scan(s, 0, EntryLine);
      ScanErrors(s) == [] ==>
        SpansFit(s, 0, o.spans) && GapsBlank(s, 0, o.spans) && Reassemble(s, 0, o.spans, o.tokens) == s
  {
    ScanSkipsBlank(s, 0, EntryLine);
    TokenizeReassembles(s);
  }

  /** The line counter at the end of a pass has moved by the number of line
      terminators in the text passed over. */
  lemma {:induction false} ScanEndLine(s: string, i: nat, line: int)
    requires i <= |s|
    ensures Scan(s, i, line).line == line + Newlines(s, i, |s|)
    decreases |s| - i
  {
    if i < |s| {
      var st := ScanStep(s, i, line);
      ScanEndLine(s, st.next, st.line);
      StepLine(s, i, line);
      NewlinesSplit(s, i, st.next, |s|);
    }
  }

  // ---------------------------------------------------------------------------
  // The token list of a whole text

  /** The token list of a text ends with exactly one end-of-input token, with an
      empty lexeme and no value, on the line reached after the last line
      terminator; no other token has that kind. */
  lemma TokenizeEndsWithEof(s: string)
    ensures var t := Tokenize(s);
      |t| >= 1 && t[|t| - 1] == Token(Eof, "", NoValue, EntryLine + Newlines(s, 0, |s|))
    ensures var t := Tokenize(s); forall k :: 0 <= k < |t| ==> (t[k].kind == Eof <==> k == |t| - 1)
  {
    var t, o := Tokenize(s), Scan(s, 0, EntryLine);
    ScanEndLine(s, 0, EntryLine);
    forall k | 0 <= k < |t| - 1 ensures t[k].kind != Eof {
      NoEofAt(s, 0, EntryLine, k);
      assert t[k] == o.tokens[k];
    }
  }

  /** Every token before the end-of-input one has a non-empty lexeme, the
      slice of the source its span names; the spans are in source order and
      do not overlap. */
  lemma TokenizeLexemes(s: string)
    ensures var t := Tokenize(s); var o := Scan(s, 0, EntryLine);
      |t| == |o.spans| + 1 &&
      (forall k :: 0 <= k < |t| - 1 ==>
        o.spans[k].start < o.spans[k].end <= |s| &&
        t[k].lexeme == s[o.spans[k].start..o.spans[k].end] && t[k].lexeme != []) &&
      (forall j, k :: 0 <= j < k < |t| - 1 ==> o.spans[j].end <= o.spans[k].start)
  {
    var t, o := Tokenize(s), Scan(s, 0, EntryLine);
    forall k | 0 <= k < |t| - 1
      ensures o.spans[k].start < o.spans[k].end <= |s|
      ensures t[k].lexeme == s[o.spans[k].start..o.spans[k].end] && t[k].lexeme != []
    {
      SpanAt(s, 0, EntryLine, k);
      assert t[k] == o.tokens[k];
    }
    ScanReassembles(s, 0, EntryLine);
    forall j, k | 0 <= j < k < |t| - 1 ensures o.spans[j].end <= o.spans[k].start {
      SpansFitOrdered(s, 0, o.spans, j, k);
    }
  }

  /** Each token carries the line it was read on (for a string literal, the
      line its closing quote is on): line 0 plus the line terminators before
      the end of its lexeme. */
  lemma TokenizeLines(s: string)
    ensures var t := Tokenize(s); var o := Scan(s, 0, EntryLine);
      forall k :: 0 <= k < |t| - 1 ==>
        o.spans[k].end <= |s| && t[k].line == EntryLine + Newlines(s, 0, o.spans[k].end)
  {
    var t, o := Tokenize(s), Scan(s, 0, EntryLine);
    forall k | 0 <= k < |t| - 1
      ensures o.spans[k].end <= |s| && t[k].line == EntryLine + Newlines(s, 0, o.spans[k].end)
    {
      TokenLineAt(s, 0, EntryLine, k);
      assert t[k] == o.tokens[k];
    }
  }

  /** The debug dump of a scanned token list is its header followed by each
      token's lexeme and layout: every opening brace the scanner produces has
      its character as lexeme, so the inserted break lands inside it. */
  lemma TokenizeDumpIsPiecewise(s: string)
    ensures BracesHaveText(Tokenize(s))
    ensures Reconstruction(Tokenize(s)) == Header + Pieces(Tokenize(s))
  {
    var t := Tokenize(s);
    TokenizeLexemes(s);
    TokenizeEndsWithEof(s);
    assert BracesHaveText(t) by {
      forall k | 0 <= k < |t| ensures t[k].kind == BraceLeft ==> t[k].lexeme != [] {
        if k == |t| - 1 {
          assert t[k].kind == Eof;
        }
      }
    }
    ReconstructionIsPiecewise(t);
  }

  /** The two turns over `1.`: the digit alone, then the period. */
  lemma IntegerThenPeriodTurns()
    ensures ScanStep("1.", 0, 0) == Step(1, 0, Some(Token(Number, "1", WholeValue(1), 0)), None)
    ensures ScanStep("1.", 1, 0) == Step(2, 0, Some(Token(Period, ".", NoValue, 0)), None)
  {
    var s := "1.";
    assert ScanStep(s, 0, 0) == Step(1, 0, Some(Token(Number, "1", WholeValue(1), 0)), None) by {
      SpanEndAt(s, 0, Digits, 1);
      assert !HasFraction(s, 1) && s[0..1] == "1" && DecimalValue("1") == 1 && SingleOf(1) == 1;
      assert SingleCharKind(s[0]).None? && OperatorKinds(s[0]).None?;
      assert ScanStep(s, 0, 0) == NumberStep(s, 0, 0);
    }
    assert s[1..2] == ".";
  }

  /** `1.` is an integer followed by a period: the `.` joins a number only
      when a digit follows it. */
  lemma IntegerThenPeriod()
    ensures Tokenize("1.") ==
      [Token(Number, "1", WholeValue(1), 0), Token(Period, ".", NoValue, 0), Token(Eof, "", NoValue, 0)]
  {
    var s := "1.";
    IntegerThenPeriodTurns();
    assert Scan(s, 1, 0).tokens == [Token(Period, ".", NoValue, 0)] && Scan(s, 1, 0).line == 0 by {
      assert Scan(s, 2, 0) == Outcome([], [], [], 0);
    }
    ScanUnfolds(s, 0, 0);
  }

  /** A closed literal is one `String` token valued by the text between the
      quotes, and nothing is reported. */
  lemma QuotedText()
    ensures Tokenize("\"abc\"") == [Token(String, "\"abc\"", StringValue("abc"), 0), Token(Eof, "", NoValue, 0)]
    ensures ScanErrors("\"abc\"") == []
  {
    var s := "\"abc\"";
    TerminatedString(s, 0, 0, 4);
    assert Newlines(s, 1, 4) == 0 && s[0..5] == s && s[1..4] == "abc";
    assert Scan(s, 5, 0) == Outcome([], [], [], 0);
    ScanUnfolds(s, 0, 0);
  }

  /** A literal left open makes no token: the list is the end-of-input token
      alone, and "Unterminated string." is reported on line 0. */
  lemma OpenQuote()
    ensures Tokenize("\"abc") == [Token(Eof, "", NoValue, 0)]
    ensures ScanErrors("\"abc") == [Diagnostic(0, "Unterminated string.")]
  {
    var s := "\"abc";
    UnterminatedString(s, 0, 0);
    assert Newlines(s, 1, 4) == 0;
    assert Scan(s, 4, 0) == Outcome([], [], [], 0);
    ScanUnfolds(s, 0, 0);
  }

  /** The three turns over `//c\nx`: the comment, the line terminator, the word. */
  lemma CommentTurn()
    ensures ScanStep("//c\nx", 0, 0) == Step(3, 0, None, None)
  {
    var s := "//c\nx";
    SpanEndAt(s, 2, LineText, 3);
    assert SingleCharKind(s[0]).None? && OperatorKinds(s[0]).None?;
  }

  lemma NewlineTurn()
    ensures ScanStep("//c\nx", 3, 0) == Step(4, 1, None, None)
  {
    var s := "//c\nx";
    assert SingleCharKind(s[3]).None? && OperatorKinds(s[3]).None?;
  }

  lemma WordTurn()
    ensures ScanStep("//c\nx", 4, 1) == Step(5, 1, Some(Token(Ident, "x", NoValue, 1)), None)
  {
    var s := "//c\nx";
    SpanEndAt(s, 4, WordChars, 5);
    WordToken(s, 4, 1);
    assert s[4..5] == "x";
    NotReserved();
  }

  /** `x` is no reserved word. */
  lemma NotReserved()
    ensures KindOfWord("x") == Ident
  {
    KindOfWordFollowsTable("x");
    KeysAreLong();
  }

  /** Every reserved word has at least two letters. */
  lemma KeysAreLong()
    ensures forall k :: 0 <= k < |Keywords| ==> |Keywords[k].0| >= 2
  {
  }

  /** Keywords are resolved on the whole word: `if` is reserved, `iffy`, which
      merely starts with it, is an identifier. */
  lemma WholeWordResolution()
    ensures KindOfWord("if") == If
    ensures KindOfWord("iffy") == Ident
  {
    KindOfWordFollowsTable("if");
    assert Keywords[2].0 == "if";
    LongerWordIsNotReserved();
  }

  lemma LongerWordIsNotReserved()
    ensures KindOfWord("iffy") == Ident
  {
    var w := "iffy";
    KindOfWordFollowsTable(w);
    FourLetterKeys();
    assert w[0] == 'i' && |w| == 4;
  }

  /** No four-letter reserved word starts with `i`. */
  lemma FourLetterKeys()
    ensures forall k :: 0 <= k < |Keywords| && |Keywords[k].0| == 4 ==> Keywords[k].0[0] != 'i'
  {
  }

  /** A comment makes no token; the identifier after its line terminator is on
      line 1 (lines count from 0). */
  lemma CommentThenWord()
    ensures Tokenize("//c\nx") == [Token(Ident, "x", NoValue, 1), Token(Eof, "", NoValue, 1)]
  {
    var s := "//c\nx";
    CommentTurn();
    NewlineTurn();
    WordTurn();
    assert Scan(s, 5, 1) == Outcome([], [], [], 1);
    ScanUnfolds(s, 4, 1);
    ScanUnfolds(s, 3, 0);
    ScanUnfolds(s, 0, 0);
  }
}
