/** The scanner as a function of the source text: what one pass with one
    character of lookahead produces. `ScanStep` is one turn of the main loop
    (one lexeme, starting at `start`); `Scan` runs it to the end of the text;
    `Tokenize` adds the end-of-input token. */
module Scanning {
  import opened Tokens
  import opened Milt

  // ---------------------------------------------------------------------------
  // Character classes (ASCII)

  predicate IsDigit(c: char) { '0' <= c <= '9' }

  predicate IsLetter(c: char) { 'a' <= c <= 'z' || 'A' <= c <= 'Z' }

  /** The characters that extend an identifier. */
  function IsAlphaNumeric(c: char): (r: bool)
    ensures IsLetter(c) || IsDigit(c) ==> r
    ensures r ==> c != '\0' && c != '\n' && c != '"' && c != '.'
  {
    IsLetter(c) || IsDigit(c) || c == '_'
  }

  /** The runs of characters the scanner reads in a loop: the digits of a
      number, the rest of an identifier, a comment up to the end of its line,
      and the text of a string literal up to its closing quote. */
  datatype Run = Digits | WordChars | LineText | StringText

  predicate Continues(run: Run, c: char) {
    match run
    case Digits => IsDigit(c)
    case WordChars => IsAlphaNumeric(c)
    case LineText => c != '\n'
    case StringText => c != '"'
  }

  /** The end of the longest run of kind `run` that starts at `i`. */
  function SpanEnd(s: string, i: nat, run: Run): (j: nat)
    requires i <= |s|
    ensures i <= j <= |s|
    decreases |s| - i
  {
    if i == |s| || !Continues(run, s[i]) then i else SpanEnd(s, i + 1, run)
  }

  /** The run found is the longest one: every character in it continues the
      run, and the character after it, if any, does not. */
  lemma {:induction false} SpanEndIsMaximal(s: string, i: nat, run: Run)
    requires i <= |s|
    ensures var j := SpanEnd(s, i, run);
      (forall k :: i <= k < j ==> Continues(run, s[k])) && (j < |s| ==> !Continues(run, s[j]))
    decreases |s| - i
  {
    if i < |s| && Continues(run, s[i]) {
      SpanEndIsMaximal(s, i + 1, run);
    }
  }

  /** The number of line terminators in `s[i..j]`. */
  function Newlines(s: string, i: nat, j: nat): (n: nat)
    requires i <= j <= |s|
    ensures n <= j - i
    decreases j - i
  {
    if i == j then 0 else Newlines(s, i, j - 1) + (if s[j - 1] == '\n' then 1 else 0)
  }

  /** The decimal value of the first `n` characters of a string of digits,
      read most significant first (what `int.Parse` gives). */
  function DigitsValue(digits: string, n: nat): (v: int)
    requires n <= |digits|
    ensures (forall i :: 0 <= i < n ==> IsDigit(digits[i])) ==> v >= 0
  {
    if n == 0 then 0 else 10 * DigitsValue(digits, n - 1) + (digits[n - 1] as int - '0' as int)
  }

  /** The decimal value of a string of digits. */
  function DecimalValue(digits: string): (v: int)
    ensures (forall i :: 0 <= i < |digits| ==> IsDigit(digits[i])) ==> v >= 0
  {
    DigitsValue(digits, |digits|)
  }

  /** The distance between neighbouring single-precision floats around the
      magnitude `m`: 1 up to 2^24 (every integer there is a float), doubling
      with each power of two above. */
  function Spacing(m: nat): (u: nat)
    ensures u >= 1
  {
    if m < 0x100_0000 then 1 else 2 * Spacing(m / 2)
  }

  /** The number of spacings `u` that `m` rounds to: the nearer multiple of
      `u`, a tie going to the even multiple (round to nearest, ties to even). */
  function Spacings(m: nat, u: nat): int
    requires u >= 1
  {
    var q, r := m / u, m % u;
    if 2 * r < u || (2 * r == u && q % 2 == 0) then q else q + 1
  }

  /** The value of the conversion of `n` to `float`: its magnitude rounded to
      the spacing there, with the sign kept. */
  function SingleOf(n: int): int {
    var m := if n < 0 then -n else n;
    var u := Spacing(m);
    var rounded := Spacings(m, u) * u;
    if n < 0 then -rounded else rounded
  }

  // ---------------------------------------------------------------------------
  // Token tables

  /** The kinds that one character alone always makes. */
  function SingleCharKind(c: char): Option<TokenType> {
    match c
    case '(' => Some(ParenLeft)
    case ')' => Some(ParenRight)
    case '{' => Some(BraceLeft)
    case '}' => Some(BraceRight)
    case '[' => Some(BracketLeft)
    case ']' => Some(BracketRight)
    case ',' => Some(Comma)
    case '.' => Some(Period)
    case '_' => Some(Underscore)
    case ':' => Some(Colon)
    case ';' => Some(Semicolon)
    case '?' => Some(Question)
    case '+' => Some(Plus)
    case '-' => Some(Minus)
    case '*' => Some(Star)
    case '%' => Some(Percent)
    case _ => None
  }

  /** The operators that become a two-character kind when `=` follows:
      the kind alone, and the kind with `=`. */
  function OperatorKinds(c: char): Option<(TokenType, TokenType)> {
    match c
    case '!' => Some((Bang, BangEqual))
    case '=' => Some((Equal, EqualEqual))
    case '<' => Some((Less, LessEqual))
    case '>' => Some((Greater, GreaterEqual))
    case _ => None
  }

  // ---------------------------------------------------------------------------
  // One turn of the main loop

  /** The cursor after one lexeme, the line counter, and the token or the error
      it produced (at most one of the two). */
  datatype Step = Step(next: nat, line: int, token: Option<Token>, diag: Option<Diagnostic>)

  function Skip(next: nat, line: int): Step {
    Step(next, line, None, None)
  }

  /** A string literal opened by the quote at `start`. Its text runs to the next
      quote; line terminators inside it are counted. Without a closing quote,
      the rest of the input is consumed and an error is reported instead. */
  function StringStep(s: string, start: nat, line: int): (r: Step)
    requires start < |s| && s[start] == '"'
    ensures start < r.next <= |s|
    ensures r.token.Some? ==> r.diag.None? && r.token.value.lexeme == s[start..r.next] && r.token.value.line == r.line
  {
    var close := SpanEnd(s, start + 1, StringText);
    var l := line + Newlines(s, start + 1, close);
    if close == |s| then Step(close, l, None, Some(Diagnostic(l, "Unterminated string.")))
    else
      var literal := Token(String, s[start..close + 1], StringValue(s[start + 1..close]), l);
      Step(close + 1, l, Some(literal), None)
  }

  /** Whether the number whose integer part ends at `intEnd` goes on with a
      fraction: a `.` belongs to it only when a digit follows. */
  predicate HasFraction(s: string, intEnd: nat) {
    intEnd + 1 < |s| && s[intEnd] == '.' && IsDigit(s[intEnd + 1])
  }

  /** The end of a number starting with the digit at `start`: the longest run
      of digits, extended by a `.` and a second digit run only when a digit
      follows the `.`. */
  function NumberEnd(s: string, start: nat): (e: nat)
    requires start < |s|
    ensures start <= e <= |s|
  {
    var intEnd := SpanEnd(s, start, Digits);
    if HasFraction(s, intEnd) then SpanEnd(s, intEnd + 1, Digits) else intEnd
  }

  /** A number token: a decimal number when it has a fraction, an integer
      otherwise. */
  function NumberStep(s: string, start: nat, line: int): (r: Step)
    requires start < |s| && IsDigit(s[start])
    ensures start < r.next <= |s| && r.line == line && r.diag.None? && r.token.Some?
  {
    var e := NumberEnd(s, start);
    var lexeme := s[start..e];
    var value :=
      if HasFraction(s, SpanEnd(s, start, Digits)) then FloatValue(lexeme)
      else WholeValue(SingleOf(DecimalValue(lexeme)));
    Step(e, line, Some(Token(Number, lexeme, value, line)), None)
  }

  /** An identifier starting with the letter at `start`: the longest run of
      letters, digits and underscores, then resolved against the keyword table. */
  function WordStep(s: string, start: nat, line: int): (r: Step)
    requires start < |s| && IsLetter(s[start])
    ensures start < r.next <= |s| && r.line == line && r.diag.None? && r.token.Some?
  {
    var e := SpanEnd(s, start, WordChars);
    var word := s[start..e];
    Step(e, line, Some(Token(KindOfWord(word), word, NoValue, line)), None)
  }

  /** One turn of the main loop: the lexeme starting at `start`. */
  function ScanStep(s: string, start: nat, line: int): (r: Step)
    requires start < |s|
    ensures start < r.next <= |s|
    ensures r.token.Some? ==> r.diag.None?
    ensures r.token.Some? ==>
      r.token.value.lexeme == s[start..r.next] && r.token.value.line == r.line && r.token.value.kind != Eof
  {
    var c := s[start];
    if SingleCharKind(c).Some? then
      Step(start + 1, line, Some(Token(SingleCharKind(c).value, s[start..start + 1], NoValue, line)), None)
    else if OperatorKinds(c).Some? then
      var (alone, withEqual) := OperatorKinds(c).value;
      if start + 1 < |s| && s[start + 1] == '=' then
        Step(start + 2, line, Some(Token(withEqual, s[start..start + 2], NoValue, line)), None)
      else Step(start + 1, line, Some(Token(alone, s[start..start + 1], NoValue, line)), None)
    else if c == '/' then
      if start + 1 < |s| && s[start + 1] == '/' then Skip(SpanEnd(s, start + 2, LineText), line)
      else Step(start + 1, line, Some(Token(Slash, s[start..start + 1], NoValue, line)), None)
    else if c == ' ' || c == '\r' || c == '\t' then Skip(start + 1, line)
    else if c == '\n' then Skip(start + 1, line + 1)
    else if c == '"' then StringStep(s, start, line)
    else if IsDigit(c) then NumberStep(s, start, line)
    else if IsLetter(c) then WordStep(s, start, line)
    else Step(start + 1, line, None, Some(Diagnostic(line, "Unexpected Character '" + [c] + "'")))
  }

  // ---------------------------------------------------------------------------
  // The whole pass

  /** Where a token's lexeme lies in the source: `s[start..end]`. */
  datatype Span = Span(start: nat, end: nat)

  /** What the pass from some position on produces: the tokens, the span each
      one came from, the errors reported, and the line counter at the end. */
  datatype Outcome = Outcome(tokens: seq<Token>, spans: seq<Span>, diags: seq<Diagnostic>, line: int)

  function ToSeq<T>(o: Option<T>): seq<T> {
    if o.Some? then [o.value] else []
  }

  /** The main loop from cursor `i` with line counter `line` to the end of the
      input. Each turn consumes at least one character and makes at most one
      token or error, so there are no more of them than characters left. */
  function Scan(s: string, i: nat, line: int): (o: Outcome)
    requires i <= |s|
    ensures |o.spans| == |o.tokens|
    ensures |o.tokens| + |o.diags| <= |s| - i
    decreases |s| - i
  {
    if i == |s| then Outcome([], [], [], line)
    else
      var st := ScanStep(s, i, line);
      var rest := Scan(s, st.next, st.line);
      Outcome(ToSeq(st.token) + rest.tokens,
              (if st.token.Some? then [Span(i, st.next)] else []) + rest.spans,
              ToSeq(st.diag) + rest.diags,
              rest.line)
  }

  /** One turn of the main loop in front of the rest of the pass. */
  lemma ScanUnfolds(s: string, i: nat, line: int)
    requires i < |s|
    ensures var st := ScanStep(s, i, line);
      var rest := Scan(s, st.next, st.line);
      var o := Scan(s, i, line);
      o.tokens == ToSeq(st.token) + rest.tokens &&
      o.diags == ToSeq(st.diag) + rest.diags &&
      o.line == rest.line
  {
  }

  const EntryLine: int := 0

  /** The token list of a whole source text: every token of the pass, then
      the end-of-input token on the final line. */
  function Tokenize(s: string): (ts: seq<Token>)
    ensures 1 <= |ts| <= |s| + 1 && ts[|ts| - 1].kind == Eof
  {
    var o := Scan(s, 0, EntryLine);
    o.tokens + [Token(Eof, "", NoValue, o.line)]
  }

  /** The errors reported while scanning a whole source text, in order. */
  function ScanErrors(s: string): (ds: seq<Diagnostic>)
    ensures |ds| + |Tokenize(s)| <= |s| + 1
  {
    Scan(s, 0, EntryLine).diags
  }
}
