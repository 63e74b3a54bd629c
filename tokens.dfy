/** Tokens of the Milt language: the kinds the scanner can produce, the decoded
    literal a token may carry, and the fixed table of reserved words. */
module Tokens {

  datatype Option<T> = None | Some(value: T)

  /** The kinds of token. The C# enum's members in PascalCase, in the same order. */
  datatype TokenType =
    // literal values
    | Ident | Number | String
    // single-character punctuation and operators
    | ParenLeft | ParenRight | BraceLeft | BraceRight | BracketLeft | BracketRight
    | Comma | Period | Underscore | Colon | Semicolon | Question
    | Plus | Minus | Slash | Star | Percent
    // one- or two-character operators
    | Equal | EqualEqual | Bang | BangEqual | Less | LessEqual | Greater | GreaterEqual
    // reserved words
    | True | False | If | Else | While | For | And | Or
    | Func | Return | Struct | This | Null
    // sentinels
    | Eof | Error

  /** The decoded value of a literal token. The source stores a `float`, a
      `string` or null in an untyped field; here it is a tagged value. A number
      without a fraction is the float its integer value converts to, given as
      the integer that float holds; a decimal number keeps its lexeme, since
      the model has no floating-point parsing. */
  datatype Literal =
    | NoValue
    | WholeValue(n: int)
    | FloatValue(digits: string)
    | StringValue(text: string)

  datatype Token = Token(kind: TokenType, lexeme: string, value: Literal, line: int)

  /** The reserved words and the kind each one is scanned as, as the entries
      of the source's dictionary in the order they are written. */
  const Keywords: seq<(string, TokenType)> := [
    ("true", True), ("false", False),
    ("if", If), ("else", Else),
    ("while", While), ("for", For),
    ("and", And), ("or", Or),
    ("func", Func), ("return", Return),
    ("struct", Struct), ("this", This),
    ("null", Null)
  ]

  predicate IsKeywordKind(k: TokenType) {
    k.True? || k.False? || k.If? || k.Else? || k.While? || k.For? || k.And? || k.Or?
    || k.Func? || k.Return? || k.Struct? || k.This? || k.Null?
  }

  /** The dictionary lookup: the value of the first entry whose key is `word`. */
  function Lookup(entries: seq<(string, TokenType)>, word: string): Option<TokenType> {
    if entries == [] then None
    else if entries[0].0 == word then Some(entries[0].1)
    else Lookup(entries[1..], word)
  }

  /** No key occurs twice, as a dictionary demands. */
  ghost predicate KeysDistinct(entries: seq<(string, TokenType)>) {
    forall j, k :: 0 <= j < k < |entries| ==> entries[j].0 != entries[k].0
  }

  /** The lookup finds a value exactly when some entry has the word as its key,
      and with distinct keys the value is that entry's. */
  lemma {:induction false} LookupFindsEntry(entries: seq<(string, TokenType)>, word: string)
    ensures Lookup(entries, word).Some? <==> exists k :: 0 <= k < |entries| && entries[k].0 == word
    ensures KeysDistinct(entries) ==>
      forall k :: 0 <= k < |entries| && entries[k].0 == word ==> Lookup(entries, word) == Some(entries[k].1)
  {
    if entries != [] {
      var tail := entries[1..];
      LookupFindsEntry(tail, word);
      forall k | 0 < k < |entries| ensures entries[k] == tail[k - 1] {}
      if entries[0].0 != word {
        if exists k :: 0 <= k < |entries| && entries[k].0 == word {
          var k :| 0 <= k < |entries| && entries[k].0 == word;
          assert tail[k - 1].0 == word;
        }
        if KeysDistinct(entries) {
          assert KeysDistinct(tail) by {
            forall j, k | 0 <= j < k < |tail| ensures tail[j].0 != tail[k].0 {
              assert entries[j + 1].0 != entries[k + 1].0;
            }
          }
        }
      }
    }
  }

  /** A value found is the value of some entry. */
  lemma {:induction false} LookupGivesEntryValue(entries: seq<(string, TokenType)>, word: string)
    ensures Lookup(entries, word).Some? ==> exists k :: 0 <= k < |entries| && entries[k].1 == Lookup(entries, word).value
  {
    if entries != [] && entries[0].0 != word {
      LookupGivesEntryValue(entries[1..], word);
      if Lookup(entries, word).Some? {
        var k :| 0 <= k < |entries[1..]| && entries[1..][k].1 == Lookup(entries, word).value;
        assert entries[k + 1].1 == Lookup(entries, word).value;
      }
    }
  }

  /** The keyword table is a valid dictionary: its keys are pairwise different;
      and no two reserved words share a kind. */
  lemma KeywordsAreDistinct()
    ensures KeysDistinct(Keywords)
    ensures forall j, k :: 0 <= j < k < |Keywords| ==> Keywords[j].1 != Keywords[k].1
  {
  }

  /** The kind of a fully read identifier-shaped word: its keyword kind when it is
      reserved, `Ident` otherwise. */
  function KindOfWord(word: string): (k: TokenType)
    ensures k == Ident || IsKeywordKind(k)
  {
    var found := Lookup(Keywords, word);
    LookupGivesEntryValue(Keywords, word);
    if found.Some? then found.value else Ident
  }

  /** A reserved word is scanned as its table kind, every other word as `Ident`. */
  lemma KindOfWordFollowsTable(word: string)
    ensures forall k :: 0 <= k < |Keywords| && Keywords[k].0 == word ==>
      KindOfWord(word) == Keywords[k].1 && IsKeywordKind(KindOfWord(word))
    ensures (forall k :: 0 <= k < |Keywords| ==> Keywords[k].0 != word) ==> KindOfWord(word) == Ident
  {
    LookupFindsEntry(Keywords, word);
    KeywordsAreDistinct();
  }

  /** The spelling of a reserved-word kind: the inverse of the keyword table. */
  function Spelling(k: TokenType): (word: string)
    requires IsKeywordKind(k)
    ensures exists j :: 0 <= j < |Keywords| && Keywords[j] == (word, k)
  {
    match k
    case True => assert Keywords[0] == ("true", True); "true"
    case False => assert Keywords[1] == ("false", False); "false"
    case If => assert Keywords[2] == ("if", If); "if"
    case Else => assert Keywords[3] == ("else", Else); "else"
    case While => assert Keywords[4] == ("while", While); "while"
    case For => assert Keywords[5] == ("for", For); "for"
    case And => assert Keywords[6] == ("and", And); "and"
    case Or => assert Keywords[7] == ("or", Or); "or"
    case Func => assert Keywords[8] == ("func", Func); "func"
    case Return => assert Keywords[9] == ("return", Return); "return"
    case Struct => assert Keywords[10] == ("struct", Struct); "struct"
    case This => assert Keywords[11] == ("this", This); "this"
    case Null => assert Keywords[12] == ("null", Null); "null"
  }

  /** Every reserved word spells exactly one kind and back: resolving a word and
      spelling the kind it resolved to give the word again. */
  lemma KeywordTableIsInjective(j: nat)
    requires j < |Keywords|
    ensures IsKeywordKind(KindOfWord(Keywords[j].0)) && Spelling(KindOfWord(Keywords[j].0)) == Keywords[j].0
  {
    KindOfWordFollowsTable(Keywords[j].0);
    var k := Keywords[j].1;
    var i :| 0 <= i < |Keywords| && Keywords[i] == (Spelling(k), k);
    KeywordsAreDistinct();
    assert i == j;
  }
}
