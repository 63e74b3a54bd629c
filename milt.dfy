/** The driver's helpers: the error flag the scanner reports through, the
    one-byte-per-character codec between file bytes and source text, and the
    debug dump that rebuilds source text from a token list. */
module Milt {
  import opened Tokens
  import opened Sequences

  /** One reported error: the line it was reported on and its message. */
  datatype Diagnostic = Diagnostic(line: int, message: string)

  /** The process-wide error state. `hadError` is the flag the driver tests
      before going on; `reported` stands for the lines written to the console,
      one per call of `Error`. */
  class ErrorLog {
    var hadError: bool
    var reported: seq<Diagnostic>

    /** The flag is set exactly when something has been reported. */
    ghost predicate Valid()
      reads this
    {
      hadError == (reported != [])
    }

    constructor ()
      ensures Valid() && !hadError && reported == []
    {
      hadError := false;
      reported := [];
    }

    /** Records an error. The flag is set whatever it was before; nothing ever
        clears it again, since the class has no other method that writes it. */
    method Error(line: int, message: string)
      modifies this
      ensures Valid() && hadError
      ensures reported == old(reported) + [Diagnostic(line, message)]
    {
      hadError := true;
      reported := reported + [Diagnostic(line, message)];
    }
  }

  // ---------------------------------------------------------------------------
  // Byte codec

  newtype byte = b: int | 0 <= b < 256

  /** The character whose code is `b`. */
  function CharOf(b: byte): (c: char)
    ensures c as int == b as int
  {
    b as int as char
  }

  /** The byte a character is cast to: the low eight bits of its code. */
  function ByteOf(c: char): (b: byte)
    ensures b as int == c as int % 256
    ensures c as int < 256 ==> b as int == c as int
  {
    (c as int % 256) as byte
  }

  /** Decoding of file bytes, one character per byte. */
  function Decode(bytes: seq<byte>): (s: string)
    ensures |s| == |bytes|
    ensures forall i :: 0 <= i < |s| ==> s[i] as int == bytes[i] as int
  {
    seq(|bytes|, i requires 0 <= i < |bytes| => CharOf(bytes[i]))
  }

  /** Encoding of text, one byte per character. */
  function Encode(s: string): (bytes: seq<byte>)
    ensures |bytes| == |s|
    ensures forall i :: 0 <= i < |s| ==> bytes[i] as int == s[i] as int % 256
  {
    seq(|s|, i requires 0 <= i < |s| => ByteOf(s[i]))
  }

  /** Encoding the decoded text gives back the bytes. */
  lemma EncodeDecode(bytes: seq<byte>)
    ensures Encode(Decode(bytes)) == bytes
  {
    var s := Decode(bytes);
    assert forall i :: 0 <= i < |bytes| ==> Encode(s)[i] == bytes[i];
  }

  /** Decoding the encoded text gives back the text when every character
      fits in one byte; otherwise the high bits are lost. */
  lemma DecodeEncode(s: string)
    ensures (forall i :: 0 <= i < |s| ==> s[i] as int < 256) <==> Decode(Encode(s)) == s
  {
    var d := Decode(Encode(s));
    if forall i :: 0 <= i < |s| ==> s[i] as int < 256 {
      assert forall i :: 0 <= i < |s| ==> d[i] == s[i];
    } else {
      var i :| 0 <= i < |s| && s[i] as int >= 256;
      assert d[i] as int < 256;
    }
  }

  method BytesToString(bytes: array<byte>) returns (result: string)
    ensures result == Decode(bytes[..])
  {
    result := "";
    for i := 0 to bytes.Length
      invariant |result| == i
      invariant forall k :: 0 <= k < i ==> result[k] as int == bytes[k] as int
    {
      result := result + [CharOf(bytes[i])];
    }
  }

  method StringToBytes(s: string) returns (result: array<byte>)
    ensures fresh(result)
    ensures result[..] == Encode(s)
  {
    result := new byte[|s|];
    for i := 0 to |s|
      invariant forall k :: 0 <= k < i ==> result[k] as int == s[k] as int % 256
    {
      result[i] := ByteOf(s[i]);
    }
  }

  // ---------------------------------------------------------------------------
  // Reconstruction of code from tokens

  const Header: string := "\nCode Reconstruction Based On Tokens:\n"

  /** `text` with `piece` inserted before position `at`. */
  function Insert(text: string, at: nat, piece: string): (r: string)
    requires at <= |text|
    ensures |r| == |text| + |piece|
    ensures r[..at] == text[..at] && r[at..at + |piece|] == piece && r[at + |piece|..] == text[at..]
  {
    text[..at] + piece + text[at..]
  }

  /** The text appended after a token of kind `k`, for every kind but `BraceLeft`. */
  function Separator(k: TokenType): string {
    if k == Ident || k == Func || k == Return then " "
    else if k == BraceRight || k == Semicolon then "\n"
    else ""
  }

  /** One loop step of the dump: append the token's lexeme, then its layout.
      An opening brace gets a line break inserted before the last character
      written so far and one after it. */
  function Render(text: string, t: Token): (r: string)
    requires text != []
    ensures |r| >= |text|
  {
    var appended := text + t.lexeme;
    if t.kind == BraceLeft then Insert(appended, |appended| - 1, "\n") + "\n"
    else appended + Separator(t.kind)
  }

  /** The dump of `tokens` after `text`, token by token in list order. */
  function Dump(text: string, tokens: seq<Token>): (r: string)
    requires text != []
    ensures |r| >= |text|
  {
    if tokens == [] then text
    else Render(Dump(text, tokens[..|tokens| - 1]), tokens[|tokens| - 1])
  }

  /** The whole debug dump: the header, then every token. */
  function Reconstruction(tokens: seq<Token>): string {
    Dump(Header, tokens)
  }

  /** What one token contributes to the dump, provided that an opening brace has
      a non-empty lexeme (then the inserted break lands inside that lexeme). */
  function Piece(t: Token): string
    requires t.kind == BraceLeft ==> t.lexeme != []
  {
    if t.kind == BraceLeft then
      t.lexeme[..|t.lexeme| - 1] + "\n" + t.lexeme[|t.lexeme| - 1..] + "\n"
    else t.lexeme + Separator(t.kind)
  }

  ghost predicate BracesHaveText(tokens: seq<Token>) {
    forall i :: 0 <= i < |tokens| ==> tokens[i].kind == BraceLeft ==> tokens[i].lexeme != []
  }

  function Pieces(tokens: seq<Token>): string
    requires BracesHaveText(tokens)
  {
    if tokens == [] then [] else Pieces(tokens[..|tokens| - 1]) + Piece(tokens[|tokens| - 1])
  }

  /** One step of the dump appends exactly the token's piece. */
  lemma RenderAppendsPiece(prev: string, t: Token)
    requires prev != [] && (t.kind == BraceLeft ==> t.lexeme != [])
    ensures Render(prev, t) == prev + Piece(t)
  {
    var appended := prev + t.lexeme;
    if t.kind == BraceLeft {
      var m := |t.lexeme|;
      assert appended[..|appended| - 1] == prev + t.lexeme[..m - 1];
      assert appended[|appended| - 1..] == t.lexeme[m - 1..];
    }
  }

  /** When every opening brace has text, the dump is the starting text followed
      by each token's lexeme and layout, in list order; so the starting text
      is never touched. */
  lemma {:induction false} DumpIsPiecewise(text: string, tokens: seq<Token>)
    requires text != [] && BracesHaveText(tokens)
    ensures Dump(text, tokens) == text + Pieces(tokens)
    ensures Dump(text, tokens)[..|text|] == text
  {
    if tokens == [] {
      assert text + Pieces(tokens) == text;
    } else {
      var init, t := tokens[..|tokens| - 1], tokens[|tokens| - 1];
      assert BracesHaveText(init) by {
        forall i | 0 <= i < |init| ensures init[i].kind == BraceLeft ==> init[i].lexeme != [] {
          assert init[i] == tokens[i];
        }
      }
      DumpIsPiecewise(text, init);
      var prev := Dump(text, init);
      assert Dump(text, tokens) == Render(prev, t);
      RenderAppendsPiece(prev, t);
      assert Pieces(tokens) == Pieces(init) + Piece(t);
      ConcatAssociates(text, Pieces(init), Piece(t));
    }
    PrefixOfConcat(text, Pieces(tokens));
  }

  /** The source's dump begins with its header and then holds each token's
      lexeme and layout, in list order. */
  lemma ReconstructionIsPiecewise(tokens: seq<Token>)
    requires BracesHaveText(tokens)
    ensures Reconstruction(tokens) == Header + Pieces(tokens)
    ensures Reconstruction(tokens)[..|Header|] == Header
  {
    DumpIsPiecewise(Header, tokens);
  }

  method ReconstructCode(tokens: seq<Token>) returns (result: string)
    ensures result == Reconstruction(tokens)
  {
    result := Header;
    for i := 0 to |tokens|
      invariant result == Dump(Header, tokens[..i])
    {
      var t := tokens[i];
      assert tokens[..i + 1][..i] == tokens[..i];
      result := result + t.lexeme;
      if t.kind == Ident || t.kind == Func || t.kind == Return {
        result := result + " ";
      } else if t.kind == BraceRight || t.kind == Semicolon {
        result := result + "\n";
      } else if t.kind == BraceLeft {
        result := Insert(result, |result| - 1, "\n");
        result := result + "\n";
      }
    }
    assert tokens[..|tokens|] == tokens;
  }
}
