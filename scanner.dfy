/**
 * The byte-level scanner: a cursor over the source that the scanning
 * methods advance one byte at a time. `ScanToken` is proved to do what
 * `LexSpec.Lex` defines.
 */
module Scanners {
  import opened Common
  import opened LexSpec

  class Scanner {
    const source: seq<byte>
    var start: nat
    var current: nat
    var line: nat

    /** The lexeme start never passes the read position, which never passes the end. */
    ghost predicate Valid()
      reads this
    {
      start <= current <= |source|
    }

    /** The cursors as a value. */
    ghost function State(): Cursor
      reads this
    {
      Cursor(start, current, line)
    }

    /** A scanner at the start of `sourceCode`, on line 1. */
    constructor InitScanner(sourceCode: seq<byte>)
      ensures Valid()
      ensures source == sourceCode && start == 0 && current == 0 && line == 1
    {
      source := sourceCode;
      start, current, line := 0, 0, 1;
    }

    predicate IsAtEnd()
      reads this
    {
      current >= |source|
    }

    /** The byte at the read position, or 0 at the end. */
    function Peek(): (c: byte)
      reads this
      ensures current < |source| ==> c == source[current]
      ensures current >= |source| ==> c == 0
    {
      if IsAtEnd() then 0 else source[current]
    }

    /** The byte after the read position, or 0 when there is none. */
    function PeekNext(): (c: byte)
      reads this
      ensures current + 1 < |source| ==> c == source[current + 1]
      ensures current + 1 >= |source| ==> c == 0
    {
      if current + 1 >= |source| then 0 else source[current + 1]
    }

    /** Returns the byte at the read position (0 at the end) and moves past it. */
    method Advance() returns (c: byte)
      modifies this`current
      ensures c == old(Peek())
      ensures current == old(current) + 1
    {
      c := Peek();
      current := current + 1;
    }

    /** Moves past one byte unless at the end. */
    method SkipNextCharacter()
      modifies this`current
      ensures current == if old(current) < |source| then old(current) + 1 else old(current)
    {
      if !IsAtEnd() {
        current := current + 1;
      }
    }

    /**
     * Moves past whitespace and `//` comments, counting the newlines it
     * passes; stops where `LexSpec.SkipTrivia` says.
     */
    method SkipWhitespaceAndComments()
      requires Valid()
      modifies this`current, this`line
      ensures Valid()
      ensures current == SkipTrivia(source, old(current))
      ensures line == old(line) + Newlines(source[old(current)..current])
    {
      ghost var from := current;
      while true
        invariant start <= from <= current <= |source|
        invariant SkipTrivia(source, current) == SkipTrivia(source, from)
        invariant line == old(line) + Newlines(source[from..current])
        decreases |source| - current
      {
        var c := Peek();
        if c == Space || c == CarriageReturn || c == Tab {
          SkipWhitespaceByte(source, from, current);
          var _ := Advance();
        } else if c == Newline {
          SkipWhitespaceByte(source, from, current);
          var _ := Advance();
          line := line + 1;
        } else if c == Slash && PeekNext() == Slash {
          SkipCommentRun(source, from, current);
          SkipCommentBody();
        } else {
          if current < |source| {
            SkipTriviaStop(source, current);
          }
          return;
        }
      }
    }

    /** Moves to the newline that ends a `//` comment, or to the end of the input. */
    method SkipCommentBody()
      requires current <= |source|
      modifies this`current
      ensures current == ScanWhile(source, old(current), CommentBody)
    {
      ghost var comment := current;
      while Peek() != Newline && !IsAtEnd()
        invariant comment <= current <= |source|
        invariant ScanWhile(source, current, CommentBody) == ScanWhile(source, comment, CommentBody)
        decreases |source| - current
      {
        ScanWhileStep(source, current, CommentBody);
        var _ := Advance();
      }
      ScanWhileStep(source, current, CommentBody);
    }

    /** Consumes the next byte iff it is `expected`. */
    method MatchNext(expected: byte) returns (matched: bool)
      modifies this`current
      ensures matched <==> old(current) < |source| && source[old(current)] == expected
      ensures current == if matched then old(current) + 1 else old(current)
    {
      if IsAtEnd() {
        return false;
      }
      if source[current] != expected {
        return false;
      }
      current := current + 1;
      return true;
    }

    /** A token of kind `t` whose lexeme is the bytes from `start` to `current`. */
    function MakeToken(t: TokenType): (tok: Token)
      reads this
      requires start <= current <= |source|
      ensures tok.tokenType == t && tok.value == source[start..current] && tok.line == line
    {
      Token(t, source[start..current], line)
    }

    /** An error token carrying `msg` instead of a lexeme. */
    function ErrorToken(msg: seq<byte>): (tok: Token)
      reads this
      ensures tok.tokenType == TokenError && tok.value == msg && tok.line == line
    {
      Token(TokenError, msg, line)
    }

    /**
     * Scans the rest of a string literal whose opening quote was consumed:
     * up to and including the closing quote, counting newlines inside, or
     * to the end with the unterminated-string error.
     */
    method GetLiteralString() returns (t: Token)
      requires Valid()
      modifies this`current, this`line
      ensures Valid()
      ensures var q := ScanWhile(source, old(current), StringBody);
        line == old(line) + Newlines(source[old(current)..q]) &&
        if q == |source| then
          current == q && t == Token(TokenError, UnterminatedString, line)
        else
          current == q + 1 && t == Token(TokenString, source[start..current], line)
    {
      ghost var from := current;
      while !IsAtEnd() && Peek() != Quote
        invariant start <= from <= current <= |source|
        invariant ScanWhile(source, current, StringBody) == ScanWhile(source, from, StringBody)
        invariant line == old(line) + Newlines(source[from..current])
        decreases |source| - current
      {
        NewlinesStep(source, from, current);
        if Peek() == Newline {
          line := line + 1;
        }
        var _ := Advance();
      }
      if IsAtEnd() {
        return ErrorToken(UnterminatedString);
      }
      var _ := Advance();
      t := MakeToken(TokenString);
    }

    /** Scans the rest of a number: digits, and a fraction only when a digit follows the dot. */
    method GetLiteralNumber() returns (t: Token)
      requires Valid()
      modifies this`current
      ensures Valid()
      ensures current == NumberEnd(source, old(current))
      ensures t == Token(TokenNumber, source[start..current], line)
    {
      ghost var from := current;
      while IsDigit(Peek())
        invariant from <= current <= |source|
        invariant ScanWhile(source, current, Digits) == ScanWhile(source, from, Digits)
        decreases |source| - current
      {
        var _ := Advance();
      }
      if Peek() == Dot && IsDigit(PeekNext()) {
        var _ := Advance();
        ghost var fraction := current;
        while IsDigit(Peek())
          invariant fraction <= current <= |source|
          invariant ScanWhile(source, current, Digits) == ScanWhile(source, fraction, Digits)
          decreases |source| - current
        {
          var _ := Advance();
        }
      }
      t := MakeToken(TokenNumber);
    }

    /** Scans the rest of an identifier and classifies it as a keyword or an identifier. */
    method GetIdentifier() returns (t: Token)
      requires Valid()
      modifies this`current
      ensures Valid()
      ensures current == ScanWhile(source, old(current), IdentChars)
      ensures t == Token(KeywordType(source[start..current]), source[start..current], line)
    {
      ghost var from := current;
      while IsAlpha(Peek()) || IsDigit(Peek())
        invariant from <= current <= |source|
        invariant ScanWhile(source, current, IdentChars) == ScanWhile(source, from, IdentChars)
        decreases |source| - current
      {
        var _ := Advance();
      }
      var lexeme := source[start..current];
      t := MakeToken(KeywordType(lexeme));
    }

    /** Scans the token that starts at `start`, the read position. */
    method ScanLexeme(ghost b: nat, ghost ln: nat) returns (t: Token)
      requires b == start == current < |source| && ln == line
      modifies this`current, this`line
      ensures Lexed(t, State()) == LexAt(source, b, ln)
    {
      var c := Advance();
      if IsAlpha(c) {
        LexAtIdentifier(source, b, ln);
        t := GetIdentifier();
      } else if IsDigit(c) {
        LexAtNumber(source, b, ln);
        t := GetLiteralNumber();
      } else if c == Quote {
        LexAtString(source, b, ln);
        t := GetLiteralString();
      } else {
        t := ScanSymbol(b, ln, c);
      }
    }

    /** Scans a lexeme of punctuation or an operator whose first byte `c` was consumed, or reports an unknown byte. */
    method ScanSymbol(ghost b: nat, ghost ln: nat, c: byte) returns (t: Token)
      requires b == start && b + 1 == current <= |source| && ln == line && c == source[b]
      requires !IsAlpha(c) && !IsDigit(c) && c != Quote
      modifies this`current
      ensures Lexed(t, State()) == LexAt(source, b, ln)
    {
      if c == LeftParen {
        LexAtPunctuation(source, b, ln);
        t := MakeToken(TokenLeftParen);
      } else if c == RightParen {
        LexAtPunctuation(source, b, ln);
        t := MakeToken(TokenRightParen);
      } else if c == LeftBrace {
        LexAtPunctuation(source, b, ln);
        t := MakeToken(TokenLeftBrace);
      } else if c == RightBrace {
        LexAtPunctuation(source, b, ln);
        t := MakeToken(TokenRightBrace);
      } else if c == Comma {
        LexAtPunctuation(source, b, ln);
        t := MakeToken(TokenComma);
      } else if c == Dot {
        LexAtPunctuation(source, b, ln);
        t := MakeToken(TokenDot);
      } else if c == Semicolon {
        LexAtPunctuation(source, b, ln);
        t := MakeToken(TokenSemicolon);
      } else if c == Minus {
        LexAtPunctuation(source, b, ln);
        t := MakeToken(TokenMinus);
      } else if c == Plus {
        LexAtPunctuation(source, b, ln);
        t := MakeToken(TokenPlus);
      } else if c == Star {
        LexAtPunctuation(source, b, ln);
        t := MakeToken(TokenStar);
      } else if c == Slash {
        LexAtPunctuation(source, b, ln);
        t := MakeToken(TokenSlash);
      } else if IsOperatorStart(c) {
        t := ScanOperator(b, ln, c);
      } else {
        LexAtUnknown(source, b, ln);
        t := ErrorToken(UnknownCharacter);
      }
    }

    /** Scans `!`, `=`, `<` or `>`, taking a following `=` into a two-byte operator. */
    method ScanOperator(ghost b: nat, ghost ln: nat, c: byte) returns (t: Token)
      requires b == start && b + 1 == current <= |source| && ln == line && c == source[b]
      requires IsOperatorStart(c)
      modifies this`current
      ensures Lexed(t, State()) == LexAt(source, b, ln)
    {
      LexAtOperator(source, b, ln);
      var m := MatchNext(Equal);
      if c == Bang {
        if m { t := MakeToken(TokenNotEqual); } else { t := MakeToken(TokenNot); }
      } else if c == Equal {
        if m { t := MakeToken(TokenEqualEqual); } else { t := MakeToken(TokenEqual); }
      } else if c == Less {
        if m { t := MakeToken(TokenLessEqual); } else { t := MakeToken(TokenLess); }
      } else {
        if m { t := MakeToken(TokenGreaterEqual); } else { t := MakeToken(TokenGreater); }
      }
    }

    /**
     * Scans one token: skips whitespace and comments, marks the start, and
     * classifies what follows. The token and the new cursors are those of
     * `LexSpec.Lex`.
     */
    method ScanToken() returns (t: Token)
      requires Valid()
      modifies this`start, this`current, this`line
      ensures Valid()
      ensures Lex(source, old(State())) == Lexed(t, State())
    {
      ghost var c0 := State();
      SkipWhitespaceAndComments();
      start := current;
      if IsAtEnd() {
        LexAtEnd(source, c0, line);
        t := MakeToken(TokenEof);
      } else {
        LexBeforeEnd(source, c0, start, line);
        t := ScanLexeme(start, line);
      }
    }
  }
}
