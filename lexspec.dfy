/**
 * The lexer's vocabulary and a reference definition of one scanning step:
 * token kinds, byte classes, the end positions of the runs the scanner
 * consumes, keyword classification, and `Lex`, which says what token one
 * call of the scanner returns and where its cursors end up.
 */
module LexSpec {
  import opened Common

  datatype TokenType =
    | TokenLeftParen | TokenRightParen
    | TokenLeftBrace | TokenRightBrace
    | TokenComma
    | TokenDot
    | TokenSemicolon
    | TokenMinus | TokenPlus
    | TokenSlash | TokenStar
    | TokenNot | TokenNotEqual
    | TokenEqual | TokenEqualEqual
    | TokenLess | TokenLessEqual
    | TokenGreater | TokenGreaterEqual
    | TokenIdentifier
    | TokenString
    | TokenNumber
    | TokenTrue | TokenFalse
    | TokenAnd | TokenOr
    | TokenIf | TokenElse
    | TokenClass | TokenSuper | TokenThis
    | TokenFun
    | TokenVar
    | TokenReturn
    | TokenFor
    | TokenWhile
    | TokenNil
    | TokenPrint
    | TokenError
    | TokenEof

  /** A token: its kind, its bytes (the lexeme, or the message of an error token) and its line. */
  datatype Token = Token(tokenType: TokenType, value: seq<byte>, line: nat)

  // The ASCII bytes the scanner looks at.
  const Space: byte := 32  // ' '
  const CarriageReturn: byte := 13  // '\r'
  const Tab: byte := 9  // '\t'
  const Newline: byte := 10  // '\n'
  const Slash: byte := 47  // '/'
  const Quote: byte := 34  // '"'
  const Dot: byte := 46  // '.'
  const Equal: byte := 61  // '='
  const Bang: byte := 33  // '!'
  const Less: byte := 60  // '<'
  const Greater: byte := 62  // '>'
  const LeftParen: byte := 40  // '('
  const RightParen: byte := 41  // ')'
  const LeftBrace: byte := 123  // '{'
  const RightBrace: byte := 125  // '}'
  const Comma: byte := 44  // ','
  const Semicolon: byte := 59  // ';'
  const Minus: byte := 45  // '-'
  const Plus: byte := 43  // '+'
  const Star: byte := 42  // '*'
  const Underscore: byte := 95  // '_'
  const Digit0: byte := 48  // '0'
  const Digit9: byte := 57  // '9'
  const LowerA: byte := 97  // 'a'
  const LowerZ: byte := 122  // 'z'
  const UpperA: byte := 65  // 'A'
  const UpperZ: byte := 90  // 'Z'

  /** "Unterminated String Literal" */
  const UnterminatedString: seq<byte> :=
    [85, 110, 116, 101, 114, 109, 105, 110, 97, 116, 101, 100, 32, 83, 116, 114, 105, 110, 103, 32, 76, 105, 116, 101, 114, 97, 108]
  /** "Unknown character." */
  const UnknownCharacter: seq<byte> :=
    [85, 110, 107, 110, 111, 119, 110, 32, 99, 104, 97, 114, 97, 99, 116, 101, 114, 46]

  // Byte classes. Bytes outside ASCII belong to none of them.

  predicate IsDigit(c: byte) { Digit0 <= c <= Digit9 }

  predicate IsAlpha(c: byte) {
    (LowerA <= c <= LowerZ) || (UpperA <= c <= UpperZ) || c == Underscore
  }

  predicate IsIdentChar(c: byte) { IsAlpha(c) || IsDigit(c) }

  predicate IsWhitespace(c: byte) {
    c == Space || c == CarriageReturn || c == Tab || c == Newline
  }

  /** The runs of bytes the scanner consumes with a `while` loop over `peek()`. */
  datatype Run = Digits | IdentChars | CommentBody | StringBody

  /** Whether byte `c` continues a run of kind `r`. */
  predicate InRun(r: Run, c: byte) {
    match r
    case Digits => IsDigit(c)
    case IdentChars => IsIdentChar(c)
    case CommentBody => c != Newline
    case StringBody => c != Quote
  }

  /** The number of newline bytes in `s`. */
  function Newlines(s: seq<byte>): (n: nat)
    ensures n <= |s|
  {
    if s == [] then 0 else (if s[0] == Newline then 1 else 0) + Newlines(s[1..])
  }

  /** Counting newlines is additive over concatenation. */
  lemma {:induction false} NewlinesAppend(a: seq<byte>, b: seq<byte>)
    ensures Newlines(a + b) == Newlines(a) + Newlines(b)
  {
    if a == [] {
      assert a + b == b;
    } else {
      assert (a + b)[1..] == a[1..] + b;
      NewlinesAppend(a[1..], b);
    }
  }

  /** Extending a slice of `s` by one byte adds one newline exactly when that byte is one. */
  lemma NewlinesStep(s: seq<byte>, a: nat, b: nat)
    requires a <= b < |s|
    ensures Newlines(s[a..b + 1]) == Newlines(s[a..b]) + (if s[b] == Newline then 1 else 0)
  {
    assert s[a..b + 1] == s[a..b] + [s[b]];
    NewlinesAppend(s[a..b], [s[b]]);
    assert [s[b]][1..] == [];
  }

  /** The newlines of adjacent slices add up. */
  lemma NewlinesSplit(s: seq<byte>, a: nat, m: nat, b: nat)
    requires a <= m <= b <= |s|
    ensures Newlines(s[a..b]) == Newlines(s[a..m]) + Newlines(s[m..b])
  {
    assert s[a..b] == s[a..m] + s[m..b];
    NewlinesAppend(s[a..m], s[m..b]);
  }

  /** A slice without newline bytes counts no lines. */
  lemma {:induction false} NoNewlines(s: seq<byte>, b: nat, e: nat)
    requires b <= e <= |s|
    requires forall k :: b <= k < e ==> s[k] != Newline
    ensures Newlines(s[b..e]) == 0
    decreases e - b
  {
    if b < e {
      assert s[b..e][1..] == s[b + 1..e];
      NoNewlines(s, b + 1, e);
    }
  }

  /**
   * The first position at or after `i` whose byte does not continue run `r`,
   * or the end: where the scanner's `while` loop over that run stops.
   */
  function ScanWhile(s: seq<byte>, i: nat, r: Run): (j: nat)
    requires i <= |s|
    ensures i <= j <= |s|
    ensures j == |s| || !InRun(r, s[j])
    decreases |s| - i
  {
    if i == |s| || !InRun(r, s[i]) then i else ScanWhile(s, i + 1, r)
  }

  /** Every byte `ScanWhile` passes continues the run, so its result is the longest run from `i`. */
  lemma {:induction false} ScanWhileRun(s: seq<byte>, i: nat, r: Run)
    requires i <= |s|
    ensures forall k :: i <= k < ScanWhile(s, i, r) ==> InRun(r, s[k])
    decreases |s| - i
  {
    if i < |s| && InRun(r, s[i]) {
      ScanWhileRun(s, i + 1, r);
    }
  }

  /** One step of a loop over a run. */
  lemma ScanWhileStep(s: seq<byte>, i: nat, r: Run)
    requires i <= |s|
    ensures i < |s| && InRun(r, s[i]) ==> ScanWhile(s, i, r) == ScanWhile(s, i + 1, r)
    ensures i == |s| || !InRun(r, s[i]) ==> ScanWhile(s, i, r) == i
  {
  }

  /** A `//` comment starts at `i`. */
  predicate StartsComment(s: seq<byte>, i: nat) {
    i + 1 < |s| && s[i] == Slash && s[i + 1] == Slash
  }

  /** The byte at `i` is whitespace or starts a comment. */
  predicate AtTrivia(s: seq<byte>, i: nat) {
    i < |s| && (IsWhitespace(s[i]) || StartsComment(s, i))
  }

  /**
   * Where skipping whitespace and comments from `i` stops: whitespace bytes
   * are consumed one at a time, a comment up to (not including) its newline,
   * and the result is the first position that is neither.
   */
  function SkipTrivia(s: seq<byte>, i: nat): (j: nat)
    requires i <= |s|
    ensures i <= j <= |s|
    ensures !AtTrivia(s, j)
    decreases |s| - i
  {
    if i == |s| then i
    else if IsWhitespace(s[i]) then SkipTrivia(s, i + 1)
    else if StartsComment(s, i) then SkipTrivia(s, ScanWhile(s, i, CommentBody))
    else i
  }

  /** Skipping stops at once where there is neither whitespace nor a comment. */
  lemma SkipTriviaStop(s: seq<byte>, i: nat)
    requires i <= |s| && !AtTrivia(s, i)
    ensures SkipTrivia(s, i) == i
  {
  }

  /** Passing one whitespace byte keeps the skip target and counts the byte if it is a newline. */
  lemma SkipWhitespaceByte(s: seq<byte>, from: nat, i: nat)
    requires from <= i < |s| && IsWhitespace(s[i])
    ensures SkipTrivia(s, i + 1) == SkipTrivia(s, i)
    ensures Newlines(s[from..i + 1]) == Newlines(s[from..i]) + (if s[i] == Newline then 1 else 0)
  {
    NewlinesStep(s, from, i);
  }

  /** Passing a comment body keeps the skip target and counts no newline. */
  lemma SkipCommentRun(s: seq<byte>, from: nat, i: nat)
    requires from <= i && StartsComment(s, i)
    ensures var e := ScanWhile(s, i, CommentBody);
      i < e && SkipTrivia(s, e) == SkipTrivia(s, i) && Newlines(s[from..e]) == Newlines(s[from..i])
  {
    var e := ScanWhile(s, i, CommentBody);
    ScanWhileRun(s, i, CommentBody);
    NoNewlines(s, i, e);
    NewlinesSplit(s, from, i, e);
  }

  /**
   * Where a number that continues at `i` ends: a run of digits, then a `.`
   * and a second run of digits only if a digit follows the dot.
   */
  function NumberEnd(s: seq<byte>, i: nat): (j: nat)
    requires i <= |s|
    ensures i <= j <= |s|
    ensures j == |s| || !IsDigit(s[j])
  {
    var d := ScanWhile(s, i, Digits);
    if d + 1 < |s| && s[d] == Dot && IsDigit(s[d + 1]) then ScanWhile(s, d + 1, Digits) else d
  }

  /**
   * A number is digits up to `d`; past `d` it continues only with a dot and
   * at least one more digit, and then with digits alone.
   */
  lemma NumberEndShape(s: seq<byte>, i: nat)
    requires i <= |s|
    ensures var d := ScanWhile(s, i, Digits); var j := NumberEnd(s, i);
      (forall k :: i <= k < d ==> IsDigit(s[k])) &&
      if d + 1 < |s| && s[d] == Dot && IsDigit(s[d + 1]) then
        d + 1 < j && (forall k :: d < k < j ==> IsDigit(s[k]))
      else
        j == d
  {
    var d := ScanWhile(s, i, Digits);
    ScanWhileRun(s, i, Digits);
    if d + 1 < |s| && s[d] == Dot && IsDigit(s[d + 1]) {
      ScanWhileRun(s, d + 1, Digits);
    }
  }

  /** The sixteen reserved words' kinds, in the order the scanner tests their spellings. */
  const Keywords: seq<TokenType> :=
    [TokenAnd, TokenClass, TokenElse, TokenFalse, TokenFor, TokenFun, TokenIf, TokenNil,
     TokenOr, TokenPrint, TokenReturn, TokenSuper, TokenThis, TokenTrue, TokenVar, TokenWhile]

  predicate IsKeyword(t: TokenType) {
    t in Keywords
  }

  /** The bytes of a reserved word. */
  function Spelling(t: TokenType): seq<byte>
    requires IsKeyword(t)
  {
    match t
    case TokenAnd => [97, 110, 100]  // and
    case TokenClass => [99, 108, 97, 115, 115]  // class
    case TokenElse => [101, 108, 115, 101]  // else
    case TokenFalse => [102, 97, 108, 115, 101]  // false
    case TokenFor => [102, 111, 114]  // for
    case TokenFun => [102, 117, 110]  // fun
    case TokenIf => [105, 102]  // if
    case TokenNil => [110, 105, 108]  // nil
    case TokenOr => [111, 114]  // or
    case TokenPrint => [112, 114, 105, 110, 116]  // print
    case TokenReturn => [114, 101, 116, 117, 114, 110]  // return
    case TokenSuper => [115, 117, 112, 101, 114]  // super
    case TokenThis => [116, 104, 105, 115]  // this
    case TokenTrue => [116, 114, 117, 101]  // true
    case TokenVar => [118, 97, 114]  // var
    case TokenWhile => [119, 104, 105, 108, 101]  // while
  }

  /** The first reserved word from `Keywords[i..]` that `w` spells, or an identifier: the arms of a `match` tried in order. */
  function KeywordFrom(w: seq<byte>, i: nat): (t: TokenType)
    requires i <= |Keywords|
    ensures t == TokenIdentifier || IsKeyword(t)
    decreases |Keywords| - i
  {
    if i == |Keywords| then TokenIdentifier
    else if w == Spelling(Keywords[i]) then Keywords[i]
    else KeywordFrom(w, i + 1)
  }

  /** Classifies an identifier lexeme: a keyword's kind when it is spelled as one, otherwise an identifier. */
  function KeywordType(w: seq<byte>): (t: TokenType)
    ensures t == TokenIdentifier || IsKeyword(t)
  {
    KeywordFrom(w, 0)
  }

  /** A keyword found by the search is one that `w` spells. */
  lemma {:induction false} KeywordFromSpells(w: seq<byte>, i: nat)
    requires i <= |Keywords|
    ensures KeywordFrom(w, i) != TokenIdentifier ==> w == Spelling(KeywordFrom(w, i))
    decreases |Keywords| - i
  {
    if i < |Keywords| && w != Spelling(Keywords[i]) {
      KeywordFromSpells(w, i + 1);
    }
  }

  /** No two reserved words are spelled alike. */
  lemma SpellingsDistinct(i: nat, j: nat)
    requires i < j < |Keywords|
    ensures Spelling(Keywords[i]) != Spelling(Keywords[j])
  {
  }

  /** Searching from `i`, a word that spells the keyword at `j >= i` finds that keyword. */
  lemma {:induction false} KeywordFromFinds(i: nat, j: nat)
    requires i <= j < |Keywords|
    ensures KeywordFrom(Spelling(Keywords[j]), i) == Keywords[j]
    decreases j - i
  {
    if i < j {
      SpellingsDistinct(i, j);
      KeywordFromFinds(i + 1, j);
    }
  }

  /** Every reserved word is classified as its own kind. */
  lemma KeywordRoundTrip(t: TokenType)
    requires IsKeyword(t)
    ensures KeywordType(Spelling(t)) == t
  {
    var j :| 0 <= j < |Keywords| && Keywords[j] == t;
    KeywordFromFinds(0, j);
  }

  /** A lexeme has the kind of keyword `t` exactly when it spells `t`. */
  lemma KeywordTypeIs(w: seq<byte>, t: TokenType)
    requires IsKeyword(t)
    ensures KeywordType(w) == t <==> w == Spelling(t)
  {
    KeywordFromSpells(w, 0);
    KeywordRoundTrip(t);
  }

  /**
   * A lexeme has a keyword's kind exactly when it spells that keyword, and is
   * an identifier exactly when it spells none.
   */
  lemma KeywordTypeClassifies(w: seq<byte>)
    ensures forall t :: IsKeyword(t) ==> (KeywordType(w) == t <==> w == Spelling(t))
    ensures KeywordType(w) == TokenIdentifier <==> forall t :: IsKeyword(t) ==> w != Spelling(t)
  {
    forall t | IsKeyword(t)
      ensures KeywordType(w) == t <==> w == Spelling(t)
    {
      KeywordTypeIs(w, t);
    }
    var k := KeywordType(w);
    if k != TokenIdentifier {
      KeywordTypeIs(w, k);
    }
  }

  /** The kind of a one-byte punctuation token. */
  function PunctuationType(c: byte): (t: Option<TokenType>)
    ensures t.Some? ==> t.value != TokenError && t.value != TokenEof && t.value != TokenIdentifier
  {
    if c == LeftParen then Some(TokenLeftParen)
    else if c == RightParen then Some(TokenRightParen)
    else if c == LeftBrace then Some(TokenLeftBrace)
    else if c == RightBrace then Some(TokenRightBrace)
    else if c == Comma then Some(TokenComma)
    else if c == Dot then Some(TokenDot)
    else if c == Semicolon then Some(TokenSemicolon)
    else if c == Minus then Some(TokenMinus)
    else if c == Plus then Some(TokenPlus)
    else if c == Star then Some(TokenStar)
    else if c == Slash then Some(TokenSlash)
    else None
  }

  /** The bytes that start an operator which may be followed by `=`. */
  predicate IsOperatorStart(c: byte) {
    c == Bang || c == Equal || c == Less || c == Greater
  }

  /** The kind of operator `c`, alone or followed by `=`. */
  function OperatorType(c: byte, withEqual: bool): (t: TokenType)
    requires IsOperatorStart(c)
    ensures t != TokenError && t != TokenEof && t != TokenIdentifier
  {
    if c == Bang then (if withEqual then TokenNotEqual else TokenNot)
    else if c == Equal then (if withEqual then TokenEqualEqual else TokenEqual)
    else if c == Less then (if withEqual then TokenLessEqual else TokenLess)
    else (if withEqual then TokenGreaterEqual else TokenGreater)
  }

  /** The scanner's cursors: the start of the current lexeme, the next byte to read, and the line. */
  datatype Cursor = Cursor(start: nat, current: nat, line: nat)

  /** A token together with the cursors after it was scanned. */
  datatype Lexed = Lexed(token: Token, after: Cursor)

  /** What one scanning step returns when its lexeme starts at `b`, on line `line`. */
  function LexAt(s: seq<byte>, b: nat, line: nat): (r: Lexed)
    requires b < |s|
    ensures r.after.start == b < r.after.current <= |s|
    ensures line <= r.after.line && r.token.line == r.after.line
  {
    var ch := s[b];
    if IsAlpha(ch) then
      var e := ScanWhile(s, b + 1, IdentChars);
      Lexed(Token(KeywordType(s[b..e]), s[b..e], line), Cursor(b, e, line))
    else if IsDigit(ch) then
      var e := NumberEnd(s, b + 1);
      Lexed(Token(TokenNumber, s[b..e], line), Cursor(b, e, line))
    else if ch == Quote then
      var q := ScanWhile(s, b + 1, StringBody);
      var line' := line + Newlines(s[b + 1..q]);
      if q == |s| then
        Lexed(Token(TokenError, UnterminatedString, line'), Cursor(b, q, line'))
      else
        Lexed(Token(TokenString, s[b..q + 1], line'), Cursor(b, q + 1, line'))
    else if PunctuationType(ch).Some? then
      Lexed(Token(PunctuationType(ch).value, s[b..b + 1], line), Cursor(b, b + 1, line))
    else if IsOperatorStart(ch) then
      var two := b + 1 < |s| && s[b + 1] == Equal;
      var e := if two then b + 2 else b + 1;
      Lexed(Token(OperatorType(ch, two), s[b..e], line), Cursor(b, e, line))
    else
      Lexed(Token(TokenError, UnknownCharacter, line), Cursor(b, b + 1, line))
  }

  // The value of `LexAt` for each kind of first byte, one lemma per branch of the scanner.

  lemma LexAtIdentifier(s: seq<byte>, b: nat, line: nat)
    requires b < |s| && IsAlpha(s[b])
    ensures var e := ScanWhile(s, b + 1, IdentChars);
      LexAt(s, b, line) == Lexed(Token(KeywordType(s[b..e]), s[b..e], line), Cursor(b, e, line))
  {
  }

  lemma LexAtNumber(s: seq<byte>, b: nat, line: nat)
    requires b < |s| && IsDigit(s[b])
    ensures var e := NumberEnd(s, b + 1);
      LexAt(s, b, line) == Lexed(Token(TokenNumber, s[b..e], line), Cursor(b, e, line))
  {
  }

  lemma LexAtString(s: seq<byte>, b: nat, line: nat)
    requires b < |s| && s[b] == Quote
    ensures var q := ScanWhile(s, b + 1, StringBody); var line' := line + Newlines(s[b + 1..q]);
      LexAt(s, b, line) ==
        if q == |s| then Lexed(Token(TokenError, UnterminatedString, line'), Cursor(b, q, line'))
        else Lexed(Token(TokenString, s[b..q + 1], line'), Cursor(b, q + 1, line'))
  {
  }

  lemma LexAtPunctuation(s: seq<byte>, b: nat, line: nat)
    requires b < |s| && PunctuationType(s[b]).Some?
    ensures LexAt(s, b, line) == Lexed(Token(PunctuationType(s[b]).value, s[b..b + 1], line), Cursor(b, b + 1, line))
  {
    assert !IsAlpha(s[b]) && !IsDigit(s[b]) && s[b] != Quote;
  }

  /** `!`, `=`, `<` and `>` form the two-byte operator iff the next byte is `=`. */
  lemma LexAtOperator(s: seq<byte>, b: nat, line: nat)
    requires b < |s| && IsOperatorStart(s[b])
    ensures var two := b + 1 < |s| && s[b + 1] == Equal; var e := if two then b + 2 else b + 1;
      LexAt(s, b, line) == Lexed(Token(OperatorType(s[b], two), s[b..e], line), Cursor(b, e, line))
  {
    assert !IsAlpha(s[b]) && !IsDigit(s[b]) && s[b] != Quote;
    assert PunctuationType(s[b]).None?;
  }

  lemma LexAtUnknown(s: seq<byte>, b: nat, line: nat)
    requires b < |s| && !IsAlpha(s[b]) && !IsDigit(s[b]) && s[b] != Quote
    requires PunctuationType(s[b]).None? && !IsOperatorStart(s[b])
    ensures LexAt(s, b, line) == Lexed(Token(TokenError, UnknownCharacter, line), Cursor(b, b + 1, line))
  {
  }

  /**
   * A lexeme is never end-of-input; a token other than an error carries the
   * bytes it consumed; an error is an unterminated string, which consumes the
   * rest of the input, or an unknown character, which consumes one byte.
   */
  lemma LexAtToken(s: seq<byte>, b: nat, line: nat)
    requires b < |s|
    ensures var r := LexAt(s, b, line);
      r.token.tokenType != TokenEof &&
      (r.token.tokenType != TokenError ==> r.token.value == s[b..r.after.current]) &&
      (r.token.tokenType == TokenError ==>
        (r.token.value == UnterminatedString && r.after.current == |s|) ||
        (r.token.value == UnknownCharacter && r.after.current == b + 1))
  {
    var ch := s[b];
    if IsAlpha(ch) {
      LexAtIdentifier(s, b, line);
    } else if IsDigit(ch) {
      LexAtNumber(s, b, line);
    } else if ch == Quote {
      LexAtString(s, b, line);
    } else if PunctuationType(ch).Some? {
      LexAtPunctuation(s, b, line);
    } else if IsOperatorStart(ch) {
      LexAtOperator(s, b, line);
    } else {
      LexAtUnknown(s, b, line);
    }
  }

  /**
   * One scanning step from cursor `c`: skip whitespace and comments, mark
   * the start, and return end-of-input there or classify what follows.
   */
  function Lex(s: seq<byte>, c: Cursor): (r: Lexed)
    requires c.current <= |s|
    ensures c.current <= r.after.start <= r.after.current <= |s|
    ensures r.after.start == SkipTrivia(s, c.current)
    ensures c.line <= r.after.line && r.token.line == r.after.line
  {
    var b := SkipTrivia(s, c.current);
    var line := c.line + Newlines(s[c.current..b]);
    if b == |s| then Lexed(Token(TokenEof, s[b..b], line), Cursor(b, b, line))
    else LexAt(s, b, line)
  }

  /** Where only whitespace and comments remain, a step returns end-of-input with no bytes. */
  lemma LexAtEnd(s: seq<byte>, c: Cursor, line: nat)
    requires c.current <= |s| && SkipTrivia(s, c.current) == |s|
    requires line == c.line + Newlines(s[c.current..|s|])
    ensures Lex(s, c) == Lexed(Token(TokenEof, [], line), Cursor(|s|, |s|, line))
  {
    assert s[|s|..|s|] == [];
  }

  /** Otherwise a step classifies the lexeme that starts after the whitespace and comments. */
  lemma LexBeforeEnd(s: seq<byte>, c: Cursor, b: nat, line: nat)
    requires c.current <= |s| && b == SkipTrivia(s, c.current) && b < |s|
    requires line == c.line + Newlines(s[c.current..b])
    ensures Lex(s, c) == LexAt(s, b, line)
  {
  }

  /**
   * The token of one scanning step: end-of-input exactly when only whitespace
   * and comments remain, then with no bytes and all lines counted; otherwise
   * it consumes at least one byte, and a token other than an error carries
   * its lexeme, while an error is one of the two the scanner reports.
   */
  lemma LexToken(s: seq<byte>, c: Cursor)
    requires c.current <= |s|
    ensures var r := Lex(s, c);
      (r.token.tokenType == TokenEof <==> r.after.start == |s|) &&
      (r.token.tokenType == TokenEof ==>
        r.token.value == [] && r.after.current == |s| && r.after.line == c.line + Newlines(s[c.current..|s|])) &&
      (r.token.tokenType != TokenEof ==> c.current < r.after.current) &&
      (r.token.tokenType != TokenError ==> r.token.value == s[r.after.start..r.after.current]) &&
      (r.token.tokenType == TokenError ==>
        (r.token.value == UnterminatedString && r.after.current == |s|) ||
        (r.token.value == UnknownCharacter && r.after.current == r.after.start + 1))
  {
    var b := SkipTrivia(s, c.current);
    var line := c.line + Newlines(s[c.current..b]);
    if b < |s| {
      LexBeforeEnd(s, c, b, line);
      LexAtToken(s, b, line);
    } else {
      LexAtEnd(s, c, line);
    }
  }

  lemma IdentifierHasNoNewlines(s: seq<byte>, b: nat)
    requires b < |s| && IsAlpha(s[b])
    ensures Newlines(s[b..ScanWhile(s, b + 1, IdentChars)]) == 0
  {
    ScanWhileRun(s, b + 1, IdentChars);
    NoNewlines(s, b, ScanWhile(s, b + 1, IdentChars));
  }

  lemma NumberHasNoNewlines(s: seq<byte>, b: nat)
    requires b < |s| && IsDigit(s[b])
    ensures Newlines(s[b..NumberEnd(s, b + 1)]) == 0
  {
    var e := NumberEnd(s, b + 1);
    var d := ScanWhile(s, b + 1, Digits);
    NumberEndShape(s, b + 1);
    forall k | b <= k < e
      ensures s[k] != Newline
    {
      if k == d {
        assert s[k] == Dot;
      }
    }
    NoNewlines(s, b, e);
  }

  /** Dropping a first byte that is not a newline keeps the count. */
  lemma NewlinesTrim(s: seq<byte>, a: nat, b: nat)
    requires a < b <= |s| && s[a] != Newline
    ensures Newlines(s[a..b]) == Newlines(s[a + 1..b])
  {
    NoNewlines(s, a, a + 1);
    NewlinesSplit(s, a, a + 1, b);
  }

  /** A string's quotes, ending at `q` or unterminated, hold no newline. */
  lemma QuotesCountNoLines(s: seq<byte>, b: nat, q: nat)
    requires b < q <= |s| && s[b] == Quote && (q < |s| ==> s[q] == Quote)
    ensures q == |s| ==> Newlines(s[b..q]) == Newlines(s[b + 1..q])
    ensures q < |s| ==> Newlines(s[b..q + 1]) == Newlines(s[b + 1..q])
  {
    NewlinesTrim(s, b, q);
    if q < |s| {
      NewlinesTrim(s, b, q + 1);
      NewlinesStep(s, b + 1, q);
    }
  }

  /** The line count after `LexAt` is the line before it plus the newlines among the consumed bytes. */
  predicate CountsLines(s: seq<byte>, b: nat, line: nat)
    requires b < |s|
  {
    var r := LexAt(s, b, line);
    r.after.line == line + Newlines(s[b..r.after.current])
  }

  lemma IdentifierCountsLines(s: seq<byte>, b: nat, line: nat)
    requires b < |s| && IsAlpha(s[b])
    ensures CountsLines(s, b, line)
  {
    LexAtIdentifier(s, b, line);
    IdentifierHasNoNewlines(s, b);
  }

  lemma NumberCountsLines(s: seq<byte>, b: nat, line: nat)
    requires b < |s| && IsDigit(s[b])
    ensures CountsLines(s, b, line)
  {
    LexAtNumber(s, b, line);
    NumberHasNoNewlines(s, b);
  }

  lemma StringCountsLines(s: seq<byte>, b: nat, line: nat)
    requires b < |s| && s[b] == Quote
    ensures CountsLines(s, b, line)
  {
    LexAtString(s, b, line);
    QuotesCountNoLines(s, b, ScanWhile(s, b + 1, StringBody));
  }

  lemma ShortCountsLines(s: seq<byte>, b: nat, line: nat)
    requires b < |s| && !IsAlpha(s[b]) && !IsDigit(s[b]) && s[b] != Quote && s[b] != Newline
    ensures CountsLines(s, b, line)
  {
    var r := LexAt(s, b, line);
    if PunctuationType(s[b]).Some? {
      LexAtPunctuation(s, b, line);
    } else if IsOperatorStart(s[b]) {
      LexAtOperator(s, b, line);
    } else {
      LexAtUnknown(s, b, line);
    }
    assert r.after.line == line && (r.after.current == b + 1 || (r.after.current == b + 2 && s[b + 1] == Equal));
    NoNewlines(s, b, r.after.current);
  }

  /** Only a string literal's body can hold newlines; the rest of a lexeme holds none. */
  lemma LexAtCountsLines(s: seq<byte>, b: nat, line: nat)
    requires b < |s| && s[b] != Newline
    ensures var r := LexAt(s, b, line);
      r.after.line == line + Newlines(s[b..r.after.current])
  {
    if IsAlpha(s[b]) {
      IdentifierCountsLines(s, b, line);
    } else if IsDigit(s[b]) {
      NumberCountsLines(s, b, line);
    } else if s[b] == Quote {
      StringCountsLines(s, b, line);
    } else {
      ShortCountsLines(s, b, line);
    }
  }

  /** The line after a step is the line before it plus the newlines among the bytes it consumed. */
  lemma LexCountsLines(s: seq<byte>, c: Cursor)
    requires c.current <= |s|
    ensures var r := Lex(s, c);
      r.after.line == c.line + Newlines(s[c.current..r.after.current])
  {
    var b := SkipTrivia(s, c.current);
    var line := c.line + Newlines(s[c.current..b]);
    if b < |s| {
      LexBeforeEnd(s, c, b, line);
      LexAtCountsLines(s, b, line);
      NewlinesSplit(s, c.current, b, LexAt(s, b, line).after.current);
    } else {
      LexAtEnd(s, c, line);
    }
  }

  /** Once the end is reached, scanning again returns the same end-of-input token and leaves the cursors alone. */
  lemma LexEofIsStable(s: seq<byte>, c: Cursor)
    requires c.current <= |s|
    requires Lex(s, c).token.tokenType == TokenEof
    ensures Lex(s, Lex(s, c).after) == Lex(s, c)
  {
    var r := Lex(s, c);
    LexToken(s, c);
    SkipTriviaStop(s, |s|);
    assert s[|s|..|s|] == [];
  }

  /**
   * A lexeme that starts with a letter or `_` is the longest run of letters,
   * digits and `_`, and its kind is the keyword classification of its bytes
   * (see `KeywordTypeClassifies`).
   */
  lemma LexIdentifier(s: seq<byte>, b: nat, line: nat)
    requires b < |s| && IsAlpha(s[b])
    ensures var r := LexAt(s, b, line); var w := r.token.value;
      |w| >= 1 && (forall k :: 0 <= k < |w| ==> IsIdentChar(w[k])) &&
      (r.after.current == |s| || !IsIdentChar(s[r.after.current]))
    ensures var r := LexAt(s, b, line);
      r.token.tokenType == KeywordType(r.token.value)
  {
    var e := ScanWhile(s, b + 1, IdentChars);
    LexAtIdentifier(s, b, line);
    ScanWhileRun(s, b + 1, IdentChars);
    forall k | 0 <= k < e - b
      ensures IsIdentChar(s[b..e][k])
    {
      assert s[b..e][k] == s[b + k];
      if k > 0 {
        assert InRun(IdentChars, s[b + k]);
      }
    }
  }

  /**
   * A number lexeme is a run of digits, optionally a `.` and a second run;
   * the lexeme is never followed by a digit, and when it has no fraction it is
   * not followed by a `.` and a digit.
   */
  lemma LexNumber(s: seq<byte>, b: nat, line: nat)
    requires b < |s| && IsDigit(s[b])
    ensures var r := LexAt(s, b, line); var w := r.token.value; var e := r.after.current;
      r.token.tokenType == TokenNumber && |w| >= 1 &&
      (e == |s| || !IsDigit(s[e])) &&
      ((forall k :: 0 <= k < |w| ==> IsDigit(w[k])) ||
       (exists d :: 0 < d < |w| - 1 && w[d] == Dot && forall k :: 0 <= k < |w| && k != d ==> IsDigit(w[k]))) &&
      ((forall k :: 0 <= k < |w| ==> IsDigit(w[k])) ==> !(e + 1 < |s| && s[e] == Dot && IsDigit(s[e + 1])))
  {
    LexAtNumber(s, b, line);
    NumberEndShape(s, b + 1);
    var e := NumberEnd(s, b + 1);
    var w := s[b..e];
    var d := ScanWhile(s, b + 1, Digits);
    if d + 1 < |s| && s[d] == Dot && IsDigit(s[d + 1]) {
      assert w[d - b] == Dot;
      assert forall k :: 0 <= k < |w| && k != d - b ==> IsDigit(w[k]) by {
        forall k | 0 <= k < |w| && k != d - b
          ensures IsDigit(w[k])
        {
          assert w[k] == s[b + k];
        }
      }
      assert !IsDigit(w[d - b]);
    } else {
      assert e == d;
      forall k | 0 <= k < |w|
        ensures IsDigit(w[k])
      {
        assert w[k] == s[b + k];
      }
    }
  }

  /**
   * A string literal without a closing quote is the unterminated-string error
   * and consumes the rest of the input; otherwise the lexeme runs from the
   * opening to the first closing quote, both included.
   */
  lemma LexString(s: seq<byte>, b: nat, line: nat)
    requires b < |s| && s[b] == Quote
    ensures var r := LexAt(s, b, line); var w := r.token.value;
      (r.token.tokenType == TokenError || r.token.tokenType == TokenString) &&
      (r.token.tokenType == TokenError <==> forall k :: b < k < |s| ==> s[k] != Quote) &&
      (r.token.tokenType == TokenError ==> w == UnterminatedString && r.after.current == |s|) &&
      (r.token.tokenType == TokenString ==>
        |w| >= 2 && w[0] == Quote && w[|w| - 1] == Quote &&
        forall k :: 0 < k < |w| - 1 ==> w[k] != Quote)
  {
    LexAtString(s, b, line);
    var q := ScanWhile(s, b + 1, StringBody);
    ScanWhileRun(s, b + 1, StringBody);
    if q < |s| {
      assert s[q] == Quote;
      var w := s[b..q + 1];
      forall k | 0 < k < |w| - 1
        ensures w[k] != Quote
      {
        assert w[k] == s[b + k];
        assert InRun(StringBody, s[b + k]);
      }
    } else {
      forall k | b < k < |s|
        ensures s[k] != Quote
      {
        assert InRun(StringBody, s[k]);
      }
    }
  }

  /** A byte that starts no token is the unknown-character error, and exactly that one byte is consumed. */
  lemma LexUnknown(s: seq<byte>, b: nat, line: nat)
    requires b < |s|
    ensures var r := LexAt(s, b, line); var ch := s[b];
      (r.token.tokenType == TokenError && r.token.value == UnknownCharacter <==>
        !IsAlpha(ch) && !IsDigit(ch) && ch != Quote && PunctuationType(ch).None? && !IsOperatorStart(ch))
    ensures var r := LexAt(s, b, line);
      r.token.tokenType == TokenError && r.token.value == UnknownCharacter ==> r.after.current == b + 1
  {
    assert |UnterminatedString| != |UnknownCharacter|;
    LexAtToken(s, b, line);
  }
}
