# A verified model of the bytecode chunk and the scanner of a small Rust VM

The repository is the start of a stack-based bytecode virtual machine for a
toy scripting language, written in Rust. Two parts of it carry logic:

- **The bytecode chunk** (`src/lib.rs`). It has a closed set of seven opcodes
  with a one-byte encoding and a partial decoder. A `Chunk` holds the
  instruction bytes, a line number for every byte, and a constant pool. A
  disassembler walks the bytes one instruction at a time: `OpConstant`
  takes two bytes and every other byte takes one, including bytes that are
  not opcodes. The virtual machine itself is only a struct of fields.
- **The scanner** (`src/scanners.rs`). It is a byte-level lexer with three
  cursors: `start`, `current` and `line`. Each call of `scan_token` does two
  things. It skips whitespace and `//` comments, counting newlines. Then it
  classifies one token: punctuation, a one- or two-byte operator, a number
  with an optional fraction, a string literal, an identifier or one of 16
  keywords, end of input, or an error.

The Dafny project has four modules, one file each:

- `common.dfy`, module `Common`: the `byte` type (Rust `u8`, the integers
  0..255) and `Option`.
- `chunk.dfy`, module `Chunks`: `OpCode` and its encoding, and the
  disassembler as a pure function per instruction (`DisassembleInstruction`).
  It also holds:
  - the `Chunk` class, with `seq` fields that its methods append to;
  - `Disassemble`, a `while` loop proved to produce the reference walk
    `Listing`;
  - the `VirtualMachine` class, which has only the fields;
  - two examples that replay the unit tests `chunk_write_and_constants_basics`
    and `disassemble_instruction_offsets_and_unknown`. The third test,
    `opcode_mappings_roundtrip`, is covered for every opcode and every byte by
    the lemma `EncodingRoundTrip` instead of an example.
- `lexspec.dfy`, module `LexSpec`: a pure reference definition of one
  scanning step. `Lex` says which token one call of `scan_token` returns and
  where the cursors end up. `LexAt` does the same once the whitespace has
  been skipped. Each kind of lexeme ends at a position given by its own
  function: `ScanWhile` for a run of bytes, `NumberEnd` for a number,
  `SkipTrivia` for whitespace and comments. `KeywordType` classifies an
  identifier. The lemmas state what the source promises about these
  functions: lexeme shapes, keyword classification, line counting, progress,
  the error cases, and that end of input is stable.
- `scanner.dfy`, module `Scanners`: the `Scanner` class. Its methods move
  the cursors one byte at a time with the source's loops. The primitives
  (`Peek`, `PeekNext`, `Advance`, `SkipNextCharacter`, `MatchNext`,
  `MakeToken`, `ErrorToken`) state their effect on the fields directly. The
  methods that perform a scanning step are each proved against the `LexSpec`
  function for that step: `SkipWhitespaceAndComments`, `SkipCommentBody`,
  `GetLiteralString`, `GetLiteralNumber`, `GetIdentifier`, `ScanLexeme`,
  `ScanSymbol`, `ScanOperator` and `ScanToken`. `ScanToken` is proved to
  return exactly what `Lex` gives.

`src/lib.rs` has seven opcodes, so every byte from 0x07 up decodes to
`None`, and `VirtualMachine` is only a struct.

## Model

| member | source | states |
|---|---|---|
| Chunks.OpcodeToU8 | src/lib.rs:17-27 | every opcode is encoded as its position in declaration order, so the bytes are 0x00..0x06 |
| Chunks.U8ToOpcode | src/lib.rs:30-41 | a byte below 7 decodes to the opcode at that position; every other byte decodes to `None` |
| Chunks.EncodingRoundTrip | src/lib.rs:200-217 | decoding an opcode's byte gives back the opcode; a byte decodes to `op` exactly when it is `op`'s encoding; a byte decodes to `None` exactly when it is above 0x06 |
| Chunks.DisassembleInstruction | src/lib.rs:80-131 | needs the offset to be inside the code. The next offset is `offset + 2` for `OpConstant` and `offset + 1` for every other byte, unknown ones included. A missing line is 0. A missing operand is index 0. An index past the pool has no value, and any other index has the pool entry. An unknown byte is reported as itself |
| Chunks.ListingIsWalk | src/lib.rs:73-79 | from any offset, the walk starts at that offset. Its offsets strictly increase and stay inside the code. Each entry is the decoding at its offset, each next offset is the following entry's offset, and the last one steps past the end. There are at most as many entries as there are code bytes from the start offset on, so the walk terminates |
| Chunks.Chunk.InitChunk | src/lib.rs:51-58 | a new chunk has empty code, lines and pool |
| Chunks.Chunk.WriteToChunk | src/lib.rs:60-63 | appends exactly `b` to `code` and `line` to `lines`, keeps code and lines the same length, and leaves the pool unchanged |
| Chunks.Chunk.AddConstant | src/lib.rs:65-68 | appends `value` to the pool and returns the old pool length cast to `u8` (modulo 256). Below 256 entries, that index addresses the new value. Code and lines are unchanged |
| Chunks.Chunk.Disassemble | src/lib.rs:73-79 | the loop produces exactly the reference walk from offset 0. That walk is well formed and has no more entries than there are code bytes |
| Chunks.VirtualMachine.Init | src/lib.rs:134-138 | the machine's state: no chunk, `ip` 0, an empty stack |
| Chunks.ChunkBasicsExample | src/lib.rs:221-253 | two constants get indices 0 and 1 and hold 15 and 42; the five writes leave lines `[10, 10, 11, 11, 12]` and bytes as asserted by the unit test |
| Chunks.DisassembleOffsetsExample | src/lib.rs:256-295 | for `[Const, 0, Const, 1, Add, 0xFF, Return]` the offsets go 0, 2, 4, 5, 6, 7, and the lines are `[1, 1, 2, 2, 3, 4, 5]` |
| LexSpec.IsDigit | src/scanners.rs:52 | the ASCII digits `0`..`9` (bytes 48..57); no other byte, and nothing outside ASCII |
| LexSpec.IsAlpha | src/scanners.rs:55 | the ASCII letters `a`..`z` and `A`..`Z`, and `_`; no other byte |
| LexSpec.Newlines | src/scanners.rs:103 | the number of newline bytes in a slice, which is at most its length |
| LexSpec.ScanWhile | src/scanners.rs:159-161 | where a `while` loop over a run of bytes stops: at the end of the input or at the first byte that does not continue the run |
| LexSpec.ScanWhileRun | src/scanners.rs:159-161 | every byte that `ScanWhile` passes continues the run, so the run it finds is the longest |
| LexSpec.SkipTrivia | src/scanners.rs:99-110 | skipping whitespace and comments moves forward, stays in the input, and stops at a byte that is neither whitespace nor the start of `//` |
| LexSpec.SkipTriviaStop | src/scanners.rs:107 | at a byte that is neither whitespace nor a comment start, skipping stays where it is |
| LexSpec.SkipWhitespaceByte | src/scanners.rs:102-103 | passing one whitespace byte keeps the place where skipping stops, and counts a line exactly when the byte is a newline |
| LexSpec.SkipCommentRun | src/scanners.rs:104-106 | a `//` comment takes at least one byte, ends just before the next newline or at the end of the input, keeps the place where skipping stops, and counts no line |
| LexSpec.NumberEnd | src/scanners.rs:149-156 | a number ends at the end of the input or at a byte that is not a digit |
| LexSpec.NumberEndShape | src/scanners.rs:150-154 | a number is a run of digits. It continues past the run only when a `.` is followed by a digit, and then with digits alone; otherwise the `.` is not consumed |
| LexSpec.KeywordFrom | src/scanners.rs:163-181 | the arms of the keyword `match` tried in order give a reserved word's kind or `TokenIdentifier` |
| LexSpec.KeywordType | src/scanners.rs:163-181 | an identifier lexeme is classified as a reserved word's kind or as `TokenIdentifier` |
| LexSpec.KeywordFromSpells | src/scanners.rs:163-180 | a keyword the search finds is one that the lexeme spells |
| LexSpec.SpellingsDistinct | src/scanners.rs:164-179 | no two of the 16 reserved words are spelled alike |
| LexSpec.KeywordFromFinds | src/scanners.rs:163-180 | searching from any earlier arm, a reserved word's spelling finds that reserved word |
| LexSpec.KeywordRoundTrip | src/scanners.rs:163-180 | every reserved word is classified as its own kind |
| LexSpec.KeywordTypeIs | src/scanners.rs:163-180 | a lexeme gets reserved word `t`'s kind exactly when it spells `t` |
| LexSpec.KeywordTypeClassifies | src/scanners.rs:163-181 | for every one of the 16 reserved words, a lexeme gets its kind exactly when it spells it. A lexeme is `TokenIdentifier` exactly when it spells none of them |
| LexSpec.PunctuationType | src/scanners.rs:199-210 | the eleven one-byte punctuation tokens; none of them is an error, end of input or an identifier |
| LexSpec.OperatorType | src/scanners.rs:212-227 | `!`, `=`, `<` and `>` each give their one- or two-byte operator kind, which is never an error, end of input or an identifier |
| LexSpec.LexAt | src/scanners.rs:193-230 | classifying the lexeme that starts at `b` consumes at least one byte and stays in the input. The line only grows, and the token carries the final line |
| LexSpec.LexAtIdentifier | src/scanners.rs:195 | unfolds the identifier branch of `LexAt`: a lexeme that starts with a letter or `_` runs to the end of the identifier bytes, and its kind is the keyword classification of its bytes |
| LexSpec.LexAtNumber | src/scanners.rs:196 | unfolds the number branch of `LexAt`: a lexeme that starts with a digit runs to `NumberEnd` and is a `TokenNumber` |
| LexSpec.LexAtString | src/scanners.rs:197 | unfolds the string branch of `LexAt`: a lexeme that starts with `"` runs to the next quote. Without one it is the unterminated-string error at the end of the input; with one it includes both quotes. Either way the line grows by the newlines inside |
| LexSpec.LexAtPunctuation | src/scanners.rs:199-210 | unfolds the punctuation branch of `LexAt`: a punctuation byte is a one-byte token of its kind |
| LexSpec.LexAtOperator | src/scanners.rs:212-227 | unfolds the operator branch of `LexAt`: `!`, `=`, `<` and `>` form the two-byte operator exactly when the next byte is `=`, and the one-byte operator otherwise |
| LexSpec.LexAtUnknown | src/scanners.rs:229 | unfolds the last branch of `LexAt`: any other byte is the unknown-character error, and consumes exactly one byte |
| LexSpec.LexAtToken | src/scanners.rs:120-135 | a lexeme is never end of input. A token other than an error carries exactly the bytes it consumed. An error is either the unterminated string, which consumes the rest of the input, or the unknown character, which consumes one byte |
| LexSpec.Lex | src/scanners.rs:185-191 | a scanning step starts its lexeme where skipping whitespace and comments stops, never moves a cursor back, stays in the input, and never decreases the line |
| LexSpec.LexAtEnd | src/scanners.rs:189-191 | when only whitespace and comments remain, the step returns `TokenEof` with no bytes, all the remaining lines counted, and both cursors at the end |
| LexSpec.LexBeforeEnd | src/scanners.rs:186-197 | unfolds `Lex` when input is left: the step classifies the lexeme that starts after the whitespace and comments |
| LexSpec.LexToken | src/scanners.rs:185-231 | the step returns `TokenEof` exactly when nothing but whitespace and comments is left, and then with no bytes. Every other step strictly advances `current`. A token other than an error carries `source[start..current]`. An error is one of the scanner's two messages |
| LexSpec.LexAtCountsLines | src/scanners.rs:137-147 | for a lexeme that does not start at a newline, the line after `LexAt` is the line before it plus the number of newlines among the consumed bytes |
| LexSpec.LexCountsLines | src/scanners.rs:99-110 | after a whole scanning step, the line grows by exactly the number of newline bytes between the old and the new read position |
| LexSpec.LexEofIsStable | src/scanners.rs:189-191 | after end of input, scanning again returns the same `TokenEof` and leaves the cursors as they were |
| LexSpec.LexIdentifier | src/scanners.rs:158-162 | an identifier lexeme is non-empty and made of letters, digits and `_`. It is not followed by another such byte, and its kind is its keyword classification |
| LexSpec.LexNumber | src/scanners.rs:149-156 | a number lexeme is all digits, or digits `.` digits with at least one digit on each side. It is never followed by a digit. An all-digit lexeme is not followed by a `.` and a digit, so a trailing `.` stays unconsumed |
| LexSpec.LexString | src/scanners.rs:137-147 | a string is the unterminated-string error exactly when no closing quote follows, and then it consumes the rest of the input. Otherwise the lexeme starts and ends with a quote and has none in between |
| LexSpec.LexUnknown | src/scanners.rs:229 | the token is the unknown-character error exactly when the first byte starts no other token, and it then consumes exactly one byte |
| Scanners.Scanner.InitScanner | src/scanners.rs:58-65 | a new scanner holds the source bytes, with both cursors at 0 and the line at 1 |
| Scanners.Scanner.IsAtEnd | src/scanners.rs:68-70 | `current` has reached or passed the end of the source |
| Scanners.Scanner.Peek | src/scanners.rs:74-76 | the byte at `current`, or 0 at the end |
| Scanners.Scanner.PeekNext | src/scanners.rs:80-82 | the byte after `current`, or 0 when `current + 1` is not inside the source |
| Scanners.Scanner.Advance | src/scanners.rs:86-90 | returns what `Peek` gave and moves `current` forward by one |
| Scanners.Scanner.SkipNextCharacter | src/scanners.rs:94-96 | moves `current` forward by one unless it is at the end |
| Scanners.Scanner.SkipWhitespaceAndComments | src/scanners.rs:99-110 | stops where `SkipTrivia` says and adds to `line` exactly the newlines it passed; the cursors stay ordered |
| Scanners.Scanner.SkipCommentBody | src/scanners.rs:105 | moves to the next newline, which it does not consume, or to the end of the input |
| Scanners.Scanner.MatchNext | src/scanners.rs:113-118 | consumes one byte and returns true exactly when it is not at the end and the byte is `expected`; otherwise nothing moves |
| Scanners.Scanner.MakeToken | src/scanners.rs:120-127 | a token of the given kind whose bytes are `source[start..current]`, on the current line |
| Scanners.Scanner.ErrorToken | src/scanners.rs:129-135 | an error token whose bytes are the message, on the current line |
| Scanners.Scanner.GetLiteralString | src/scanners.rs:137-147 | counts the newlines up to the closing quote. At the end of the input it returns the unterminated-string error; otherwise it consumes the quote and returns the string with both quotes |
| Scanners.Scanner.GetLiteralNumber | src/scanners.rs:149-156 | moves `current` to `NumberEnd` and returns the number token for `source[start..current]` |
| Scanners.Scanner.GetIdentifier | src/scanners.rs:158-183 | moves `current` past the identifier bytes and returns the token whose kind is the keyword classification of `source[start..current]` |
| Scanners.Scanner.ScanLexeme | src/scanners.rs:193-197 | consumes the first byte and dispatches. The token and cursors are those of `LexAt` |
| Scanners.Scanner.ScanSymbol | src/scanners.rs:199-229 | the punctuation, operator and unknown-character arms. The token and cursors are those of `LexAt` |
| Scanners.Scanner.ScanOperator | src/scanners.rs:212-227 | the four operator arms with `match_next('=')`. The token and cursors are those of `LexAt` |
| Scanners.Scanner.ScanToken | src/scanners.rs:185-231 | keeps `start` at or before `current` and `current` inside the source, and returns the token and leaves the cursors exactly as `Lex` gives them from the old cursors |

## Left out

- Text output: `disassemble` prints a header and `disassemble_instruction`
  prints one formatted line per instruction (src/lib.rs:74, src/lib.rs:89-129).
  The model returns the decoded instruction, its line and its next offset
  instead. The `name` parameter of `Disassemble` is used only in the header,
  so it does not appear in any contract.
- The commented-out code at src/lib.rs:140-193 is dead and is not modelled.
- There is no interpreter, execution loop, `Modulo` opcode or run result in
  the code. These are not modelled.
- Chunks.VirtualMachine.Init: the source declares only the struct
  (src/lib.rs:134-138) and no constructor. This constructor fixes the
  initial shape a machine would have: no chunk, `ip` 0 and an empty stack.
- `src/main.rs` is a demo driver that prints. It calls a `dump` method that
  the chunk does not have, so it is not part of this model.
- Scanners.Scanner.InitScanner: takes the source's bytes. The `&str` to
  bytes conversion (`as_bytes`) is not modelled.
- Scanners.Scanner.GetIdentifier: the `str::from_utf8` conversion before the
  keyword `match` is not modelled. Identifier lexemes are ASCII, so keyword
  matching is written as equality of byte sequences.
- Scanners.Scanner.Advance: `saturating_add(1)` is modelled as `+ 1`. All
  `usize` cursors and the line are unbounded naturals, and `current` never
  comes near `usize::MAX`.
- The error messages "Unterminated String Literal" and "Unknown character."
  are written as their ASCII bytes.
- `ScanLexeme`, `ScanSymbol` and `ScanOperator` are parts of `scan_token`,
  and `SkipCommentBody` is the inner loop of
  `skip_whitespace_and_comments`. They are split out as methods of their own
  and are called in exactly the places where the source has that code.
  `ScanOperator` calls `match_next('=')` once before choosing among the four
  operators, whereas the source calls it in each arm. Exactly one arm runs,
  so the effect is the same.
- There are no scanner-level loops over a whole input, for example a loop
  collecting every token, and the source has none.
