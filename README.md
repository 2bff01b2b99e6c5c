# ecompiler front end: line lexer and reduce-only parser

A Dafny model of the two front-end components of `ecompiler`, a toy compiler
written in Rust:

- **The line lexer** (`src/lexical.rs`, module `Lexical` in `lexical.dfy`).
  `read_line` walks a line character by character. It collects
  non-terminal characters in a `word` buffer and flushes the buffer at a space,
  at a terminal character and at the end of the line. `==` and `!=` merge into
  one token. Each flush looks the word up in the operator table; a word that is
  not there becomes `ILLEGAL`. `get_tokens` runs `read_line` over every line and
  ends each line with an `END_LINE` token.
- **The reduce-only parser** (`src/parser.rs`, module `Parser` in
  `parser.dfy`). `codegen` pushes each input token on a stack. After each push
  it repeatedly tries the top `min(len, 5)` down to 1 tokens. Their kind names,
  joined by spaces, form a key for the two-rule `INSTRUCTIONS` table. A
  matching window is replaced by one synthetic token, and the declaration is
  lowered. This repeats until no window matches.
- `wrappers.dfy` holds the `Option` type.

The source changes `&mut Vec<Token>` and `&mut String` buffers in place.
The model threads them through the methods by value: each method takes the
old buffer and returns the new one. `FlushToken`, `InsertEndLineToken`,
`ReadLine`, `GetTokens`, `ProcessIntDeclaration`, `ProcessBoolDeclaration`,
`CheckRules` and `Codegen` are imperative methods, with the loops of the
source. Each is proved equal to a specification function:

| method | specification function |
|---|---|
| `ReadLine` | `LexFrom`, one recursive call per loop iteration |
| `GetTokens` | `LexLines` |
| `CheckRules` | `RulePass` |
| `Codegen` | `Parse` / `Saturate` |

The lemmas then establish what the source promises about those functions.
The LLVM calls that lower a declaration are modelled as appending an
`ASTNode` to a log. The `expect` on a missing identifier value is modelled as
an outcome: `Step.Panic` for one pass and `Outcome.Panicked` for the whole
input, carrying the log so far.

Three behaviours of the code are modelled as written:

- **No identifiers, numbers, strings or keywords.** The lexer has none of
  these and never produces `IDENT`, `INT` or `BOOL`. Every word that is not in
  the operator table is `ILLEGAL`, and `value` is always `None`, `ILLEGAL`
  included (src/lexical.rs:107-117).
- **Columns come from an iteration counter.** The counter `i` counts loop
  iterations, not characters (src/lexical.rs:70). An iteration that consumes
  two characters, a merged `==`/`!=` or a buffered character with the one it
  drops, advances it by one. A token gets column `i + 1`, and a flushed word
  gets the counter of the iteration that flushes it, plus one; a word that
  runs to the end of the line is flushed after the loop, at the final counter
  (`WordAtEndLine`: `ab` is one ILLEGAL token at column 2). So `==` at the start of a line
  is at column 2 (`EqualLine`), the COLON of `== :` is at column 4, which is
  its 1-based position (`ColumnAfterMergeLine`), and in `a :` both the word
  and the COLON are at column 3 (`WordColumnLine`).
- **The fall-through branch drops a character.** It consumes and discards the
  character after a buffered one, so `a+b` is a single `ILLEGAL` word, and `+`
  is lost (`DroppedCharacterLine`). The dropped character can be the space
  that separates two words, so spacing changes what words yield: `a b` is one
  `ILLEGAL` token and `a  b` is two (`SpacingSplitsWords`). For table lexemes
  separated by at least one space, the amount of spacing does not change the
  kinds (`SpacingKeepsLexemeKinds`).

## Model

| member | source | states |
|---|---|---|
| Lexical.KindOf | src/lexical.rs:107-110 | the kind of a flushed word: its table entry, else ILLEGAL; stated by IllegalIffUnknown |
| Lexical.LexFrom | src/lexical.rs:66-99 | the tokens the loop of read_line appends from a given position, counter and buffer, then the final flush; one recursive call per iteration, following the four branches. ReadLine is proved equal to it, and its properties are the lemmas below |
| Lexical.LexLine | src/lexical.rs:57-100 | the tokens of one line read with an empty buffer, `LexFrom(line, 0, 0, "")` |
| Lexical.LexLines | src/lexical.rs:38-51 | the tokens of the whole source: line k, numbered k, then its END_LINE marker; GetTokens is proved equal to it |
| Lexical.IllegalIffUnknown | src/lexical.rs:107-110 | a word's kind is its table entry when it has one, and ILLEGAL exactly when it is not a lexeme of the table |
| Lexical.TerminalsHaveKinds | src/lexical.rs:133-174 | every terminal character is a one-character lexeme of the table, so it is never ILLEGAL |
| Lexical.WordsAreIllegal | src/lexical.rs:107-110 | a word that does not start with a terminal character is ILLEGAL |
| Lexical.Flushed | src/lexical.rs:103-117 | the tokens `flush_token` appends for a word: none for the empty word, else one token of the word's kind at column_number + 1; stated by FlushedShape, and FlushToken is proved to append it |
| Lexical.EndLineToken | src/lexical.rs:124-129 | the END_LINE marker of a line: kind END_LINE, no value, the line number and column 0; InsertEndLineToken appends it and EndLineMarkers states where it occurs |
| Lexical.FlushToken | src/lexical.rs:102-121 | the word is cleared; nothing is appended for an empty word, otherwise exactly the one token of `Flushed` |
| Lexical.FlushedShape | src/lexical.rs:102-121 | a flush yields one token exactly when the word is non-empty. That token has the word's kind, no value, the given line and column_number + 1 |
| Lexical.InsertEndLineToken | src/lexical.rs:123-131 | one END_LINE token with the line number and column 0 is appended, and the earlier tokens are unchanged |
| Lexical.ReadLine | src/lexical.rs:57-100 | the loop appends exactly `LexFrom(line, 0, 0, word)`, and the buffer is empty at the end of the line |
| Lexical.MergedOperator | src/lexical.rs:72-80 | `==` / `!=` flush the pending word, then give one EQUAL / DIFFERENT token, and both characters are consumed |
| Lexical.SingleTerminal | src/lexical.rs:88-92 | a terminal that starts no merged operator flushes the pending word, then gives exactly one token of its table kind |
| Lexical.SpaceFlushes | src/lexical.rs:83-86 | a space gives no token of its own; it only flushes the pending word |
| Lexical.OtherCharacterBuffered | src/lexical.rs:95-96 | any other character is appended to the word, the following character is consumed and dropped, and nothing is emitted |
| Lexical.LexFromShape | src/lexical.rs:66-99 | every token of a line is on that line, has no value and a lexer kind; columns never decrease and stay within counter + 1 .. counter + 1 + characters left |
| Lexical.LexFromLength | src/lexical.rs:66-99 | reading from a position gives at most the characters left, plus one for a pending word |
| Lexical.LexLineLength | src/lexical.rs:57-100 | a line never gives more tokens than it has characters |
| Lexical.BlankRest | src/lexical.rs:83-86 | a run of spaces with an empty buffer gives no tokens |
| Lexical.BlankLine | src/lexical.rs:57-100 | a line of spaces only, the empty line included, gives no tokens |
| Lexical.EqualLine | src/lexical.rs:72-80 | `==` is one EQUAL token at column 2, never two ASSIGN tokens |
| Lexical.DifferentLine | src/lexical.rs:72-80 | `!=` is one DIFFERENT token |
| Lexical.TripleEqualLine | src/lexical.rs:72-92 | `===` is EQUAL then ASSIGN: merging works from the left |
| Lexical.BangLine | src/lexical.rs:83-92 | `!` not followed by `=` is BANG, and the space after it only separates |
| Lexical.DroppedCharacterLine | src/lexical.rs:95-96 | in `a+b` the `+` is dropped and `ab` is one ILLEGAL token |
| Lexical.ColumnAfterMergeLine | src/lexical.rs:69-80 | the counter counts iterations: after `==` the COLON of `== :` gets column 4 |
| Lexical.WordColumnLine | src/lexical.rs:88-96 | a flushed word takes the counter of the iteration that flushes it, plus one: in `a :` both tokens get column 3 |
| Lexical.WordAtEndLine | src/lexical.rs:95-99 | a word that runs to the end of the line is flushed after the loop at the final counter: `ab` is one ILLEGAL token at column 2 |
| Lexical.SpacingSplitsWords | src/lexical.rs:83-96 | the dropped character can be a separating space: `a b` is one ILLEGAL token, `a  b` two |
| Lexical.LexFromAhead | src/lexical.rs:66-99 | the loop depends only on the characters ahead of its position: two lines that agree there are read alike |
| Lexical.LexFromShift | src/lexical.rs:66-99 | the loop reads only what lies ahead of its position: reading `pre + s` from \|pre\| + q is reading `s` from q |
| Lexical.SkipSpaces | src/lexical.rs:83-86 | leading spaces with an empty buffer emit nothing and advance the counter by one each |
| Lexical.LexemeStep | src/lexical.rs:72-92 | a table lexeme followed by nothing or a space yields exactly one token of its table kind |
| Lexical.SpacingKeepsLexemeKinds | src/lexical.rs:66-99 | a line of table lexemes separated by at least one space yields their table kinds, in order, whatever the spacing |
| Lexical.GetTokens | src/lexical.rs:32-54 | the per-line loop produces exactly `LexLines(lines)`: line k, numbered k, lexed with an empty buffer, then its END_LINE |
| Lexical.EndLineMarkers | src/lexical.rs:40-51 | the END_LINE tokens of the output are exactly one per line, the empty line included, numbered 1, 2, … in order, each with column 0 |
| Lexical.EndLineEndsItsLine | src/lexical.rs:40-51 | every token after an END_LINE lies on a later line, so each line's END_LINE is the last token of that line |
| Lexical.LastTokenIsEndLine | src/lexical.rs:49 | the last token of a non-empty source is the END_LINE of its last line |
| Lexical.LexLinesShape | src/lexical.rs:38-50 | every token is on a line in 1..number of lines and has no value and a lexer kind or END_LINE; line numbers never decrease along the list |
| Lexical.EmptyLineYieldsEndLine | src/lexical.rs:40-51 | an empty line adds exactly its END_LINE token |
| Parser.LookupTable | src/parser.rs:14-35 | the table has exactly the keys `IDENT COLON INT` and `IDENT COLON BOOL`; each rule's `tokens` is its key, it is final, and they make INT_DECLARATION and BOOL_DECLARATION |
| Parser.Lookup | src/parser.rs:109 | `INSTRUCTIONS.get(&key)`; its table is stated by LookupTable |
| Parser.Join | src/parser.rs:103-107 | the `join(" ")` of the kind names; SplitJoin proves it is inverted by splitting at spaces |
| Parser.Key | src/parser.rs:99-107 | the key of a window: its kind names, bottom to top, joined by single spaces; stated by KeyRoundTrip |
| Parser.SplitJoin | src/parser.rs:103-107 | the join is injective on space-free names: `Split`, its inverse (splitting at every space), gives the list back |
| Parser.KeyRoundTrip | src/parser.rs:99-107 | a window's key is its kind names, bottom to top, joined by single spaces: splitting it gives back one kind per token |
| Parser.RuleKeysAreJoins | src/parser.rs:17-32 | each rule key is the space-join of its three kind names |
| Parser.SplitRuleKeys | src/parser.rs:17-32 | each rule key splits into its three kind names |
| Parser.JoinedRuleKey | src/parser.rs:17-32 | the only lists of space-free kind names whose join is a rule key are the two rule patterns |
| Parser.CheckLen | src/parser.rs:94-96 | `min(stack.len(), MAX_RULE_LEN)`, the longest window a pass tries; WindowBound states that only the top five tokens are examined |
| Parser.Suffix | src/parser.rs:99-100 | the top `len` tokens, `&stack[start_idx..]` with start_idx = len(stack) - len; FindMatchIgnoresBase and WindowBound state that it depends only on the top of the stack, KeyRoundTrip that its key gives back its kinds |
| Parser.Handled | src/parser.rs:110-136 | the two makes the `match instruction.make` dispatches on; a rule with any other make is skipped, as the `_ => {}` arm does |
| Parser.Matches | src/parser.rs:109-136 | a window acts exactly when its key is in the table and its rule's make is handled; a rule with another make is passed over, as the `_ => {}` arm does. FindMatch and FindMatchLongest state the scan over it |
| Parser.MatchesIffKeyInTable | src/parser.rs:109-136 | every rule of the table has a handled make, so the `_ => {}` arm is never taken: a window matches exactly when its key is in the table |
| Parser.FindMatch | src/parser.rs:96-112 | a window length the scan returns lies between 1 and the bound and matches |
| Parser.FindMatchLongest | src/parser.rs:94-98 | the scan returns the longest matching window of at most the bound, and none exactly when no window of 1..bound matches |
| Parser.FindMatchIgnoresBase | src/parser.rs:94-98 | tokens below the examined windows do not change the scan |
| Parser.WindowBound | src/parser.rs:94-96 | on a stack of five or more tokens, only the top five are examined |
| Parser.SyntheticTopNotKey | src/parser.rs:17-32 | no key whose last kind is INT_DECLARATION or BOOL_DECLARATION is in the table |
| Parser.SyntheticTopNoMatch | src/parser.rs:171 | no window ending in a synthetic token matches |
| Parser.RulePass | src/parser.rs:91-143 | a pass that reduces never grows the stack; it was applied to a stack with a non-synthetic top and leaves a synthetic token on top |
| Parser.RulePassShape | src/parser.rs:91-143 | a pass reports no reduction exactly when no window matches. Otherwise it reduces the longest match, panicking exactly when the window's first token has no value |
| Parser.SyntheticToken | src/parser.rs:171 | the token a reduction pushes (line 171, and 196 for booleans): kind `make`, no value, line and column 0; ReductionReplacesSuffix states that it replaces the window |
| Parser.DeclarationNode | src/parser.rs:167 | the node lowered for a matched name, IntDeclaration for INT_DECLARATION (line 167) and BoolDeclaration for BOOL_DECLARATION (line 192); ProcessIntDeclaration, ProcessBoolDeclaration, DeclareInt and DeclareBool state which node each rule builds |
| Parser.Reduce | src/parser.rs:159-171 | the reduction at start_idx: a panic when the first matched token has no value, otherwise the prefix, one synthetic token and the declaration node; ProcessIntDeclaration and ProcessBoolDeclaration are proved equal to it, and ReductionReplacesSuffix states it |
| Parser.ReductionReplacesSuffix | src/parser.rs:159-171 | a reduction keeps `stack[..start_idx]`, puts one token of the rule's make at start_idx, shrinks the stack by L - 1 and lowers the declaration named by the window's first value |
| Parser.ReducedStack | src/parser.rs:159-171 | the reduced stack is the tokens below the window, then one token of the rule's make with no value, line 0 and column 0 |
| Parser.ProcessIntDeclaration | src/parser.rs:149-172 | a missing name panics; otherwise the suffix is replaced by one synthetic token and an integer declaration of the name is lowered |
| Parser.ProcessBoolDeclaration | src/parser.rs:174-197 | a missing name panics; otherwise the suffix is replaced by one synthetic token and a boolean declaration of the name is lowered |
| Parser.ReduceAgrees | src/parser.rs:109-138 | the pass that finds a window performs that window's reduction |
| Parser.ScanHit | src/parser.rs:109-138 | when the scan reaches a matching window, the pass reduces that window |
| Parser.ScanMiss | src/parser.rs:98-138 | a window that does not match passes the scan on to the next shorter one |
| Parser.CheckRules | src/parser.rs:91-143 | the `for len` scan computes exactly one pass, `RulePass`: no reduction, a panic, or the reduction of the longest match |
| Parser.Saturate | src/parser.rs:91-143 | the 'check_rules loop ends with a stack on which a pass reduces nothing, and the log only grows |
| Parser.Parse | src/parser.rs:88-143 | the whole input: each token pushed in order, then the stack saturated; a panic ends it. Codegen is proved equal to it |
| Parser.PanicIsFinal | src/parser.rs:162-165 | once a prefix of the input panics, the whole input panics with the same log |
| Parser.Codegen | src/parser.rs:85-143 | the driver computes `Parse(tokens)`: it panics exactly when `Parse` does, with its log; otherwise it ends with `Parse`'s stack, on which no window of length 1..min(len, 5) matches |
| Parser.MatchShape | src/parser.rs:17-32 | with space-free kinds, a matching window is three tokens long and spells IDENT COLON INT or IDENT COLON BOOL; its rule makes the corresponding declaration |
| Parser.MatchedWindowIsThree | src/parser.rs:17-32 | when no kind name holds a space, the window a pass acts on has length three |
| Parser.ReductionShrinksByTwo | src/parser.rs:17-32 | with space-free kinds, every reduction shrinks the stack by two. An INT window lowers an integer declaration and a BOOL window a boolean one, named by the value of the IDENT |
| Parser.ReductionKeepsSpaceFree | src/parser.rs:171 | a reduction keeps every kind name space-free |
| Parser.AtMostOneReduction | src/parser.rs:140-142 | after a reduction the next pass matches nothing, so each pushed token triggers at most one reduction and the loop ends |
| Parser.SaturateIdempotent | src/parser.rs:140-142 | a pass with no match leaves the stack unchanged, and re-running the loop on its own result changes nothing |
| Parser.SaturateConserves | src/parser.rs:91-143 | with space-free kinds, the loop keeps (stack length + 2 × declarations) constant |
| Parser.ParseConserves | src/parser.rs:88-89 | every input token is consumed once: final stack length + 2 × lowered declarations = number of input tokens |
| Parser.NamedPassNeverPanics | src/parser.rs:162-165 | when no kind name holds a space, a pass over a stack whose IDENT tokens all carry a value never panics, and keeps them named and the kinds space-free |
| Parser.NamedSaturateNeverPanics | src/parser.rs:162-165 | when no kind name holds a space, the loop over a stack whose IDENT tokens all carry a value never panics |
| Parser.NamedIdentsNeverPanic | src/parser.rs:161-165 | when every IDENT token carries its name, the `expect` never fires on the whole input |
| Parser.TopRunMatches | src/parser.rs:17-32 | three top tokens IDENT COLON INT/BOOL match as a window of three |
| Parser.PassActsIffTopRun | src/parser.rs:91-143 | with space-free kinds, a pass acts exactly when the top three tokens are IDENT COLON INT or IDENT COLON BOOL |
| Parser.PatternFreeInputStays | src/parser.rs:88-89 | an input with no such run of three is never reduced: every token stays on the stack in input order and nothing is lowered |
| Parser.TwoTokensStay | src/parser.rs:91-143 | two tokens whose kind names hold no space never reduce |
| Parser.RuleRunPass | src/parser.rs:109-138 | the pass over IDENT COLON INT/BOOL reduces all three tokens to one synthetic token, or panics when the IDENT has no value |
| Parser.DeclarationStep | src/parser.rs:88-143 | IDENT COLON INT/BOOL fed one at a time reduces only on the third token, or panics on a missing name with nothing lowered |
| Parser.DeclareInt | src/parser.rs:149-172 | IDENT(x) COLON INT leaves one INT_DECLARATION token and lowers exactly one integer declaration of x |
| Parser.DeclareBool | src/parser.rs:174-197 | IDENT(x) COLON BOOL leaves one BOOL_DECLARATION token and lowers exactly one boolean declaration of x |
| Parser.MissingNamePanics | src/parser.rs:162-165 | an IDENT without a value panics before anything is lowered |

## Left out

- Reading lines from the file (`BufReader::lines`), the error message and `process::exit` on a read error, and `write_tokens_to_file`. `GetTokens` takes the lines as a `seq<string>` and returns the token list.
- All of `src/main.rs`: a hard-coded LLVM demo with no logic of its own. It does not feed the lexer's output to the parser, so the model does not compose them either.
- The LLVM set-up and emission (`ASTNode::codegen`, context, module, builder, `print_to_stderr`): foreign library calls, replaced by the `ASTNode` log.
- The `lazy_static`, `HashMap` and `HashSet` mechanics: the tables are constant Dafny maps and sets.
- The `tokens.drain(..)` of the input vector: `Codegen` reads its input sequence in order and does not empty it.
- The widths of `i32` line and column numbers and of the `usize` counter: the model uses unbounded integers, because wrapping needs more than 2^31 lines or characters.
- `is_final` of a rule: it is stored in the table (`LookupTable`) but the source never reads it.
- The lemmas below are proved only when no kind name contains a space. With a space inside a kind name, two different windows could join to the same key. Every kind in the lexer and rule tables is space-free.
- MatchShape: proved only for kind names without spaces.
- MatchedWindowIsThree: proved only for kind names without spaces.
- ReductionShrinksByTwo: proved only for kind names without spaces.
- SaturateConserves: proved only for kind names without spaces.
- ParseConserves: proved only for kind names without spaces.
- NamedPassNeverPanics: proved only for kind names without spaces.
- NamedSaturateNeverPanics: proved only for kind names without spaces.
- NamedIdentsNeverPanic: proved only for kind names without spaces.
- PassActsIffTopRun: proved only for kind names without spaces.
- PatternFreeInputStays: proved only for kind names without spaces.
- TwoTokensStay: proved only for kind names without spaces.
