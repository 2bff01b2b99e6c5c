/**
 * The line lexer of src/lexical.rs: `read_line` walks one line character by
 * character, accumulating non-terminal characters in a `word` buffer and
 * flushing it through a fixed operator table; `get_tokens` runs it once per
 * line and ends every line with an END_LINE marker.
 *
 * The mutable buffers of the source (`tokens: &mut Vec<Token>` and
 * `word: &mut String`) are threaded through the methods: each method takes
 * the old buffers and returns the new ones.
 */
module Lexical {
  import opened Wrappers

  /** A token: kind name, optional payload, line number and column. */
  datatype Token = Token(kind: string, value: Option<string>, line: int, column: int)

  const Illegal: string := "ILLEGAL"
  const EndLine: string := "END_LINE"

  /** `initialize_tokens_hashmap`: the lexeme to kind-name table. */
  const TokensTable: map<string, string> := map[
    ":" := "COLON", "=" := "ASSIGN",
    "+" := "PLUS", "-" := "MINUS", "*" := "ASTERISK", "/" := "DIVIDE", "!" := "BANG",
    "==" := "EQUAL", "!=" := "DIFFERENT",
    "(" := "LPAREN", ")" := "RPAREN", "{" := "LBRACE", "}" := "RBRACE"
  ]

  /** `initialize_terminal_characters`: the characters that always end a word. */
  const TerminalCharacters: set<char> := {':', '=', '+', '-', '*', '/', '!', '(', ')', '{', '}'}

  /** The kind `flush_token` gives a word: its table entry, or ILLEGAL. */
  function KindOf(word: string): string {
    if word in TokensTable then TokensTable[word] else Illegal
  }

  /** No table entry is ILLEGAL: a word is ILLEGAL exactly when it is not a lexeme of the table. */
  lemma {:induction false} IllegalIffUnknown(word: string)
    ensures word in TokensTable ==> KindOf(word) == TokensTable[word]
    ensures KindOf(word) == Illegal <==> word !in TokensTable
  {
  }

  /** Every terminal character is a lexeme of the table, so it is never ILLEGAL. */
  lemma {:induction false} TerminalsHaveKinds()
    ensures forall c :: c in TerminalCharacters ==> [c] in TokensTable && KindOf([c]) != Illegal
  {
  }

  /**
   * A word whose first character is not terminal is never in the table: every
   * lexeme of the table starts with a terminal character.
   */
  lemma {:induction false} WordsAreIllegal(word: string)
    requires |word| > 0 && word[0] !in TerminalCharacters
    ensures KindOf(word) == Illegal
  {
  }

  /** The kinds the line lexer can give a token. */
  predicate LexerKind(kind: string) {
    kind == Illegal || kind in TokensTable.Values
  }

  /** The tokens `flush_token` appends for `word`: none when empty, else one. */
  function Flushed(word: string, lineNumber: int, columnNumber: nat): seq<Token> {
    if word == "" then [] else [Token(KindOf(word), None, lineNumber, columnNumber + 1)]
  }

  /** `flush_token`: turns a pending word into a token and clears the word. */
  method FlushToken(word: string, tokens: seq<Token>, lineNumber: int, columnNumber: nat)
    returns (word': string, tokens': seq<Token>)
    ensures word' == ""
    ensures tokens' == tokens + Flushed(word, lineNumber, columnNumber)
  {
    if word == "" {
      return word, tokens;
    }
    var token := if word in TokensTable then TokensTable[word] else Illegal;
    var newToken := Token(token, None, lineNumber, columnNumber + 1);
    tokens' := tokens + [newToken];
    word' := "";
  }

  /** The END_LINE marker of line `lineNumber`. */
  function EndLineToken(lineNumber: int): Token {
    Token(EndLine, None, lineNumber, 0)
  }

  /** `insert_end_line_token`: appends the END_LINE marker of a line. */
  method InsertEndLineToken(tokens: seq<Token>, lineNumber: int) returns (tokens': seq<Token>)
    ensures |tokens'| == |tokens| + 1 && tokens'[..|tokens|] == tokens
    ensures tokens'[|tokens|] == EndLineToken(lineNumber)
  {
    var newToken := Token(EndLine, None, lineNumber, 0);
    tokens' := tokens + [newToken];
  }

  /**
   * The tokens the loop of `read_line` appends from the state where the
   * iterator stands at index `p` of `line`, the counter is `i` and the buffer
   * holds `word`, followed by the final flush. One recursive call per loop
   * iteration; the iteration increments the counter once, whatever number of
   * characters it consumes.
   */
  function LexFrom(line: string, p: nat, i: nat, word: string, lineNumber: int): seq<Token>
    requires p <= |line|
    decreases |line| - p
  {
    if p == |line| then
      Flushed(word, lineNumber, i)
    else
      var c := line[p];
      var col := i + 1;
      if (c == '!' || c == '=') && p + 1 < |line| && line[p + 1] == '=' then
        Flushed(word, lineNumber, col) + Flushed([c, '='], lineNumber, col)
          + LexFrom(line, p + 2, col, "", lineNumber)
      else if c == ' ' then
        Flushed(word, lineNumber, col) + LexFrom(line, p + 1, col, "", lineNumber)
      else if c in TerminalCharacters then
        Flushed(word, lineNumber, col) + Flushed([c], lineNumber, col)
          + LexFrom(line, p + 1, col, "", lineNumber)
      else
        // the next character is consumed and dropped before `c` is buffered
        LexFrom(line, if p + 2 <= |line| then p + 2 else |line|, col, word + [c], lineNumber)
  }

  /** The tokens of one line, read with an empty buffer. */
  function LexLine(line: string, lineNumber: int): seq<Token> {
    LexFrom(line, 0, 0, "", lineNumber)
  }

  /** `read_line`: appends the tokens of `line` and leaves the buffer empty. */
  method ReadLine(line: string, tokens: seq<Token>, word: string, lineNumber: int)
    returns (tokens': seq<Token>, word': string)
    ensures tokens' == tokens + LexFrom(line, 0, 0, word, lineNumber)
    ensures word' == ""
  {
    tokens', word' := tokens, word;
    var p: nat := 0;
    var i: nat := 0;
    while p < |line|
      invariant p <= |line|
      invariant tokens' + LexFrom(line, p, i, word', lineNumber) == tokens + LexFrom(line, 0, 0, word, lineNumber)
      decreases |line| - p
    {
      ghost var (p0, i0, w0, t0) := (p, i, word', tokens');
      var c := line[p];
      p, i := p + 1, i + 1;
      if (c == '!' || c == '=') && p < |line| && line[p] == '=' {
        word', tokens' := FlushToken(word', tokens', lineNumber, i);
        word' := word' + [c];
        word' := word' + ['='];
        assert word' == [c, '='];
        word', tokens' := FlushToken(word', tokens', lineNumber, i);
        p := p + 1;
        assert tokens' == t0 + Flushed(w0, lineNumber, i) + Flushed([c, '='], lineNumber, i);
      } else if c == ' ' {
        word', tokens' := FlushToken(word', tokens', lineNumber, i);
      } else if c in TerminalCharacters {
        word', tokens' := FlushToken(word', tokens', lineNumber, i);
        word' := word' + [c];
        assert word' == [c];
        word', tokens' := FlushToken(word', tokens', lineNumber, i);
        assert tokens' == t0 + Flushed(w0, lineNumber, i) + Flushed([c], lineNumber, i);
      } else {
        if p < |line| {
          p := p + 1;
        }
        word' := word' + [c];
      }
    }
    word', tokens' := FlushToken(word', tokens', lineNumber, i);
  }

  /** The tokens of `lines` as `get_tokens` lists them: line k is numbered k. */
  function LexLines(lines: seq<string>): seq<Token>
    decreases |lines|
  {
    if lines == [] then []
    else
      var n := |lines|;
      LexLines(lines[..n - 1]) + LexLine(lines[n - 1], n) + [EndLineToken(n)]
  }

  /** The per-line driver loop of `get_tokens`, without the reader and the writer. */
  method GetTokens(lines: seq<string>) returns (tokens: seq<Token>)
    ensures tokens == LexLines(lines)
  {
    tokens := [];
    var word: string := "";
    var lineNumber: int := 1;
    var k := 0;
    while k < |lines|
      invariant 0 <= k <= |lines|
      invariant lineNumber == k + 1
      invariant word == ""
      invariant tokens == LexLines(lines[..k])
    {
      tokens, word := ReadLine(lines[k], tokens, word, lineNumber);
      tokens := InsertEndLineToken(tokens, lineNumber);
      assert lines[..k + 1][..k] == lines[..k];
      lineNumber := lineNumber + 1;
      k := k + 1;
    }
    assert lines[..k] == lines;
  }

  // ---------------------------------------------------------------------------
  // Properties of one iteration of the `read_line` loop

  /**
   * `==` and `!=` flush the pending word, then become one EQUAL or DIFFERENT
   * token, and both characters are consumed.
   */
  lemma {:induction false} MergedOperator(line: string, p: nat, i: nat, word: string, lineNumber: int)
    requires p + 1 < |line| && line[p] in {'=', '!'} && line[p + 1] == '='
    ensures LexFrom(line, p, i, word, lineNumber)
         == Flushed(word, lineNumber, i + 1)
            + [Token(if line[p] == '=' then "EQUAL" else "DIFFERENT", None, lineNumber, i + 2)]
            + LexFrom(line, p + 2, i + 1, "", lineNumber)
  {
  }

  /**
   * A terminal character that does not start `==` or `!=` flushes the pending
   * word, then yields exactly one token of its table kind.
   */
  lemma {:induction false} SingleTerminal(line: string, p: nat, i: nat, word: string, lineNumber: int)
    requires p < |line| && line[p] in TerminalCharacters
    requires !(line[p] in {'=', '!'} && p + 1 < |line| && line[p + 1] == '=')
    ensures LexFrom(line, p, i, word, lineNumber)
         == Flushed(word, lineNumber, i + 1)
            + [Token(TokensTable[[line[p]]], None, lineNumber, i + 2)]
            + LexFrom(line, p + 1, i + 1, "", lineNumber)
  {
  }

  /** A space yields no token of its own: it only flushes the pending word. */
  lemma {:induction false} SpaceFlushes(line: string, p: nat, i: nat, word: string, lineNumber: int)
    requires p < |line| && line[p] == ' '
    ensures LexFrom(line, p, i, word, lineNumber)
         == Flushed(word, lineNumber, i + 1) + LexFrom(line, p + 1, i + 1, "", lineNumber)
  {
  }

  /**
   * Any other character is buffered, the character after it is dropped, and
   * nothing is emitted in that iteration.
   */
  lemma {:induction false} OtherCharacterBuffered(line: string, p: nat, i: nat, word: string, lineNumber: int)
    requires p < |line| && line[p] != ' ' && line[p] !in TerminalCharacters
    ensures LexFrom(line, p, i, word, lineNumber)
         == LexFrom(line, if p + 2 <= |line| then p + 2 else |line|, i + 1, word + [line[p]], lineNumber)
  {
  }

  // ---------------------------------------------------------------------------
  // Properties of whole lines

  /** The tokens of `ts` are on line `n`, carry no value and have a lexer kind. */
  ghost predicate OnLine(ts: seq<Token>, n: int) {
    forall t :: t in ts ==> t.line == n && t.value.None? && LexerKind(t.kind)
  }

  /** Every column in `ts` lies in `lo..hi`. */
  ghost predicate ColumnsWithin(ts: seq<Token>, lo: int, hi: int) {
    forall t :: t in ts ==> lo <= t.column <= hi
  }

  /** Columns never decrease along `ts`. */
  ghost predicate ColumnsSorted(ts: seq<Token>) {
    forall j, k :: 0 <= j < k < |ts| ==> ts[j].column <= ts[k].column
  }

  lemma {:induction false} SortedConcat(a: seq<Token>, b: seq<Token>, m: int)
    requires ColumnsSorted(a) && ColumnsSorted(b)
    requires forall t :: t in a ==> t.column <= m
    requires forall t :: t in b ==> m <= t.column
    ensures ColumnsSorted(a + b)
  {
    forall j, k | 0 <= j < k < |a + b|
      ensures (a + b)[j].column <= (a + b)[k].column
    {
      if k < |a| {
        assert (a + b)[j] == a[j] && (a + b)[k] == a[k];
      } else if j >= |a| {
        assert (a + b)[j] == b[j - |a|] && (a + b)[k] == b[k - |a|];
      } else {
        assert (a + b)[j] == a[j] && a[j] in a;
        assert (a + b)[k] == b[k - |a|] && b[k - |a|] in b;
      }
    }
  }

  lemma {:induction false} FlushedShape(word: string, lineNumber: int, columnNumber: nat)
    ensures |Flushed(word, lineNumber, columnNumber)| <= 1
    ensures |Flushed(word, lineNumber, columnNumber)| == 1 <==> word != ""
    ensures OnLine(Flushed(word, lineNumber, columnNumber), lineNumber)
    ensures forall t :: t in Flushed(word, lineNumber, columnNumber) ==> t.column == columnNumber + 1
    ensures word != "" ==> Flushed(word, lineNumber, columnNumber)[0].kind == KindOf(word)
  {
    if word != "" {
      var kind := KindOf(word);
      assert kind == Illegal || kind in TokensTable.Values;
    }
  }

  /**
   * Every token read from position `p` with counter `i` is on the given line,
   * has no value and a lexer kind, and the columns are non-decreasing and lie
   * between i + 1 and i + 1 + (characters left).
   */
  lemma {:induction false} LexFromShape(line: string, p: nat, i: nat, word: string, lineNumber: int)
    requires p <= |line|
    decreases |line| - p
    ensures OnLine(LexFrom(line, p, i, word, lineNumber), lineNumber)
    ensures ColumnsWithin(LexFrom(line, p, i, word, lineNumber), i + 1, i + 1 + |line| - p)
    ensures ColumnsSorted(LexFrom(line, p, i, word, lineNumber))
  {
    var col := i + 1;
    FlushedShape(word, lineNumber, i);
    FlushedShape(word, lineNumber, col);
    if p == |line| {
    } else {
      var c := line[p];
      if (c == '!' || c == '=') && p + 1 < |line| && line[p + 1] == '=' {
        var a := Flushed(word, lineNumber, col);
        var b := Flushed([c, '='], lineNumber, col);
        var rest := LexFrom(line, p + 2, col, "", lineNumber);
        FlushedShape([c, '='], lineNumber, col);
        LexFromShape(line, p + 2, col, "", lineNumber);
        SortedConcat(a, b, col + 1);
        SortedConcat(a + b, rest, col + 1);
      } else if c == ' ' {
        var rest := LexFrom(line, p + 1, col, "", lineNumber);
        LexFromShape(line, p + 1, col, "", lineNumber);
        SortedConcat(Flushed(word, lineNumber, col), rest, col + 1);
      } else if c in TerminalCharacters {
        var a := Flushed(word, lineNumber, col);
        var b := Flushed([c], lineNumber, col);
        var rest := LexFrom(line, p + 1, col, "", lineNumber);
        FlushedShape([c], lineNumber, col);
        LexFromShape(line, p + 1, col, "", lineNumber);
        SortedConcat(a, b, col + 1);
        SortedConcat(a + b, rest, col + 1);
      } else {
        LexFromShape(line, if p + 2 <= |line| then p + 2 else |line|, col, word + [c], lineNumber);
      }
    }
  }

  /**
   * Each token owns at least one distinct character: reading from `p` yields
   * at most the characters left, plus one for a non-empty pending word.
   */
  lemma {:induction false} LexFromLength(line: string, p: nat, i: nat, word: string, lineNumber: int)
    requires p <= |line|
    decreases |line| - p
    ensures |LexFrom(line, p, i, word, lineNumber)| <= |line| - p + (if word == "" then 0 else 1)
  {
    var col := i + 1;
    FlushedShape(word, lineNumber, i);
    FlushedShape(word, lineNumber, col);
    if p < |line| {
      var c := line[p];
      FlushedShape([c], lineNumber, col);
      FlushedShape([c, '='], lineNumber, col);
      if (c == '!' || c == '=') && p + 1 < |line| && line[p + 1] == '=' {
        LexFromLength(line, p + 2, col, "", lineNumber);
      } else if c == ' ' || c in TerminalCharacters {
        LexFromLength(line, p + 1, col, "", lineNumber);
      } else {
        LexFromLength(line, if p + 2 <= |line| then p + 2 else |line|, col, word + [c], lineNumber);
      }
    }
  }

  /** A line never yields more tokens than it has characters. */
  lemma {:induction false} LexLineLength(line: string, lineNumber: int)
    ensures |LexLine(line, lineNumber)| <= |line|
  {
    LexFromLength(line, 0, 0, "", lineNumber);
  }

  /** A run of spaces with an empty buffer yields no tokens. */
  lemma {:induction false} BlankRest(line: string, p: nat, i: nat, lineNumber: int)
    requires p <= |line|
    decreases |line| - p
    requires forall k :: p <= k < |line| ==> line[k] == ' '
    ensures LexFrom(line, p, i, "", lineNumber) == []
  {
    if p < |line| {
      BlankRest(line, p + 1, i + 1, lineNumber);
    }
  }

  /** A line of spaces only, the empty line included, yields no tokens. */
  lemma {:induction false} BlankLine(line: string, lineNumber: int)
    requires forall k :: 0 <= k < |line| ==> line[k] == ' '
    ensures LexLine(line, lineNumber) == []
  {
    BlankRest(line, 0, 0, lineNumber);
  }

  /** `==` is one EQUAL token, never two ASSIGN tokens. */
  lemma {:induction false} EqualLine()
    ensures LexLine("==", 1) == [Token("EQUAL", None, 1, 2)]
  {
  }

  /** `!=` is one DIFFERENT token. */
  lemma {:induction false} DifferentLine()
    ensures LexLine("!=", 1) == [Token("DIFFERENT", None, 1, 2)]
  {
  }

  /** Maximal munch from the left: `===` is EQUAL then ASSIGN. */
  lemma {:induction false} TripleEqualLine()
    ensures LexLine("===", 1) == [Token("EQUAL", None, 1, 2), Token("ASSIGN", None, 1, 3)]
  {
  }

  /** `!` not followed by `=` is BANG, and what follows is lexed on its own. */
  lemma {:induction false} BangLine()
    ensures LexLine("! (", 1) == [Token("BANG", None, 1, 2), Token("LPAREN", None, 1, 4)]
  {
  }

  /**
   * The dropped character of the fall-through branch: in `a+b` the `+` is
   * consumed after `a` and lost, and `ab` is one ILLEGAL word.
   */
  lemma {:induction false} DroppedCharacterLine()
    ensures LexLine("a+b", 1) == [Token(Illegal, None, 1, 3)]
  {
    var line := "a+b";
    WordsAreIllegal("ab");
    assert LexFrom(line, 3, 2, "ab", 1) == [Token(Illegal, None, 1, 3)];
    assert line[2] == 'b' && line[2] !in TerminalCharacters && "a" + [line[2]] == "ab";
    assert LexFrom(line, 2, 1, "a", 1) == LexFrom(line, 3, 2, "ab", 1);
    assert line[0] == 'a' && line[0] !in TerminalCharacters && "" + [line[0]] == "a";
    assert LexFrom(line, 0, 0, "", 1) == LexFrom(line, 2, 1, "a", 1);
  }

  /**
   * The counter counts loop iterations, not characters: after `==` the
   * counter is one behind, so the COLON at position 4 gets column 4.
   */
  lemma {:induction false} ColumnAfterMergeLine()
    ensures LexLine("== :", 1) == [Token("EQUAL", None, 1, 2), Token("COLON", None, 1, 4)]
  {
    var line := "== :";
    assert line[3] == ':' && [line[3]] == ":";
    assert LexFrom(line, 3, 2, "", 1) == [Token("COLON", None, 1, 4)];
    assert LexFrom(line, 2, 1, "", 1) == LexFrom(line, 3, 2, "", 1);
    assert line[0] == '=' && line[1] == '=' && [line[0], '='] == "==";
  }

  /**
   * A flushed word takes the counter of the iteration that flushes it, plus
   * one: in `a :` the word `a` (its space dropped) and the COLON both get
   * column 3.
   */
  lemma {:induction false} WordColumnLine()
    ensures LexLine("a :", 1) == [Token(Illegal, None, 1, 3), Token("COLON", None, 1, 3)]
  {
    var line := "a :";
    WordsAreIllegal("a");
    assert line[2] == ':' && [line[2]] == ":";
    assert LexFrom(line, 3, 2, "", 1) == [];
    assert LexFrom(line, 2, 1, "a", 1) == [Token(Illegal, None, 1, 3), Token("COLON", None, 1, 3)];
    assert line[0] == 'a' && line[0] !in TerminalCharacters && "" + [line[0]] == "a";
  }

  /**
   * A word that runs to the end of the line is flushed after the loop, at the
   * final counter: `ab` is the word `a` (its `b` dropped) at column 2.
   */
  lemma {:induction false} WordAtEndLine()
    ensures LexLine("ab", 1) == [Token(Illegal, None, 1, 2)]
  {
    var line := "ab";
    WordsAreIllegal("a");
    assert LexFrom(line, 2, 1, "a", 1) == [Token(Illegal, None, 1, 2)];
    assert line[0] == 'a' && line[0] !in TerminalCharacters && "" + [line[0]] == "a";
  }

  /**
   * The dropped character also swallows a separating space: `a b` is one
   * ILLEGAL token, while `a  b` is two, so for words spacing changes the
   * kinds produced.
   */
  lemma {:induction false} SpacingSplitsWords()
    ensures LexLine("a b", 1) == [Token(Illegal, None, 1, 3)]
    ensures LexLine("a  b", 1) == [Token(Illegal, None, 1, 3), Token(Illegal, None, 1, 4)]
  {
    WordsAreIllegal("a");
    WordsAreIllegal("b");
    WordsAreIllegal("ab");
    var one := "a b";
    assert one[2] == 'b' && one[2] !in TerminalCharacters && "a" + [one[2]] == "ab";
    assert LexFrom(one, 3, 2, "ab", 1) == [Token(Illegal, None, 1, 3)];
    assert LexFrom(one, 2, 1, "a", 1) == LexFrom(one, 3, 2, "ab", 1);
    assert one[0] == 'a' && one[0] !in TerminalCharacters && "" + [one[0]] == "a";
    var two := "a  b";
    assert two[3] == 'b' && two[3] !in TerminalCharacters && "" + [two[3]] == "b";
    assert LexFrom(two, 4, 3, "b", 1) == [Token(Illegal, None, 1, 4)];
    assert LexFrom(two, 3, 2, "", 1) == LexFrom(two, 4, 3, "b", 1);
    assert two[2] == ' ';
    assert LexFrom(two, 2, 1, "a", 1) == [Token(Illegal, None, 1, 3)] + LexFrom(two, 3, 2, "", 1);
    assert two[0] == 'a' && two[0] !in TerminalCharacters && "" + [two[0]] == "a";
  }

  // ---------------------------------------------------------------------------
  // Spacing between table lexemes

  function Spaces(k: nat): string
    decreases k
  {
    if k == 0 then "" else " " + Spaces(k - 1)
  }

  /**
   * A line of table lexemes with `gaps[0]` spaces before the first and
   * `gaps[k + 1]` spaces after lexeme k.
   */
  function Layout(lexemes: seq<string>, gaps: seq<nat>): string
    requires |gaps| == |lexemes| + 1
    decreases |lexemes|
  {
    if lexemes == [] then Spaces(gaps[0])
    else Spaces(gaps[0]) + lexemes[0] + Layout(lexemes[1..], gaps[1..])
  }

  function TokenKinds(ts: seq<Token>): seq<string> {
    seq(|ts|, k requires 0 <= k < |ts| => ts[k].kind)
  }

  function TableKinds(lexemes: seq<string>): seq<string>
    requires forall k :: 0 <= k < |lexemes| ==> lexemes[k] in TokensTable
  {
    seq(|lexemes|, k requires 0 <= k < |lexemes| => TokensTable[lexemes[k]])
  }

  /** Two lines that agree on every character ahead of their positions are read alike. */
  lemma {:induction false} LexFromAhead(a: string, p: nat, b: string, q: nat, i: nat, word: string, lineNumber: int)
    requires p <= |a| && q <= |b| && |a| - p == |b| - q
    requires forall k :: p <= k < |a| ==> a[k] == b[k - p + q]
    ensures LexFrom(a, p, i, word, lineNumber) == LexFrom(b, q, i, word, lineNumber)
    decreases |a| - p
  {
    if p < |a| {
      assert a[p] == b[q];
      if p + 1 < |a| {
        assert a[p + 1] == b[q + 1];
      }
      var c := a[p];
      if (c == '!' || c == '=') && p + 1 < |a| && a[p + 1] == '=' {
        LexFromAhead(a, p + 2, b, q + 2, i + 1, "", lineNumber);
      } else if c == ' ' || c in TerminalCharacters {
        LexFromAhead(a, p + 1, b, q + 1, i + 1, "", lineNumber);
      } else if p + 2 <= |a| {
        LexFromAhead(a, p + 2, b, q + 2, i + 1, word + [c], lineNumber);
      } else {
        LexFromAhead(a, |a|, b, |b|, i + 1, word + [c], lineNumber);
      }
    }
  }

  /** Reading from position |pre| + q of `pre + s` is reading from q of `s`. */
  lemma {:induction false} LexFromShift(pre: string, s: string, q: nat, i: nat, word: string, lineNumber: int)
    requires q <= |s|
    ensures LexFrom(pre + s, |pre| + q, i, word, lineNumber) == LexFrom(s, q, i, word, lineNumber)
  {
    LexFromAhead(pre + s, |pre| + q, s, q, i, word, lineNumber);
  }

  /** Leading spaces with an empty buffer emit nothing and only advance the counter. */
  lemma {:induction false} SkipSpaces(k: nat, s: string, i: nat, lineNumber: int)
    ensures LexFrom(Spaces(k) + s, 0, i, "", lineNumber) == LexFrom(s, 0, i + k, "", lineNumber)
    decreases k
  {
    if k > 0 {
      var rest := Spaces(k - 1) + s;
      assert Spaces(k) + s == " " + rest;
      var line := " " + rest;
      assert line[0] == ' ';
      SpaceFlushes(line, 0, i, "", lineNumber);
      assert LexFrom(line, 0, i, "", lineNumber) == LexFrom(line, 1, i + 1, "", lineNumber);
      LexFromShift(" ", rest, 0, i + 1, "", lineNumber);
      SkipSpaces(k - 1, s, i + 1, lineNumber);
    } else {
      assert Spaces(k) + s == s;
    }
  }

  /** A table lexeme followed by nothing or by a space yields exactly its table kind. */
  lemma {:induction false} LexemeStep(lexeme: string, s: string, i: nat, lineNumber: int)
    requires lexeme in TokensTable
    requires s == [] || s[0] == ' '
    ensures LexFrom(lexeme + s, 0, i, "", lineNumber)
         == [Token(TokensTable[lexeme], None, lineNumber, i + 2)] + LexFrom(s, 0, i + 1, "", lineNumber)
  {
    var line := lexeme + s;
    if |lexeme| == 1 {
      assert line[0] == lexeme[0] && [lexeme[0]] == lexeme;
      if |s| > 0 {
        assert line[1] == s[0];
      }
      SingleTerminal(line, 0, i, "", lineNumber);
      LexFromShift(lexeme, s, 0, i + 1, "", lineNumber);
    } else {
      assert line[0] == lexeme[0] && line[1] == lexeme[1] && [lexeme[0], '='] == lexeme;
      MergedOperator(line, 0, i, "", lineNumber);
      LexFromShift(lexeme, s, 0, i + 1, "", lineNumber);
    }
  }

  /** A layout is empty or starts with a space when it has leading spaces or no lexeme. */
  lemma {:induction false} LayoutStart(lexemes: seq<string>, gaps: seq<nat>)
    requires |gaps| == |lexemes| + 1 && (lexemes == [] || gaps[0] >= 1)
    ensures var line := Layout(lexemes, gaps); line == [] || line[0] == ' '
  {
    var line := Layout(lexemes, gaps);
    if gaps[0] >= 1 {
      var k := gaps[0];
      assert Spaces(k) == " " + Spaces(k - 1);
      if lexemes == [] {
        assert line == Spaces(k);
      } else {
        assert line == Spaces(k) + (lexemes[0] + Layout(lexemes[1..], gaps[1..]));
      }
    } else if lexemes == [] {
      assert line == Spaces(0) == "";
    }
  }

  /** The layout of the lexemes after the first still meets the spacing conditions. */
  lemma {:induction false} LayoutTail(lexemes: seq<string>, gaps: seq<nat>)
    requires |gaps| == |lexemes| + 1 && |lexemes| >= 1
    requires forall k :: 0 <= k < |lexemes| ==> lexemes[k] in TokensTable
    requires forall k :: 0 < k < |lexemes| ==> gaps[k] >= 1
    ensures var ls, gs := lexemes[1..], gaps[1..];
      |gs| == |ls| + 1 && (ls == [] || gs[0] >= 1) &&
      (forall k :: 0 <= k < |ls| ==> ls[k] in TokensTable) &&
      (forall k :: 0 < k < |ls| ==> gs[k] >= 1)
  {
    var ls, gs := lexemes[1..], gaps[1..];
    assert forall k :: 0 <= k < |ls| ==> ls[k] == lexemes[k + 1];
    assert forall k :: 0 <= k < |gs| ==> gs[k] == gaps[k + 1];
  }

  lemma {:induction false} TokenKindsCons(head: Token, tail: seq<Token>)
    ensures TokenKinds([head] + tail) == [head.kind] + TokenKinds(tail)
  {
    assert forall k :: 0 < k < |tail| + 1 ==> ([head] + tail)[k] == tail[k - 1];
  }

  lemma {:induction false} TableKindsCons(lexemes: seq<string>)
    requires |lexemes| >= 1 && forall k :: 0 <= k < |lexemes| ==> lexemes[k] in TokensTable
    ensures forall k :: 0 <= k < |lexemes[1..]| ==> lexemes[1..][k] in TokensTable
    ensures TableKinds(lexemes) == [TokensTable[lexemes[0]]] + TableKinds(lexemes[1..])
  {
    assert forall k :: 0 <= k < |lexemes[1..]| ==> lexemes[1..][k] == lexemes[k + 1];
  }

  lemma {:induction false} LayoutKinds(lexemes: seq<string>, gaps: seq<nat>, i: nat, lineNumber: int)
    requires |gaps| == |lexemes| + 1
    requires forall k :: 0 <= k < |lexemes| ==> lexemes[k] in TokensTable
    requires forall k :: 0 < k < |lexemes| ==> gaps[k] >= 1
    ensures TokenKinds(LexFrom(Layout(lexemes, gaps), 0, i, "", lineNumber)) == TableKinds(lexemes)
    decreases |lexemes|
  {
    if lexemes == [] {
      assert Layout(lexemes, gaps) == Spaces(gaps[0]) + "";
      SkipSpaces(gaps[0], "", i, lineNumber);
    } else {
      var ls, gs := lexemes[1..], gaps[1..];
      var rest := Layout(ls, gs);
      var lexeme := lexemes[0];
      assert Layout(lexemes, gaps) == Spaces(gaps[0]) + (lexeme + rest);
      SkipSpaces(gaps[0], lexeme + rest, i, lineNumber);
      LayoutTail(lexemes, gaps);
      LayoutStart(ls, gs);
      LexemeStep(lexeme, rest, i + gaps[0], lineNumber);
      var j := i + gaps[0] + 1;
      LayoutKinds(ls, gs, j, lineNumber);
      TokenKindsCons(Token(TokensTable[lexeme], None, lineNumber, j + 1), LexFrom(rest, 0, j, "", lineNumber));
      TableKindsCons(lexemes);
    }
  }

  /**
   * For table lexemes separated by at least one space, the kinds a line
   * yields are the lexemes' table kinds, whatever the amount of spacing.
   */
  lemma {:induction false} SpacingKeepsLexemeKinds(lexemes: seq<string>, gaps: seq<nat>, lineNumber: int)
    requires |gaps| == |lexemes| + 1
    requires forall k :: 0 <= k < |lexemes| ==> lexemes[k] in TokensTable
    requires forall k :: 0 < k < |lexemes| ==> gaps[k] >= 1
    ensures TokenKinds(LexLine(Layout(lexemes, gaps), lineNumber)) == TableKinds(lexemes)
  {
    LayoutKinds(lexemes, gaps, 0, lineNumber);
  }

  // ---------------------------------------------------------------------------
  // Properties of the per-line driver

  /** The END_LINE markers of `ts`, in order. */
  function EndLinesOf(ts: seq<Token>): seq<Token>
    decreases |ts|
  {
    if ts == [] then []
    else EndLinesOf(ts[..|ts| - 1]) + (if ts[|ts| - 1].kind == EndLine then [ts[|ts| - 1]] else [])
  }

  lemma {:induction false} EndLinesOfConcat(a: seq<Token>, b: seq<Token>)
    ensures EndLinesOf(a + b) == EndLinesOf(a) + EndLinesOf(b)
    decreases |b|
  {
    if b == [] {
      assert a + b == a;
    } else {
      var b' := b[..|b| - 1];
      assert (a + b)[..|a + b| - 1] == a + b';
      EndLinesOfConcat(a, b');
    }
  }

  lemma {:induction false} NoEndLineOnLine(ts: seq<Token>, n: int)
    requires OnLine(ts, n)
    ensures EndLinesOf(ts) == []
    decreases |ts|
  {
    if ts != [] {
      assert ts[|ts| - 1] in ts;
      assert EndLine !in TokensTable.Values;
      NoEndLineOnLine(ts[..|ts| - 1], n);
    }
  }

  /** The END_LINE markers of lines 1..n, in order. */
  function Markers(n: nat): (ms: seq<Token>)
    ensures |ms| == n && forall k :: 0 <= k < n ==> ms[k] == EndLineToken(k + 1)
  {
    if n == 0 then [] else Markers(n - 1) + [EndLineToken(n)]
  }

  /**
   * Every line, the empty one included, contributes exactly one END_LINE
   * marker, numbered from 1 upwards with column 0.
   */
  lemma {:induction false} EndLineMarkers(lines: seq<string>)
    ensures EndLinesOf(LexLines(lines)) == Markers(|lines|)
    decreases |lines|
  {
    if lines != [] {
      var n := |lines|;
      var before := LexLines(lines[..n - 1]);
      var line := LexLine(lines[n - 1], n);
      assert LexLines(lines) == before + line + [EndLineToken(n)];
      EndLineMarkers(lines[..n - 1]);
      LexFromShape(lines[n - 1], 0, 0, "", n);
      NoEndLineOnLine(line, n);
      EndLinesOfConcat(before, line);
      EndLinesOfConcat(before + line, [EndLineToken(n)]);
      assert EndLinesOf([EndLineToken(n)]) == [EndLineToken(n)];
    }
  }

  /** The last token of a non-empty source is the END_LINE marker of the last line. */
  lemma {:induction false} LastTokenIsEndLine(lines: seq<string>)
    requires lines != []
    ensures |LexLines(lines)| > 0 && LexLines(lines)[|LexLines(lines)| - 1] == EndLineToken(|lines|)
  {
  }

  /** Line numbers of the token list never decrease. */
  ghost predicate LinesSorted(ts: seq<Token>) {
    forall j, k :: 0 <= j < k < |ts| ==> ts[j].line <= ts[k].line
  }

  /**
   * Every token lies on a line in 1..|lines|, carries no value, is a lexer
   * kind or END_LINE, and line numbers never decrease along the list.
   */
  lemma {:induction false} LexLinesShape(lines: seq<string>)
    ensures forall t :: t in LexLines(lines) ==>
      1 <= t.line <= |lines| && t.value.None? && (LexerKind(t.kind) || t.kind == EndLine)
    ensures LinesSorted(LexLines(lines))
    decreases |lines|
  {
    if lines != [] {
      var n := |lines|;
      var before := LexLines(lines[..n - 1]);
      var line := LexLine(lines[n - 1], n);
      var after := line + [EndLineToken(n)];
      LexLinesShape(lines[..n - 1]);
      LexFromShape(lines[n - 1], 0, 0, "", n);
      assert LexLines(lines) == before + after;
      forall t | t in after ensures t.line == n && t.value.None? && (LexerKind(t.kind) || t.kind == EndLine) {
        if t in line {
        } else {
          assert t == EndLineToken(n);
        }
      }
      forall j, k | 0 <= j < k < |before + after|
        ensures (before + after)[j].line <= (before + after)[k].line
      {
        if k < |before| {
          assert (before + after)[j] == before[j] && (before + after)[k] == before[k];
        } else if j >= |before| {
          assert (before + after)[j] == after[j - |before|] && after[j - |before|] in after;
          assert (before + after)[k] == after[k - |before|] && after[k - |before|] in after;
        } else {
          assert (before + after)[j] == before[j] && before[j] in before;
          assert (before + after)[k] == after[k - |before|] && after[k - |before|] in after;
        }
      }
    }
  }

  /** Every token after an END_LINE marker lies on a later line. */
  ghost predicate EndLinesClose(ts: seq<Token>) {
    forall j, k :: 0 <= j < k < |ts| && ts[j].kind == EndLine ==> ts[j].line < ts[k].line
  }

  /**
   * The END_LINE marker of each line is the last token of that line: nothing
   * of line k follows it, whichever line k is.
   */
  lemma {:induction false} EndLineEndsItsLine(lines: seq<string>)
    ensures EndLinesClose(LexLines(lines))
    decreases |lines|
  {
    if lines != [] {
      var n := |lines|;
      var before := LexLines(lines[..n - 1]);
      var line := LexLine(lines[n - 1], n);
      var after := line + [EndLineToken(n)];
      var all := before + after;
      assert LexLines(lines) == all;
      EndLineEndsItsLine(lines[..n - 1]);
      LexLinesShape(lines[..n - 1]);
      LexFromShape(lines[n - 1], 0, 0, "", n);
      assert EndLine != Illegal && EndLine !in TokensTable.Values;
      forall j, k | 0 <= j < k < |all| && all[j].kind == EndLine
        ensures all[j].line < all[k].line
      {
        if k < |before| {
          assert all[j] == before[j] && all[k] == before[k];
        } else if j < |before| {
          assert all[j] == before[j] && before[j] in before;
          assert all[k] == after[k - |before|] && after[k - |before|] in after;
          if k - |before| < |line| {
            assert after[k - |before|] == line[k - |before|] && line[k - |before|] in line;
          }
        }
      }
    }
  }

  /** An empty line yields exactly its END_LINE marker. */
  lemma {:induction false} EmptyLineYieldsEndLine(lines: seq<string>)
    ensures LexLines(lines + [""]) == LexLines(lines) + [EndLineToken(|lines| + 1)]
  {
    var all := lines + [""];
    assert all[..|all| - 1] == lines;
    assert all[|all| - 1] == "";
    assert LexLine("", |all|) == [];
  }
}
