/**
 * The reduce-only parser of src/parser.rs: `codegen` pushes every input token
 * on a stack and, after each push, keeps replacing the longest top window
 * (at most five tokens) whose space-joined kind names are a key of the rule
 * table by one synthetic token, until no window matches.
 *
 * The LLVM calls that lower a declaration are modelled by appending the
 * `ASTNode` to a log; the `expect` on a missing identifier name is modelled
 * as a panic outcome.
 */
module Parser {
  import opened Wrappers
  import opened Lexical

  /** A rule: its key, the kind of the token it makes, and an unused final flag. */
  datatype Instruction = Instruction(tokens: string, make: string, isFinal: bool)

  /** A declaration lowered by the code generator. */
  datatype ASTNode = IntDeclaration(name: string) | BoolDeclaration(name: string)

  const MaxRuleLen: nat := 5
  const IntDeclarationKind: string := "INT_DECLARATION"
  const BoolDeclarationKind: string := "BOOL_DECLARATION"
  const IntKey: string := "IDENT COLON INT"
  const BoolKey: string := "IDENT COLON BOOL"

  /** `INSTRUCTIONS`: the rule table. */
  const Instructions: map<string, Instruction> := map[
    IntKey := Instruction(IntKey, IntDeclarationKind, true),
    BoolKey := Instruction(BoolKey, BoolDeclarationKind, true)
  ]

  /** `INSTRUCTIONS.get(key)`. */
  function Lookup(key: string): Option<Instruction> {
    if key in Instructions then Some(Instructions[key]) else None
  }

  /**
   * The table has exactly two keys, each rule's `tokens` is its key, and the
   * two make INT_DECLARATION and BOOL_DECLARATION.
   */
  lemma {:induction false} LookupTable(key: string)
    ensures Lookup(key).Some? <==> key == IntKey || key == BoolKey
    ensures Lookup(key).Some? ==> Lookup(key).value.tokens == key && Lookup(key).value.isFinal
    ensures Lookup(key).Some? ==>
      Lookup(key).value.make == if key == IntKey then IntDeclarationKind else BoolDeclarationKind
  {
  }

  // ---------------------------------------------------------------------------
  // Keys

  function Kinds(ts: seq<Token>): seq<string> {
    seq(|ts|, k requires 0 <= k < |ts| => ts[k].kind)
  }

  /** `join(" ")`. */
  function Join(parts: seq<string>): string
    decreases |parts|
  {
    if |parts| == 0 then ""
    else if |parts| == 1 then parts[0]
    else Join(parts[..|parts| - 1]) + " " + parts[|parts| - 1]
  }

  /** Splitting at every space: the inverse of `Join` on space-free parts. */
  function Split(s: string): (parts: seq<string>)
    ensures |parts| >= 1
    decreases |s|
  {
    if |s| == 0 then [""]
    else
      var rest := Split(s[..|s| - 1]);
      var c := s[|s| - 1];
      if c == ' ' then rest + [""] else rest[..|rest| - 1] + [rest[|rest| - 1] + [c]]
  }

  /** The lookup key of a window: the kind names, bottom to top, joined by a space. */
  function Key(window: seq<Token>): string {
    Join(Kinds(window))
  }

  predicate SpaceFree(s: string) {
    ' ' !in s
  }

  /** No kind name in `ts` contains a space (true of every lexer and rule kind). */
  predicate KindsSpaceFree(ts: seq<Token>) {
    forall k :: 0 <= k < |ts| ==> SpaceFree(ts[k].kind)
  }

  /** A space-free word splits into itself. */
  lemma {:induction false} SplitWord(a: string)
    requires SpaceFree(a)
    ensures Split(a) == [a]
    decreases |a|
  {
    if |a| > 0 {
      var init := a[..|a| - 1];
      assert SpaceFree(init) by {
        forall k | 0 <= k < |init| ensures init[k] != ' ' {
          assert init[k] == a[k];
        }
      }
      SplitWord(init);
      assert init + [a[|a| - 1]] == a;
    }
  }

  /** Splitting `x`, a space and a space-free word gives the split of `x`, then the word. */
  lemma {:induction false} SplitBeforeWord(x: string, b: string)
    requires SpaceFree(b)
    ensures Split(x + " " + b) == Split(x) + [b]
    decreases |b|
  {
    var s := x + " " + b;
    if |b| == 0 {
      assert s == x + " ";
      assert s[..|s| - 1] == x;
    } else {
      var init := b[..|b| - 1];
      assert SpaceFree(init) by {
        forall k | 0 <= k < |init| ensures init[k] != ' ' {
          assert init[k] == b[k];
        }
      }
      assert s[..|s| - 1] == x + " " + init;
      assert s[|s| - 1] == b[|b| - 1];
      SplitBeforeWord(x, init);
      assert init + [b[|b| - 1]] == b;
    }
  }

  /** Splitting a join of space-free parts gives the parts back. */
  lemma {:induction false} SplitJoin(parts: seq<string>)
    requires |parts| >= 1
    requires forall k :: 0 <= k < |parts| ==> SpaceFree(parts[k])
    ensures Split(Join(parts)) == parts
    decreases |parts|
  {
    var n := |parts|;
    if n == 1 {
      SplitWord(parts[0]);
    } else {
      var init := parts[..n - 1];
      var last := parts[n - 1];
      assert forall k :: 0 <= k < |init| ==> init[k] == parts[k];
      SplitJoin(init);
      assert Join(parts) == Join(init) + " " + last;
      SplitBeforeWord(Join(init), last);
      assert init + [last] == parts;
    }
  }

  /**
   * The key of a window names its kinds in stack order: when no kind holds a
   * space, splitting the key at its spaces gives back the kinds, one per token.
   */
  lemma {:induction false} KeyRoundTrip(window: seq<Token>)
    requires |window| >= 1 && KindsSpaceFree(window)
    ensures Split(Key(window)) == Kinds(window)
    ensures |Split(Key(window))| == |window|
  {
    SplitJoin(Kinds(window));
  }

  /** A join ends with the last character of its last part. */
  lemma {:induction false} JoinLastChar(parts: seq<string>)
    requires |parts| >= 1 && |parts[|parts| - 1]| >= 1
    ensures |Join(parts)| >= 1
    ensures Join(parts)[|Join(parts)| - 1] == parts[|parts| - 1][|parts[|parts| - 1]| - 1]
  {
  }

  // ---------------------------------------------------------------------------
  // Windows and the longest match

  /** `min(stack.len(), MAX_RULE_LEN)`. */
  function CheckLen(stack: seq<Token>): nat {
    if |stack| < MaxRuleLen then |stack| else MaxRuleLen
  }

  /** The top `len` tokens, `&stack[start_idx..]`. */
  function Suffix(stack: seq<Token>, len: nat): seq<Token>
    requires len <= |stack|
  {
    seq(len, k requires 0 <= k < len => stack[|stack| - len + k])
  }

  /** The makes `codegen` dispatches on; any other make is skipped. */
  predicate Handled(make: string) {
    make == IntDeclarationKind || make == BoolDeclarationKind
  }

  /** The top `len` tokens form a key whose rule `codegen` acts on. */
  predicate Matches(stack: seq<Token>, len: nat)
    requires len <= |stack|
  {
    var r := Lookup(Key(Suffix(stack, len)));
    r.Some? && Handled(r.value.make)
  }

  /**
   * Every rule of the table has a handled make, so the `_ => {}` arm is never
   * taken: a window matches exactly when its key is in the table.
   */
  lemma {:induction false} MatchesIffKeyInTable(stack: seq<Token>, len: nat)
    requires len <= |stack|
    ensures Matches(stack, len) <==> Lookup(Key(Suffix(stack, len))).Some?
  {
    LookupTable(Key(Suffix(stack, len)));
  }

  /**
   * Tries window lengths `len` down to 1 and returns the first that matches:
   * the longest matching window of length at most `len`, or None if none does.
   */
  function FindMatch(stack: seq<Token>, len: nat): (r: Option<nat>)
    requires len <= |stack|
    ensures r.Some? ==> 1 <= r.value <= len && Matches(stack, r.value)
    decreases len
  {
    if len == 0 then None
    else if Matches(stack, len) then Some(len)
    else FindMatch(stack, len - 1)
  }

  /**
   * The scan finds the longest matching window of length at most `len`, and
   * finds none exactly when no such window matches.
   */
  lemma {:induction false} FindMatchLongest(stack: seq<Token>, len: nat)
    requires len <= |stack|
    ensures var r := FindMatch(stack, len);
      r.Some? ==> forall l :: r.value < l <= len ==> !Matches(stack, l)
    ensures FindMatch(stack, len).None? <==> forall l :: 1 <= l <= len ==> !Matches(stack, l)
    decreases len
  {
    if len > 0 && !Matches(stack, len) {
      FindMatchLongest(stack, len - 1);
    }
  }

  /** The top `len` tokens of `base + top` are those of `top`. */
  lemma {:induction false} SuffixIgnoresBase(base: seq<Token>, top: seq<Token>, len: nat)
    requires len <= |top|
    ensures Suffix(base + top, len) == Suffix(top, len)
  {
    assert forall k :: 0 <= k < len ==> Suffix(base + top, len)[k] == top[|top| - len + k];
  }

  /** Only the top MaxRuleLen tokens are examined: what lies below does not matter. */
  lemma {:induction false} FindMatchIgnoresBase(base: seq<Token>, top: seq<Token>, len: nat)
    requires len <= |top|
    ensures FindMatch(base + top, len) == FindMatch(top, len)
    decreases len
  {
    if len > 0 {
      SuffixIgnoresBase(base, top, len);
      FindMatchIgnoresBase(base, top, len - 1);
    }
  }

  /** The match on a stack of at least five tokens depends on its top five only. */
  lemma {:induction false} WindowBound(base: seq<Token>, top: seq<Token>)
    requires |top| == MaxRuleLen
    ensures CheckLen(base + top) == CheckLen(top) == MaxRuleLen
    ensures FindMatch(base + top, CheckLen(base + top)) == FindMatch(top, CheckLen(top))
  {
    FindMatchIgnoresBase(base, top, MaxRuleLen);
  }

  // ---------------------------------------------------------------------------
  // One pass of the 'check_rules loop

  /** What one pass of 'check_rules does. */
  datatype Step = NoReduction | Reduced(stack: seq<Token>, node: ASTNode) | Panic

  /** The token `process_*_declaration` pushes: kind `make`, no value, line and column 0. */
  function SyntheticToken(make: string): Token {
    Token(make, None, 0, 0)
  }

  predicate IsSynthetic(kind: string) {
    kind == IntDeclarationKind || kind == BoolDeclarationKind
  }

  /** 0 when the top token is synthetic, otherwise 1: the tie-break of the termination measure. */
  function TopRank(stack: seq<Token>): nat {
    if |stack| > 0 && IsSynthetic(stack[|stack| - 1].kind) then 0 else 1
  }

  /** The node built from the name of the matched identifier. */
  function DeclarationNode(make: string, name: string): ASTNode
    requires Handled(make)
  {
    if make == IntDeclarationKind then IntDeclaration(name) else BoolDeclaration(name)
  }

  /** The reduction at `startIdx` that `codegen` performs for `make`. */
  function Reduce(stack: seq<Token>, startIdx: nat, make: string): Step
    requires startIdx < |stack| && Handled(make)
  {
    match stack[startIdx].value
    case None => Panic
    case Some(name) => Reduced(stack[..startIdx] + [SyntheticToken(make)], DeclarationNode(make, name))
  }

  /** A key ending in a synthetic kind is not in the table: keys end in INT or BOOL. */
  lemma {:induction false} SyntheticTopNotKey(window: seq<Token>)
    requires |window| >= 1 && IsSynthetic(window[|window| - 1].kind)
    ensures Lookup(Key(window)).None?
  {
    var parts := Kinds(window);
    assert parts[|parts| - 1] == window[|window| - 1].kind;
    JoinLastChar(parts);
    var key := Join(parts);
    assert key[|key| - 1] == 'N';
  }

  /** No window ending in a synthetic token matches. */
  lemma {:induction false} SyntheticTopNoMatch(stack: seq<Token>)
    ensures TopRank(stack) == 0 ==> FindMatch(stack, CheckLen(stack)).None?
  {
    if TopRank(stack) == 0 {
      forall len | 1 <= len <= CheckLen(stack)
      ensures !Matches(stack, len)
    {
        var window := Suffix(stack, len);
        assert window[|window| - 1] == stack[|stack| - 1];
        SyntheticTopNotKey(window);
      }
    }
  }

  /**
   * One pass of the 'check_rules loop: the longest matching window of at most
   * MaxRuleLen tokens is reduced. A reduction never grows the stack and
   * leaves a synthetic token on top, which no window can match.
   */
  function RulePass(stack: seq<Token>): (r: Step)
    ensures r.Reduced? ==> |r.stack| <= |stack| && TopRank(stack) == 1 && TopRank(r.stack) == 0
  {
    SyntheticTopNoMatch(stack);
    match FindMatch(stack, CheckLen(stack))
    case None => NoReduction
    case Some(len) =>
      var rule := Lookup(Key(Suffix(stack, len)));
      Reduce(stack, |stack| - len, rule.value.make)
  }

  /**
   * A pass reports no reduction exactly when no window matches; otherwise it
   * reduces the longest matching window, panicking exactly when the window's
   * first token has no value.
   */
  lemma {:induction false} RulePassShape(stack: seq<Token>)
    ensures RulePass(stack).NoReduction? <==> FindMatch(stack, CheckLen(stack)).None?
    ensures FindMatch(stack, CheckLen(stack)).Some? ==>
      var len := FindMatch(stack, CheckLen(stack)).value;
      var start := |stack| - len;
      var make := Lookup(Key(Suffix(stack, len))).value.make;
      RulePass(stack) == if stack[start].value.None? then Panic
        else Reduced(stack[..start] + [SyntheticToken(make)], DeclarationNode(make, stack[start].value.value))
  {
    var m := FindMatch(stack, CheckLen(stack));
    if m.Some? {
      var len := m.value;
      var make := Lookup(Key(Suffix(stack, len))).value.make;
      ReduceAgrees(stack, len, make);
    }
  }

  /**
   * A reduction keeps the tokens below the matched window, replaces the
   * window by one synthetic token of its rule's make (the stack shrinks by the
   * window length minus one) and lowers the declaration named by the value
   * of the window's first token.
   */
  lemma {:induction false} ReductionReplacesSuffix(stack: seq<Token>, len: nat)
    requires len <= |stack| && FindMatch(stack, CheckLen(stack)) == Some(len)
    requires RulePass(stack).Reduced?
    ensures var start := |stack| - len;
      var make := Lookup(Key(Suffix(stack, len))).value.make;
      var r := RulePass(stack);
      stack[start].value.Some? &&
      r.stack[..start] == stack[..start] && |r.stack| == |stack| - len + 1 &&
      r.stack[start] == SyntheticToken(make) &&
      r.node == DeclarationNode(make, stack[start].value.value)
  {
    var start := |stack| - len;
    var make := Lookup(Key(Suffix(stack, len))).value.make;
    ReduceAgrees(stack, len, make);
    var r := RulePass(stack);
    assert r == Reduce(stack, start, make);
    var top := SyntheticToken(make);
    assert r.stack == stack[..start] + [top];
  }

  /** `process_int_declaration`. */
  method ProcessIntDeclaration(stack: seq<Token>, startIdx: nat, tokenMake: string) returns (step: Step)
    requires startIdx < |stack|
    ensures stack[startIdx].value.None? ==> step == Panic
    ensures stack[startIdx].value.Some? ==>
      step == Reduced(stack[..startIdx] + [SyntheticToken(tokenMake)], IntDeclaration(stack[startIdx].value.value))
  {
    var matchedTokens := stack[startIdx..];
    var remaining := stack[..startIdx];
    if matchedTokens[0].value.None? {
      return Panic;
    }
    var name := matchedTokens[0].value.value;
    var node := IntDeclaration(name);
    remaining := remaining + [Token(tokenMake, None, 0, 0)];
    step := Reduced(remaining, node);
  }

  /** `process_bool_declaration`. */
  method ProcessBoolDeclaration(stack: seq<Token>, startIdx: nat, tokenMake: string) returns (step: Step)
    requires startIdx < |stack|
    ensures stack[startIdx].value.None? ==> step == Panic
    ensures stack[startIdx].value.Some? ==>
      step == Reduced(stack[..startIdx] + [SyntheticToken(tokenMake)], BoolDeclaration(stack[startIdx].value.value))
  {
    var matchedTokens := stack[startIdx..];
    var remaining := stack[..startIdx];
    if matchedTokens[0].value.None? {
      return Panic;
    }
    var name := matchedTokens[0].value.value;
    var node := BoolDeclaration(name);
    remaining := remaining + [Token(tokenMake, None, 0, 0)];
    step := Reduced(remaining, node);
  }

  /** A pass that finds the window of length `len` performs that window's reduction. */
  lemma {:induction false} ReduceAgrees(stack: seq<Token>, len: nat, make: string)
    requires 1 <= len <= CheckLen(stack) && FindMatch(stack, CheckLen(stack)) == Some(len)
    requires make == Lookup(Key(Suffix(stack, len))).value.make
    ensures RulePass(stack) == Reduce(stack, |stack| - len, make)
  {
    var r := RulePass(stack);
    assert r == Reduce(stack, |stack| - len, make);
  }

  /** A window that matches ends the scan: the pass reduces it. */
  lemma {:induction false} ScanHit(stack: seq<Token>, len: nat, make: string)
    requires 1 <= len <= CheckLen(stack) && FindMatch(stack, CheckLen(stack)) == FindMatch(stack, len)
    requires Lookup(Key(Suffix(stack, len))).Some? && make == Lookup(Key(Suffix(stack, len))).value.make
    requires Handled(make)
    ensures RulePass(stack) == Reduce(stack, |stack| - len, make)
  {
    assert FindMatch(stack, len) == Some(len);
    ReduceAgrees(stack, len, make);
  }

  /** A window that does not match passes the scan on to the next shorter one. */
  lemma {:induction false} ScanMiss(stack: seq<Token>, len: nat)
    requires 1 <= len <= |stack|
    requires !(Lookup(Key(Suffix(stack, len))).Some? && Handled(Lookup(Key(Suffix(stack, len))).value.make))
    ensures FindMatch(stack, len) == FindMatch(stack, len - 1)
  {
  }

  /** The body of the 'check_rules loop: the `for len` scan from the longest window down. */
  method CheckRules(stack: seq<Token>) returns (step: Step)
    ensures step == RulePass(stack)
  {
    var currentStackLen := |stack|;
    var checkLen := if currentStackLen < MaxRuleLen then currentStackLen else MaxRuleLen;
    var len: nat := checkLen;
    while len >= 1
      invariant len <= checkLen == CheckLen(stack)
      invariant FindMatch(stack, checkLen) == FindMatch(stack, len)
    {
      var startIdx := currentStackLen - len;
      var key := Key(Suffix(stack, len));
      var instruction := Lookup(key);
      if instruction.Some? {
        if instruction.value.make == IntDeclarationKind {
          step := ProcessIntDeclaration(stack, startIdx, instruction.value.make);
          ScanHit(stack, len, instruction.value.make);
          return;
        } else if instruction.value.make == BoolDeclarationKind {
          step := ProcessBoolDeclaration(stack, startIdx, instruction.value.make);
          ScanHit(stack, len, instruction.value.make);
          return;
        }
      }
      ScanMiss(stack, len);
      len := len - 1;
    }
    step := NoReduction;
  }

  // ---------------------------------------------------------------------------
  // The fixpoint after each push, and the whole input

  /** What the parser has done: a final stack and log, or a panic after a log. */
  datatype Outcome = Done(stack: seq<Token>, log: seq<ASTNode>) | Panicked(log: seq<ASTNode>)

  /**
   * The 'check_rules loop: passes until one reduces nothing. On success no
   * window of the final stack matches; the log only grows.
   */
  function Saturate(stack: seq<Token>, log: seq<ASTNode>): (r: Outcome)
    ensures r.Done? ==> RulePass(r.stack) == NoReduction
    ensures log <= r.log
    decreases |stack|, TopRank(stack)
  {
    match RulePass(stack)
    case NoReduction => Done(stack, log)
    case Panic => Panicked(log)
    case Reduced(next, node) => Saturate(next, log + [node])
  }

  /** `codegen` on `tokens`: each token pushed in order, then the stack saturated. */
  function Parse(tokens: seq<Token>): Outcome
    decreases |tokens|
  {
    if tokens == [] then Done([], [])
    else
      match Parse(tokens[..|tokens| - 1])
      case Panicked(log) => Panicked(log)
      case Done(stack, log) => Saturate(stack + [tokens[|tokens| - 1]], log)
  }

  /** Once a prefix panics, the whole input panics with the same log. */
  lemma {:induction false} PanicIsFinal(tokens: seq<Token>, k: nat)
    requires k <= |tokens| && Parse(tokens[..k]).Panicked?
    ensures Parse(tokens) == Parse(tokens[..k])
    decreases |tokens| - k
  {
    if k < |tokens| {
      var next := tokens[..k + 1];
      assert next[..k] == tokens[..k];
      PanicIsFinal(tokens, k + 1);
    } else {
      assert tokens[..k] == tokens;
    }
  }

  /**
   * `codegen` without the LLVM set-up: returns the final stack, the log of
   * lowered declarations, and whether a missing identifier name panicked.
   */
  method Codegen(tokens: seq<Token>) returns (stack: seq<Token>, log: seq<ASTNode>, panicked: bool)
    ensures panicked <==> Parse(tokens).Panicked?
    ensures log == Parse(tokens).log
    ensures !panicked ==> stack == Parse(tokens).stack
    ensures !panicked ==> forall len :: 1 <= len <= CheckLen(stack) ==> !Matches(stack, len)
  {
    stack, log, panicked := [], [], false;
    var idx := 0;
    while idx < |tokens|
      invariant 0 <= idx <= |tokens|
      invariant Parse(tokens[..idx]) == Done(stack, log)
    {
      var token := tokens[idx];
      stack := stack + [token];
      ghost var target := Saturate(stack, log);
      assert tokens[..idx + 1][..idx] == tokens[..idx];
      assert Parse(tokens[..idx + 1]) == target;
      while true
        invariant Saturate(stack, log) == target
        decreases |stack|, TopRank(stack)
      {
        var step := CheckRules(stack);
        match step {
          case NoReduction =>
            break;
          case Panic =>
            panicked := true;
            PanicIsFinal(tokens, idx + 1);
            return;
          case Reduced(next, node) =>
            stack := next;
            log := log + [node];
        }
      }
      idx := idx + 1;
    }
    assert tokens[..idx] == tokens;
    FindMatchLongest(stack, CheckLen(stack));
  }

  // ---------------------------------------------------------------------------
  // Properties of the reducer

  /** The rule keys spelled as joins of their kind names. */
  lemma {:induction false} RuleKeysAreJoins()
    ensures IntKey == Join(["IDENT", "COLON", "INT"])
    ensures BoolKey == Join(["IDENT", "COLON", "BOOL"])
  {
    assert Join(["INT"]) == "INT" && Join(["BOOL"]) == "BOOL";
    assert Join(["COLON", "INT"]) == "COLON INT";
    assert Join(["COLON", "BOOL"]) == "COLON BOOL";
  }

  /** Splitting the rule keys gives their kind names. */
  lemma {:induction false} SplitRuleKeys()
    ensures Split(IntKey) == ["IDENT", "COLON", "INT"]
    ensures Split(BoolKey) == ["IDENT", "COLON", "BOOL"]
  {
    RuleKeysAreJoins();
    var ints: seq<string> := ["IDENT", "COLON", "INT"];
    var bools: seq<string> := ["IDENT", "COLON", "BOOL"];
    assert forall k :: 0 <= k < 3 ==> SpaceFree(ints[k]) && SpaceFree(bools[k]);
    SplitJoin(ints);
    SplitJoin(bools);
  }

  /** Space-free kind names whose join is a rule key are that rule's pattern. */
  lemma {:induction false} JoinedRuleKey(parts: seq<string>)
    requires |parts| >= 1 && forall k :: 0 <= k < |parts| ==> SpaceFree(parts[k])
    requires Join(parts) == IntKey || Join(parts) == BoolKey
    ensures Join(parts) == IntKey ==> parts == ["IDENT", "COLON", "INT"]
    ensures Join(parts) == BoolKey ==> parts == ["IDENT", "COLON", "BOOL"]
  {
    SplitJoin(parts);
    SplitRuleKeys();
  }

  /**
   * With space-free kind names, a matching window is exactly IDENT COLON INT
   * or IDENT COLON BOOL, three tokens long, and its rule makes the
   * corresponding declaration.
   */
  lemma {:induction false} MatchShape(stack: seq<Token>, len: nat)
    requires 1 <= len <= |stack| && KindsSpaceFree(stack) && Matches(stack, len)
    ensures len == 3
    ensures Kinds(Suffix(stack, len)) == ["IDENT", "COLON", "INT"]
         || Kinds(Suffix(stack, len)) == ["IDENT", "COLON", "BOOL"]
    ensures Lookup(Key(Suffix(stack, len))).value.make
         == if Kinds(Suffix(stack, len))[2] == "INT" then IntDeclarationKind else BoolDeclarationKind
  {
    var window := Suffix(stack, len);
    var parts := Kinds(window);
    assert forall k :: 0 <= k < len ==> parts[k] == stack[|stack| - len + k].kind;
    JoinedRuleKey(parts);
  }

  /** With space-free kind names the matched window is always three tokens long. */
  lemma {:induction false} MatchedWindowIsThree(stack: seq<Token>)
    requires KindsSpaceFree(stack) && !RulePass(stack).NoReduction?
    ensures FindMatch(stack, CheckLen(stack)) == Some(3)
  {
    RulePassShape(stack);
    MatchShape(stack, FindMatch(stack, CheckLen(stack)).value);
  }

  /**
   * With space-free kind names every reduction replaces three tokens by one:
   * the stack shrinks by exactly two, and an INT window lowers an integer
   * declaration, a BOOL window a boolean one, named by the IDENT's value.
   */
  lemma {:induction false} ReductionShrinksByTwo(stack: seq<Token>)
    requires KindsSpaceFree(stack) && RulePass(stack).Reduced?
    ensures |stack| >= 3 && |RulePass(stack).stack| == |stack| - 2
    ensures |stack| >= 3 && var w := Suffix(stack, 3);
      w[0].kind == "IDENT" && w[1].kind == "COLON" && w[0].value.Some? &&
      RulePass(stack).node == if w[2].kind == "INT" then IntDeclaration(w[0].value.value)
                              else BoolDeclaration(w[0].value.value)
  {
    MatchedWindowIsThree(stack);
    MatchShape(stack, 3);
    ReductionReplacesSuffix(stack, 3);
    var w := Suffix(stack, 3);
    assert Kinds(w)[0] == w[0].kind && Kinds(w)[1] == w[1].kind && Kinds(w)[2] == w[2].kind;
  }

  /** The stack a reduction leaves: the tokens below the window, then the synthetic token. */
  lemma {:induction false} ReducedStack(stack: seq<Token>, len: nat)
    requires len <= |stack| && FindMatch(stack, CheckLen(stack)) == Some(len)
    requires RulePass(stack).Reduced?
    ensures Handled(Lookup(Key(Suffix(stack, len))).value.make)
    ensures RulePass(stack).stack
         == stack[..|stack| - len] + [SyntheticToken(Lookup(Key(Suffix(stack, len))).value.make)]
  {
    var start := |stack| - len;
    var make := Lookup(Key(Suffix(stack, len))).value.make;
    ReduceAgrees(stack, len, make);
    var r := RulePass(stack);
    assert r == Reduce(stack, start, make);
    var top := SyntheticToken(make);
    assert r.stack == stack[..start] + [top];
  }

  lemma {:induction false} ReplaceKeepsSpaceFree(stack: seq<Token>, start: nat, t: Token)
    requires start <= |stack| && KindsSpaceFree(stack) && SpaceFree(t.kind)
    ensures KindsSpaceFree(stack[..start] + [t])
  {
    var r := stack[..start] + [t];
    forall k | 0 <= k < |r| ensures SpaceFree(r[k].kind) {
      if k < start {
        assert r[k] == stack[k];
      }
    }
  }

  /** A reduction keeps kind names space-free: the synthetic kinds hold no space. */
  lemma {:induction false} ReductionKeepsSpaceFree(stack: seq<Token>)
    requires KindsSpaceFree(stack) && RulePass(stack).Reduced?
    ensures KindsSpaceFree(RulePass(stack).stack)
  {
    MatchedWindowIsThree(stack);
    ReducedStack(stack, 3);
    var make := Lookup(Key(Suffix(stack, 3))).value.make;
    ReplaceKeepsSpaceFree(stack, |stack| - 3, SyntheticToken(make));
  }

  /**
   * A reduction leaves a synthetic token on top, so the next pass matches
   * nothing: each pushed token triggers at most one reduction.
   */
  lemma {:induction false} AtMostOneReduction(stack: seq<Token>)
    requires RulePass(stack).Reduced?
    ensures RulePass(RulePass(stack).stack) == NoReduction
  {
    var next := RulePass(stack).stack;
    SyntheticTopNoMatch(next);
    RulePassShape(next);
  }

  /**
   * Running the loop on a stack no window of which matches leaves it
   * unchanged, and running it again on its own result changes nothing.
   */
  lemma {:induction false} SaturateIdempotent(stack: seq<Token>, log: seq<ASTNode>)
    ensures RulePass(stack) == NoReduction ==> Saturate(stack, log) == Done(stack, log)
    ensures Saturate(stack, log).Done? ==>
      Saturate(Saturate(stack, log).stack, Saturate(stack, log).log) == Saturate(stack, log)
  {
  }

  /**
   * With space-free kinds the loop conserves the number of input tokens it
   * accounts for: each reduction removes two tokens and logs one declaration.
   */
  lemma {:induction false} SaturateConserves(stack: seq<Token>, log: seq<ASTNode>)
    requires KindsSpaceFree(stack)
    ensures Saturate(stack, log).Done? ==>
      KindsSpaceFree(Saturate(stack, log).stack) &&
      |Saturate(stack, log).stack| + 2 * |Saturate(stack, log).log| == |stack| + 2 * |log|
    decreases |stack|, TopRank(stack)
  {
    var step := RulePass(stack);
    if step.Reduced? {
      ReductionShrinksByTwo(stack);
      ReductionKeepsSpaceFree(stack);
      SaturateConserves(step.stack, log + [step.node]);
    }
  }

  /** The tokens that `codegen` pushes, `tokens[..k]`, with space-free kinds. */
  lemma {:induction false} PrefixSpaceFree(tokens: seq<Token>, k: nat)
    requires k <= |tokens| && KindsSpaceFree(tokens)
    ensures KindsSpaceFree(tokens[..k])
  {
    assert forall j :: 0 <= j < k ==> tokens[..k][j] == tokens[j];
  }

  /**
   * Every input token is consumed exactly once: with space-free kinds, the
   * final stack plus two tokens per lowered declaration accounts for every
   * input token.
   */
  lemma {:induction false} ParseConserves(tokens: seq<Token>)
    requires KindsSpaceFree(tokens)
    ensures Parse(tokens).Done? ==>
      KindsSpaceFree(Parse(tokens).stack) &&
      |Parse(tokens).stack| + 2 * |Parse(tokens).log| == |tokens|
    decreases |tokens|
  {
    if tokens != [] {
      var n := |tokens|;
      PrefixSpaceFree(tokens, n - 1);
      ParseConserves(tokens[..n - 1]);
      var before := Parse(tokens[..n - 1]);
      if before.Done? {
        var pushed := before.stack + [tokens[n - 1]];
        assert forall j :: 0 <= j < |pushed| ==>
          pushed[j] == if j < |before.stack| then before.stack[j] else tokens[n - 1];
        SaturateConserves(pushed, before.log);
      }
    }
  }

  /** Every IDENT token carries its name. */
  predicate IdentsNamed(ts: seq<Token>) {
    forall k :: 0 <= k < |ts| ==> ts[k].kind == "IDENT" ==> ts[k].value.Some?
  }

  lemma {:induction false} ReplaceKeepsNamed(stack: seq<Token>, start: nat, t: Token)
    requires start <= |stack| && IdentsNamed(stack) && t.kind != "IDENT"
    ensures IdentsNamed(stack[..start] + [t])
  {
    var r := stack[..start] + [t];
    forall k | 0 <= k < |r| && r[k].kind == "IDENT" ensures r[k].value.Some? {
      assert r[k] == stack[k];
    }
  }

  /** A pass over a stack whose IDENTs are named never panics and keeps them named. */
  lemma {:induction false} NamedPassNeverPanics(stack: seq<Token>)
    requires KindsSpaceFree(stack) && IdentsNamed(stack)
    ensures !RulePass(stack).Panic?
    ensures RulePass(stack).Reduced? ==>
      KindsSpaceFree(RulePass(stack).stack) && IdentsNamed(RulePass(stack).stack)
  {
    if !RulePass(stack).NoReduction? {
      var n := |stack|;
      ActingPassHasTopRun(stack);
      assert stack[n - 3].value.Some?;
      MatchedWindowIsThree(stack);
      RulePassShape(stack);
      if RulePass(stack).Reduced? {
        ReductionKeepsSpaceFree(stack);
        ReducedStack(stack, 3);
        var make := Lookup(Key(Suffix(stack, 3))).value.make;
        ReplaceKeepsNamed(stack, n - 3, SyntheticToken(make));
      }
    }
  }

  lemma {:induction false} NamedSaturateNeverPanics(stack: seq<Token>, log: seq<ASTNode>)
    requires KindsSpaceFree(stack) && IdentsNamed(stack)
    ensures Saturate(stack, log).Done?
    ensures KindsSpaceFree(Saturate(stack, log).stack) && IdentsNamed(Saturate(stack, log).stack)
    decreases |stack|, TopRank(stack)
  {
    NamedPassNeverPanics(stack);
    var step := RulePass(stack);
    if step.Reduced? {
      NamedSaturateNeverPanics(step.stack, log + [step.node]);
    }
  }

  /**
   * The `expect` on the identifier's value never fires when every IDENT token
   * carries its name and no kind name holds a space.
   */
  lemma {:induction false} NamedIdentsNeverPanic(tokens: seq<Token>)
    requires KindsSpaceFree(tokens) && IdentsNamed(tokens)
    ensures Parse(tokens).Done?
    ensures KindsSpaceFree(Parse(tokens).stack) && IdentsNamed(Parse(tokens).stack)
    decreases |tokens|
  {
    if tokens != [] {
      var n := |tokens|;
      var prefix := tokens[..n - 1];
      assert forall j :: 0 <= j < n - 1 ==> prefix[j] == tokens[j];
      NamedIdentsNeverPanic(prefix);
      var before := Parse(prefix);
      var pushed := before.stack + [tokens[n - 1]];
      assert forall j :: 0 <= j < |pushed| ==>
        pushed[j] == if j < |before.stack| then before.stack[j] else tokens[n - 1];
      NamedSaturateNeverPanics(pushed, before.log);
    }
  }

  /** The three tokens from `k` on spell IDENT COLON INT or IDENT COLON BOOL. */
  predicate RuleRunAt(ts: seq<Token>, k: nat)
    requires k + 3 <= |ts|
  {
    ts[k].kind == "IDENT" && ts[k + 1].kind == "COLON" && (ts[k + 2].kind == "INT" || ts[k + 2].kind == "BOOL")
  }

  /** No run of three consecutive tokens in `ts` is a rule run. */
  predicate PatternFree(ts: seq<Token>)
    decreases |ts|
  {
    |ts| < 3 || (!RuleRunAt(ts, |ts| - 3) && PatternFree(ts[..|ts| - 1]))
  }

  /** A rule run on top of the stack matches as a window of three. */
  lemma {:induction false} TopRunMatches(stack: seq<Token>)
    requires |stack| >= 3 && RuleRunAt(stack, |stack| - 3)
    ensures Matches(stack, 3)
  {
    var w := Suffix(stack, 3);
    var n := |stack|;
    assert Kinds(w) == [stack[n - 3].kind, stack[n - 2].kind, stack[n - 1].kind];
    RuleKeysAreJoins();
    assert Key(w) == IntKey || Key(w) == BoolKey;
  }

  /** A top window whose kinds are a rule pattern is a rule run. */
  lemma {:induction false} RuleKindsAreRun(stack: seq<Token>)
    requires |stack| >= 3
    requires Kinds(Suffix(stack, 3)) == ["IDENT", "COLON", "INT"] || Kinds(Suffix(stack, 3)) == ["IDENT", "COLON", "BOOL"]
    ensures RuleRunAt(stack, |stack| - 3)
  {
    var n := |stack|;
    var w := Suffix(stack, 3);
    var ks := Kinds(w);
    assert ks[0] == w[0].kind == stack[n - 3].kind;
    assert ks[1] == w[1].kind == stack[n - 2].kind;
    assert ks[2] == w[2].kind == stack[n - 1].kind;
  }

  /** With space-free kind names a pass that acts found a rule run on top. */
  lemma {:induction false} ActingPassHasTopRun(stack: seq<Token>)
    requires KindsSpaceFree(stack)
    ensures !RulePass(stack).NoReduction? ==> |stack| >= 3 && RuleRunAt(stack, |stack| - 3)
  {
    if !RulePass(stack).NoReduction? {
      MatchedWindowIsThree(stack);
      MatchShape(stack, 3);
      RuleKindsAreRun(stack);
    }
  }

  /**
   * With space-free kind names a pass reduces (or panics) exactly when the
   * top three tokens are a rule run.
   */
  lemma {:induction false} PassActsIffTopRun(stack: seq<Token>)
    requires KindsSpaceFree(stack)
    ensures !RulePass(stack).NoReduction? <==> |stack| >= 3 && RuleRunAt(stack, |stack| - 3)
  {
    ActingPassHasTopRun(stack);
    if |stack| >= 3 && RuleRunAt(stack, |stack| - 3) {
      TopRunMatches(stack);
      RulePassShape(stack);
    }
  }

  /**
   * An input holding no rule pattern is never reduced: every token stays on
   * the stack in input order and nothing is lowered.
   */
  lemma {:induction false} PatternFreeInputStays(tokens: seq<Token>)
    requires KindsSpaceFree(tokens) && PatternFree(tokens)
    ensures Parse(tokens) == Done(tokens, [])
    decreases |tokens|
  {
    if tokens != [] {
      var n := |tokens|;
      var prefix := tokens[..n - 1];
      assert forall j :: 0 <= j < n - 1 ==> prefix[j] == tokens[j];
      PatternFreeInputStays(prefix);
      assert prefix + [tokens[n - 1]] == tokens;
      PassActsIffTopRun(tokens);
    }
  }

  /** The make of the rule whose third kind is `kind`. */
  function MakeFor(kind: string): (make: string)
    ensures Handled(make)
    ensures make == IntDeclarationKind <==> kind == "INT"
  {
    if kind == "INT" then IntDeclarationKind else BoolDeclarationKind
  }

  /** Two tokens never reduce. */
  lemma {:induction false} TwoTokensStay(ident: Token, colon: Token)
    requires SpaceFree(ident.kind) && SpaceFree(colon.kind)
    ensures Parse([ident, colon]) == Done([ident, colon], [])
  {
    assert [ident, colon][..1] == [ident];
    assert PatternFree([ident, colon]) && KindsSpaceFree([ident, colon]);
    PatternFreeInputStays([ident, colon]);
  }

  /** The pass over IDENT COLON INT/BOOL reduces all three tokens, or panics on a missing name. */
  lemma {:induction false} RuleRunPass(three: seq<Token>)
    requires |three| == 3 && RuleRunAt(three, 0)
    ensures var make := MakeFor(three[2].kind);
      RulePass(three) == (match three[0].value
        case None => Panic
        case Some(x) => Reduced([SyntheticToken(make)], DeclarationNode(make, x)))
  {
    TopRunMatches(three);
    assert FindMatch(three, CheckLen(three)) == Some(3);
    assert Suffix(three, 3) == three;
    RuleKeysAreJoins();
    assert Kinds(three) == ["IDENT", "COLON", three[2].kind];
    var make := Lookup(Key(Suffix(three, 3))).value.make;
    assert make == MakeFor(three[2].kind);
    ReduceAgrees(three, 3, make);
    assert three[..0] == [];
  }

  /** The three-token walk shared by the examples below. */
  lemma {:induction false} DeclarationStep(ident: Token, colon: Token, last: Token)
    requires ident.kind == "IDENT" && colon.kind == "COLON" && (last.kind == "INT" || last.kind == "BOOL")
    ensures Parse([ident, colon]) == Done([ident, colon], [])
    ensures var make := MakeFor(last.kind);
      Parse([ident, colon, last]) == (match ident.value
        case None => Panicked([])
        case Some(x) => Done([SyntheticToken(make)], [DeclarationNode(make, x)]))
  {
    var three := [ident, colon, last];
    TwoTokensStay(ident, colon);
    assert three[..2] == [ident, colon];
    assert [ident, colon] + [last] == three;
    assert Parse(three) == Saturate(three, []);
    RuleRunPass(three);
    if ident.value.Some? {
      var make := MakeFor(last.kind);
      var node := DeclarationNode(make, ident.value.value);
      AtMostOneReduction(three);
      assert Saturate(three, []) == Saturate([SyntheticToken(make)], [node]);
    }
  }

  /**
   * Feeding IDENT(x) COLON INT reduces once, on the third token: the stack
   * holds one INT_DECLARATION token and one integer declaration of x is lowered.
   */
  lemma {:induction false} DeclareInt(x: string)
    ensures var ident := Token("IDENT", Some(x), 1, 1);
      var colon := Token("COLON", None, 1, 2);
      var intToken := Token("INT", None, 1, 4);
      Parse([ident, colon]) == Done([ident, colon], []) &&
      Parse([ident, colon, intToken]) == Done([SyntheticToken(IntDeclarationKind)], [IntDeclaration(x)])
  {
    DeclarationStep(Token("IDENT", Some(x), 1, 1), Token("COLON", None, 1, 2), Token("INT", None, 1, 4));
  }

  /** Feeding IDENT(x) COLON BOOL lowers one boolean declaration of x. */
  lemma {:induction false} DeclareBool(x: string)
    ensures var ident := Token("IDENT", Some(x), 1, 1);
      Parse([ident, Token("COLON", None, 1, 2), Token("BOOL", None, 1, 4)])
        == Done([SyntheticToken(BoolDeclarationKind)], [BoolDeclaration(x)])
  {
    DeclarationStep(Token("IDENT", Some(x), 1, 1), Token("COLON", None, 1, 2), Token("BOOL", None, 1, 4));
  }

  /** An IDENT without a value makes the reduction panic before anything is lowered. */
  lemma {:induction false} MissingNamePanics()
    ensures Parse([Token("IDENT", None, 1, 1), Token("COLON", None, 1, 2), Token("INT", None, 1, 4)])
         == Panicked([])
  {
    DeclarationStep(Token("IDENT", None, 1, 1), Token("COLON", None, 1, 2), Token("INT", None, 1, 4));
  }
}
