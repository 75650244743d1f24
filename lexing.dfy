/** The tokeniser of tokeniser.rb: an ordered table of prefix rules, tried in
    order at the current position; the first rule that matches wins, its first
    capture becomes the token's value, spaces and comments are consumed without
    leaving a token, and the matched prefix is removed. */
module Lexing {
  import opened Wrappers

  /** The token types. `Eq` is the type the parser's assignment branch looks for;
      no rule of the grammar produces it. */
  datatype TokenType =
    | Comment | BracketOpen | BracketClose | Comma | EndStatement
    | Use | Import | When | Loop
    | InfixOperator
    | BlockOpen | BlockClose
    | StringLit | Number | Boolean
    | Identifier | Space
    | Eq

  /** The rules of GRAMMAR, in the order they are tried. */
  const Grammar: seq<TokenType> := BeforeIdentifier + [Identifier, Space]

  /** A token: its type and the rule's first capture group (None when the rule has none). */
  datatype Token = Token(kind: TokenType, value: Option<string>)

  /** The types with a SPECIAL_BEHAVIOURS entry: the pushed token is popped again. */
  predicate IsSilent(k: TokenType) {
    k == Space || k == Comment
  }

  /** Ruby's `\s`: space, tab, line feed, carriage return, form feed, vertical tab. */
  predicate IsWhitespace(c: char) {
    c == ' ' || c == '\t' || c == '\n' || c == '\r' || c == '\U{0C}' || c == '\U{0B}'
  }

  predicate IsDigit(c: char) {
    '0' <= c <= '9'
  }

  /** The character classes that the rules repeat. */
  datatype CharClass = NotNewline | NotQuote | Digit | IdentifierChar | Whitespace

  predicate InClass(c: char, cls: CharClass) {
    match cls
    case NotNewline => c != '\n'
    case NotQuote => c != '"'
    case Digit => IsDigit(c)
    case Whitespace => IsWhitespace(c)
    case IdentifierChar => !(IsExcludedPunctuation(c) || IsDigit(c) || IsWhitespace(c))
  }

  /** The punctuation the identifier rule excludes: `# ( ) , ; + - * / . = | > { } "`. */
  predicate IsExcludedPunctuation(c: char) {
    c == '#' || c == '(' || c == ')' || c == ',' || c == ';' || c == '+' || c == '-' ||
    c == '*' || c == '/' || c == '.' || c == '=' || c == '|' || c == '>' || c == '{' ||
    c == '}' || c == '"'
  }

  /** The length of the longest prefix of `s` made of characters of `cls`:
      what a greedy `[...]*` consumes. */
  function Span(s: string, cls: CharClass): (n: nat)
    ensures n <= |s|
  {
    if s == [] || !InClass(s[0], cls) then 0 else 1 + Span(s[1..], cls)
  }

  /** Span is the longest such prefix: all of it is in the class, and the
      character after it (if any) is not. */
  lemma {:induction false} SpanIsLongest(s: string, cls: CharClass)
    ensures forall i :: 0 <= i < Span(s, cls) ==> InClass(s[i], cls)
    ensures Span(s, cls) < |s| ==> !InClass(s[Span(s, cls)], cls)
  {
    if s != [] && InClass(s[0], cls) {
      SpanIsLongest(s[1..], cls);
      forall i | 0 <= i < Span(s, cls) ensures InClass(s[i], cls) {
        if i > 0 {
          assert s[i] == s[1..][i - 1];
        }
      }
    }
  }

  /** A successful rule match: how many characters it consumes and its first capture. */
  datatype Match = Match(length: nat, capture: Option<string>)

  /** A rule that is a fixed text and has no capture group. */
  function Literal(lit: string, s: string): Option<Match> {
    if lit <= s then Some(Match(|lit|, None)) else None
  }

  /** A rule `[...]+`, captured as a whole or not at all. */
  function Run(s: string, cls: CharClass, captured: bool): Option<Match> {
    var n := Span(s, cls);
    if n == 0 then None else Some(Match(n, if captured then Some(s[..n]) else None))
  }

  /** The alternatives of the infix-operator rule, in the order the regex tries them. */
  const InfixOperators: seq<string> := SymbolOperators + WordOperators

  const SymbolOperators: seq<string> := ["+", "-", "*", "/", ".", "="]

  const WordOperators: seq<string> := ["eq", "or", "and"]

  const Booleans: seq<string> := ["true", "false"]

  /** A captured alternation `(a|b|...)`: the first alternative that is a prefix of `s`. */
  function Alternatives(alts: seq<string>, s: string): (r: Option<Match>)
    ensures r.Some? ==> r.value.capture.Some? && r.value.capture.value in alts
    ensures r.Some? ==> r.value.capture.value <= s && r.value.length == |r.value.capture.value|
    ensures r.None? ==> forall i :: 0 <= i < |alts| ==> !(alts[i] <= s)
  {
    if alts == [] then None
    else if alts[0] <= s then Some(Match(|alts[0]|, Some(alts[0])))
    else Alternatives(alts[1..], s)
  }

  /** The shapes of the regexes in GRAMMAR. */
  datatype Pattern =
    | Exactly(text: string)                  // a fixed text, no capture group
    | Captured(alts: seq<string>)            // `(a|b|...)`
    | Repeated(cls: CharClass, captured: bool) // `[...]+` or `([...]+)`
    | CommentPattern                         // `#([^\n]*)`
    | StringPattern                          // `"([^"]*)"`
    | Nothing                                // no rule

  /** GRAMMAR: the regex of each token type. */
  function PatternOf(k: TokenType): Pattern {
    match k
    case Comment => CommentPattern
    case BracketOpen => Exactly("(")
    case BracketClose => Exactly(")")
    case Comma => Exactly(",")
    case EndStatement => Exactly(";")
    case Use => Exactly("use")
    case Import => Exactly("import")
    case When => Exactly("when")
    case Loop => Exactly("loop")
    case InfixOperator => Captured(InfixOperators)
    case BlockOpen => Exactly("{")
    case BlockClose => Exactly("}")
    case StringLit => StringPattern
    case Number => Repeated(Digit, true)
    case Boolean => Captured(Booleans)
    case Identifier => Repeated(IdentifierChar, true)
    case Space => Repeated(Whitespace, false)
    case Eq => Nothing
  }

  /** Whether a pattern matches at the start of `s`, and how. */
  function MatchPattern(p: Pattern, s: string): Option<Match> {
    match p
    case Exactly(text) => Literal(text, s)
    case Captured(alts) => Alternatives(alts, s)
    case Repeated(cls, captured) => Run(s, cls, captured)
    case CommentPattern =>
      if |s| > 0 && s[0] == '#' then
        var n := Span(s[1..], NotNewline);
        Some(Match(n + 1, Some(s[1..n + 1])))
      else None
    case StringPattern =>
      if |s| > 0 && s[0] == '"' then
        var n := Span(s[1..], NotQuote);
        if n + 1 < |s| then Some(Match(n + 2, Some(s[1..n + 1]))) else None
      else None
    case Nothing => None
  }

  /** Whether the rule for `k` matches at the start of `s`, and how; every match
      consumes at least one character. */
  function MatchRule(k: TokenType, s: string): (r: Option<Match>)
    ensures r.Some? ==> 1 <= r.value.length <= |s|
  {
    MatchPattern(PatternOf(k), s)
  }

  /** The first of `rules` that matches `s`, as its index into `rules`. */
  function FindRule(rules: seq<TokenType>, s: string): (r: Option<(nat, Match)>)
    ensures r.Some? ==> r.value.0 < |rules| && MatchRule(rules[r.value.0], s) == Some(r.value.1)
    ensures r.Some? ==> forall j :: 0 <= j < r.value.0 ==> MatchRule(rules[j], s).None?
    ensures r.None? ==> forall j :: 0 <= j < |rules| ==> MatchRule(rules[j], s).None?
  {
    if rules == [] then None
    else match MatchRule(rules[0], s)
      case Some(m) => Some((0, m))
      case None =>
        match FindRule(rules[1..], s)
        case None => None
        case Some((i, m)) => Some((i + 1, m))
  }

  /** `GRAMMAR.find`: the type and match of the first rule that matches `s`. */
  function FirstMatch(s: string): Option<(TokenType, Match)> {
    match FindRule(Grammar, s)
    case None => None
    case Some((i, m)) => Some((Grammar[i], m))
  }

  /** What one step appends to the token list: the token, unless its type is silent. */
  function Emitted(k: TokenType, m: Match): seq<Token> {
    if IsSilent(k) then [] else [Token(k, m.capture)]
  }

  /** The tokens of `s`, or the unconsumed remainder at which no rule matches. */
  function Tokenise(s: string): Result<seq<Token>, string>
    decreases |s|
  {
    if s == [] then Ok([])
    else match FirstMatch(s)
      case None => Err(s)
      case Some((k, m)) =>
        var rest :- Tokenise(s[m.length..]);
        Ok(Emitted(k, m) + rest)
  }

  /** Tokens already produced, in front of the outcome for the rest of the input. */
  function Prepend(done: seq<Token>, r: Result<seq<Token>, string>): Result<seq<Token>, string> {
    match r
    case Ok(ts) => Ok(done + ts)
    case Err(e) => Err(e)
  }

  lemma FindRuleAt(rules: seq<TokenType>, s: string, i: nat, m: Match)
    requires i < |rules| && MatchRule(rules[i], s) == Some(m)
    requires forall j :: 0 <= j < i ==> MatchRule(rules[j], s).None?
    ensures FindRule(rules, s) == Some((i, m))
  {
    match FindRule(rules, s)
    case None =>
    case Some((i', m')) =>
      if i' < i {
      } else if i < i' {
      }
  }

  /** One step of the tokeniser: the first matching rule's token, then the rest. */
  lemma TokeniseStep(s: string, i: nat, m: Match)
    requires i < |Grammar| && MatchRule(Grammar[i], s) == Some(m)
    requires forall j :: 0 <= j < i ==> MatchRule(Grammar[j], s).None?
    ensures FirstMatch(s) == Some((Grammar[i], m))
    ensures Tokenise(s) == Prepend(Emitted(Grammar[i], m), Tokenise(s[m.length..]))
  {
    FindRuleAt(Grammar, s, i, m);
  }

  lemma PrependTwice(a: seq<Token>, b: seq<Token>, r: Result<seq<Token>, string>)
    ensures Prepend(a, Prepend(b, r)) == Prepend(a + b, r)
  {
    if r.Ok? {
      assert a + (b + r.value) == (a + b) + r.value;
    }
  }

  /** `GRAMMAR.find`: try the rules in order until one matches. */
  method FindFirstRule(s: string) returns (r: Option<(nat, Match)>)
    ensures r == FindRule(Grammar, s)
  {
    var i := 0;
    while i < |Grammar|
      invariant 0 <= i <= |Grammar|
      invariant forall j :: 0 <= j < i ==> MatchRule(Grammar[j], s).None?
    {
      var m := MatchRule(Grammar[i], s);
      if m.Some? {
        FindRuleAt(Grammar, s, i, m.value);
        return Some((i, m.value));
      }
      i := i + 1;
    }
    r := None;
  }

  /** A matching step keeps the loop's relation between the tokens so far and the rest. */
  lemma StepKeepsProgress(input: string, before: seq<Token>, s: string, i: nat, m: Match)
    requires FindRule(Grammar, s) == Some((i, m))
    requires Tokenise(input) == Prepend(before, Tokenise(s))
    ensures i < |Grammar| && m.length <= |s|
    ensures Tokenise(input) == Prepend(before + Emitted(Grammar[i], m), Tokenise(s[m.length..]))
  {
    TokeniseStep(s, i, m);
    PrependTwice(before, Emitted(Grammar[i], m), Tokenise(s[m.length..]));
  }

  lemma PrependNothing(r: Result<seq<Token>, string>)
    ensures Prepend([], r) == r
  {
    if r.Ok? {
      assert [] + r.value == r.value;
    }
  }

  lemma PrependDone(done: seq<Token>)
    ensures Prepend(done, Tokenise([])) == Ok(done)
  {
    assert done + [] == done;
  }

  lemma StuckFails(s: string)
    requires s != [] && FindRule(Grammar, s).None?
    ensures Tokenise(s) == Err(s)
  {
  }

  /** Pushing a token and popping it again when its type is silent adds what Emitted says. */
  lemma PushPop(before: seq<Token>, k: TokenType, m: Match)
    ensures (if IsSilent(k) then (before + [Token(k, m.capture)])[..|before|] else before + [Token(k, m.capture)])
            == before + Emitted(k, m)
  {
    if IsSilent(k) {
      assert (before + [Token(k, m.capture)])[..|before|] == before;
    }
  }

  /** Tokeniser#process: the stepwise loop, pushing each token and popping it
      again for spaces and comments, until the input is used up or stuck. */
  method Process(input: string) returns (r: Result<seq<Token>, string>)
    ensures r == Tokenise(input)
  {
    var tokens: seq<Token> := [];
    var rest := input;
    PrependNothing(Tokenise(input));
    while true
      invariant Tokenise(input) == Prepend(tokens, Tokenise(rest))
      decreases |rest|
    {
      var atStart := rest;
      var found := FindFirstRule(rest);
      if found.Some? {
        var (i, m) := found.value;
        StepKeepsProgress(input, tokens, rest, i, m);
        PushPop(tokens, Grammar[i], m);
        ghost var next := tokens + Emitted(Grammar[i], m);
        tokens := tokens + [Token(Grammar[i], m.capture)];
        if IsSilent(Grammar[i]) {
          tokens := tokens[..|tokens| - 1];
        }
        assert tokens == next;
        rest := rest[m.length..];
      }
      if rest == [] {
        PrependDone(tokens);
        return Ok(tokens);
      }
      if rest == atStart {
        StuckFails(rest);
        return Err(rest);
      }
    }
  }

  /** A Tokeniser object: `tokens` memoises the result of `process`; a failing
      run raises and leaves nothing memoised. */
  class Tokeniser {
    const initialInput: string
    var memo: Option<seq<Token>>

    ghost predicate Valid()
      reads this
    {
      memo.Some? ==> Tokenise(initialInput) == Ok(memo.value)
    }

    constructor (input: string)
      ensures Valid() && initialInput == input && memo == None
    {
      initialInput := input;
      memo := None;
    }

    method Tokens() returns (r: Result<seq<Token>, string>)
      requires Valid()
      modifies this
      ensures Valid()
      ensures r == Tokenise(initialInput)
      ensures memo == if r.Ok? then Some(r.value) else old(memo)
    {
      if memo.Some? {
        return Ok(memo.value);
      }
      r := Process(initialInput);
      if r.Ok? {
        memo := Some(r.value);
      }
    }
  }

  /** Tokeniser.tokenise: tokenise a whole text with a fresh tokeniser. */
  method TokeniseText(input: string) returns (r: Result<seq<Token>, string>)
    ensures r == Tokenise(input)
  {
    var t := new Tokeniser(input);
    r := t.Tokens();
  }

  // ---------------------------------------------------------------------------
  // Properties of the tokens produced.

  /** The shape every emitted token has: never a space, a comment or `Eq`; the
      value present exactly for the rules with a capture group; a string's value
      without quotes, a number's the digit run, an identifier's a run of
      identifier characters (so no digits, whitespace or excluded punctuation). */
  predicate WellFormed(t: Token) {
    match t.kind
    case Space => false
    case Comment => false
    case Eq => false
    case StringLit => t.value.Some? && '"' !in t.value.value
    case Number =>
      t.value.Some? && |t.value.value| > 0 && forall c :: c in t.value.value ==> IsDigit(c)
    case Identifier =>
      t.value.Some? && |t.value.value| > 0 && forall c :: c in t.value.value ==> InClass(c, IdentifierChar)
    case InfixOperator => t.value.Some? && t.value.value in InfixOperators
    case Boolean => t.value.Some? && t.value.value in Booleans
    case _ => t.value.None?
  }

  lemma SpanPrefix(s: string, cls: CharClass)
    ensures forall c :: c in s[..Span(s, cls)] ==> InClass(c, cls)
  {
    var n := Span(s, cls);
    SpanIsLongest(s, cls);
    forall c | c in s[..n] ensures InClass(c, cls) {
      var i :| 0 <= i < n && s[..n][i] == c;
    }
  }

  lemma MatchWellFormed(k: TokenType, s: string)
    requires k in Grammar && !IsSilent(k) && MatchRule(k, s).Some?
    ensures WellFormed(Token(k, MatchRule(k, s).value.capture))
  {
    match k
    case StringLit =>
      SpanPrefix(s[1..], NotQuote);
      assert s[1..][..Span(s[1..], NotQuote)] == s[1..Span(s[1..], NotQuote) + 1];
    case Number => SpanPrefix(s, Digit);
    case Identifier => SpanPrefix(s, IdentifierChar);
    case _ =>
  }

  /** Every token of a successful run has the shape WellFormed describes. */
  lemma {:induction false} TokensWellFormed(s: string)
    ensures Tokenise(s).Ok? ==> forall i :: 0 <= i < |Tokenise(s).value| ==> WellFormed(Tokenise(s).value[i])
    decreases |s|
  {
    if s != [] && FirstMatch(s).Some? {
      var (k, m) := FirstMatch(s).value;
      var j := FindRule(Grammar, s).value.0;
      assert Grammar[j] in Grammar;
      TokensWellFormed(s[m.length..]);
      if !IsSilent(k) {
        MatchWellFormed(k, s);
      }
    }
  }

  /** A failed run reports a non-empty remainder of the input at which no rule matches. */
  lemma {:induction false} FailureIsStuckRemainder(s: string)
    ensures Tokenise(s).Err? ==>
      var rest := Tokenise(s).error;
      0 < |rest| <= |s| && rest == s[|s| - |rest|..] && FirstMatch(rest).None?
    decreases |s|
  {
    if s != [] && FirstMatch(s).Some? {
      var (k, m) := FirstMatch(s).value;
      FailureIsStuckRemainder(s[m.length..]);
      var t := s[m.length..];
      if Tokenise(t).Err? {
        var rest := Tokenise(t).error;
        assert t[|t| - |rest|..] == s[|s| - |rest|..];
      }
    }
  }

  /** Conversely, input at which no rule matches fails with all of it as the remainder,
      and empty input gives no tokens. */
  lemma StuckInputFails(s: string)
    ensures s == [] ==> Tokenise(s) == Ok([])
    ensures s != [] && FirstMatch(s).None? ==> Tokenise(s) == Err(s)
  {
  }

  /** `use` is tried before the identifier rule, with no word-boundary check. */
  lemma UseBeatsIdentifier(s: string)
    requires "use" <= s
    ensures FirstMatch(s) == Some((Use, Match(3, None)))
  {
    PrefixHead("use", s);
    EarlierRulesFail(s, 5);
    FindRuleAt(Grammar, s, 5, Match(3, None));
  }

  /** `import` is tried before the identifier rule, with no word-boundary check. */
  lemma ImportBeatsIdentifier(s: string)
    requires "import" <= s
    ensures FirstMatch(s) == Some((Import, Match(6, None)))
  {
    PrefixHead("import", s);
    EarlierRulesFail(s, 6);
    FindRuleAt(Grammar, s, 6, Match(6, None));
  }

  /** Rules that cannot start with the first character of `s` do not match it. */
  lemma EarlierRulesFail(s: string, i: nat)
    requires |s| > 0 && i <= |Grammar|
    requires forall j :: 0 <= j < i ==> !CanStart(Grammar[j], s[0])
    ensures forall j :: 0 <= j < i ==> MatchRule(Grammar[j], s).None?
  {
    forall j | 0 <= j < i ensures MatchRule(Grammar[j], s).None? {
      MatchStartsWith(Grammar[j], s);
    }
  }

  lemma {:induction false} AlternativesSkip(pre: seq<string>, post: seq<string>, s: string)
    requires forall a :: a in pre ==> !(a <= s)
    ensures Alternatives(pre + post, s) == Alternatives(post, s)
  {
    if pre != [] {
      var all := pre + post;
      assert all[0] == pre[0];
      assert all[1..] == pre[1..] + post;
      assert pre[0] in pre;
      assert !(all[0] <= s);
      assert Alternatives(all, s) == Alternatives(all[1..], s);
      forall a | a in pre[1..] ensures !(a <= s) {
        assert a in pre;
      }
      AlternativesSkip(pre[1..], post, s);
    } else {
      assert pre + post == post;
    }
  }

  /** The word operators `eq`, `or` and `and` are tried before the identifier rule. */
  lemma WordOperatorBeatsIdentifier(s: string, w: string)
    requires w in WordOperators && w <= s
    ensures FirstMatch(s) == Some((InfixOperator, Match(|w|, Some(w))))
  {
    WordOperatorMatches(s, w);
    PrefixHead(w, s);
    EarlierRulesFail(s, 9);
    FindRuleAt(Grammar, s, 9, Match(|w|, Some(w)));
  }

  lemma WordOperatorMatches(s: string, w: string)
    requires w in WordOperators && w <= s
    ensures Alternatives(InfixOperators, s) == Some(Match(|w|, Some(w)))
  {
    PrefixHead(w, s);
    forall a | a in SymbolOperators ensures !(a <= s) {
      if a <= s {
        PrefixHead(a, s);
      }
    }
    AlternativesSkip(SymbolOperators, WordOperators, s);
    if w != "eq" {
      assert !("eq" <= s) by { if "eq" <= s { PrefixHead("eq", s); } }
    }
    if w == "and" {
      assert !("or" <= s) by { if "or" <= s { PrefixHead("or", s); } }
    }
  }

  /** The rules tried before the identifier rule, which comes last but for spaces. */
  const BeforeIdentifier: seq<TokenType> :=
    [Comment, BracketOpen, BracketClose, Comma, EndStatement,
     Use, Import, When, Loop,
     InfixOperator,
     BlockOpen, BlockClose,
     StringLit, Number, Boolean]

  lemma {:induction false} FindRuleAfter(pre: seq<TokenType>, post: seq<TokenType>, s: string)
    requires forall k :: k in pre ==> MatchRule(k, s).None?
    ensures FindRule(pre + post, s) ==
      match FindRule(post, s)
      case None => None
      case Some((i, m)) => Some((i + |pre|, m))
  {
    if pre != [] {
      var all := pre + post;
      assert all[0] == pre[0];
      assert MatchRule(all[0], s).None?;
      assert all[1..] == pre[1..] + post;
      forall k | k in pre[1..] ensures MatchRule(k, s).None? {
        assert k in pre;
      }
      FindRuleAfter(pre[1..], post, s);
      var tail := FindRule(all[1..], s);
      if FindRule(post, s).None? {
        assert tail.None?;
      } else {
        var (i, m) := FindRule(post, s).value;
        assert tail == Some((i + |pre| - 1, m));
        assert FindRule(all, s) == Some((i + |pre|, m));
      }
    } else {
      assert pre + post == post;
    }
  }

  /** The characters a match of each rule can start with. */
  predicate CanStart(k: TokenType, c: char) {
    match k
    case Comment => c == '#'
    case BracketOpen => c == '('
    case BracketClose => c == ')'
    case Comma => c == ','
    case EndStatement => c == ';'
    case Use => c == 'u'
    case Import => c == 'i'
    case When => c == 'w'
    case Loop => c == 'l'
    case InfixOperator => c in "+-*/.=eoa"
    case BlockOpen => c == '{'
    case BlockClose => c == '}'
    case StringLit => c == '"'
    case Number => IsDigit(c)
    case Boolean => c == 't' || c == 'f'
    case Identifier => InClass(c, IdentifierChar)
    case Space => IsWhitespace(c)
    case Eq => false
  }

  lemma PrefixHead(a: string, s: string)
    requires |a| > 0 && a <= s
    ensures |s| > 0 && s[0] == a[0]
  {
  }

  lemma MatchStartsWith(k: TokenType, s: string)
    ensures MatchRule(k, s).Some? ==> |s| > 0 && CanStart(k, s[0])
  {
    var r := MatchRule(k, s);
    if r.Some? {
      match k
      case InfixOperator =>
        var w := r.value.capture.value;
        PrefixHead(w, s);
      case Boolean =>
        var w := r.value.capture.value;
        PrefixHead(w, s);
      case Use => PrefixHead("use", s);
      case Import => PrefixHead("import", s);
      case When => PrefixHead("when", s);
      case Loop => PrefixHead("loop", s);
      case _ =>
    }
  }

  /** The words that a rule before the identifier rule matches. */
  const Words: seq<string> := ["use", "import", "when", "loop", "eq", "or", "and", "true", "false"]

  /** No rule before the identifier rule matches a run of identifier characters
      that starts none of the words. */
  lemma EarlierRuleFails(k: TokenType, s: string)
    requires k != Identifier && k != Space
    requires Span(s, IdentifierChar) > 0
    requires forall i :: 0 <= i < |Words| ==> !(Words[i] <= s)
    ensures MatchRule(k, s).None?
  {
    MatchStartsWith(k, s);
    match k
    case Use => assert !(Words[0] <= s);
    case Import => assert !(Words[1] <= s);
    case When => assert !(Words[2] <= s);
    case Loop => assert !(Words[3] <= s);
    case InfixOperator =>
      InfixStartsWordOrSymbol(s);
      assert !(Words[4] <= s) && !(Words[5] <= s) && !(Words[6] <= s);
    case Boolean =>
      assert !(Words[7] <= s) && !(Words[8] <= s);
    case _ =>
  }

  /** An infix operator starts with excluded punctuation or is one of the words. */
  lemma InfixStartsWordOrSymbol(s: string)
    ensures Alternatives(InfixOperators, s).Some? ==>
      (|s| > 0 && IsExcludedPunctuation(s[0])) || "eq" <= s || "or" <= s || "and" <= s
  {
    var r := Alternatives(InfixOperators, s);
    if r.Some? {
      PrefixHead(r.value.capture.value, s);
    }
  }

  lemma IdentifierRunMatches(s: string, n: nat)
    requires n == Span(s, IdentifierChar) && n > 0
    ensures MatchRule(Identifier, s) == Some(Match(n, Some(s[..n])))
  {
    assert MatchRule(Identifier, s) == Run(s, IdentifierChar, true);
  }

  /** A run of identifier characters that starts no earlier rule's word is an
      identifier token holding the whole run. */
  lemma IdentifierRuleApplies(s: string)
    requires Span(s, IdentifierChar) > 0
    requires forall i :: 0 <= i < |Words| ==> !(Words[i] <= s)
    ensures FirstMatch(s) == Some((Identifier, Match(Span(s, IdentifierChar), Some(s[..Span(s, IdentifierChar)]))))
  {
    var n := Span(s, IdentifierChar);
    var m := Match(n, Some(s[..n]));
    forall k | k in BeforeIdentifier ensures MatchRule(k, s).None? {
      EarlierRuleFails(k, s);
    }
    FindRuleAfter(BeforeIdentifier, [Identifier, Space], s);
    IdentifierRunMatches(s, n);
    assert FindRule([Identifier, Space], s) == Some((0, m));
    assert FindRule(Grammar, s) == Some((15, m));
  }

  /** A string literal's token value is the text between the quotes. */
  lemma StringTokenExcludesQuotes(body: string, rest: string)
    requires '"' !in body
    ensures FirstMatch(['"'] + body + ['"'] + rest) == Some((StringLit, Match(|body| + 2, Some(body))))
  {
    var s := ['"'] + body + ['"'] + rest;
    SpanOfRun(s[1..], body, NotQuote);
    assert s[1..|body| + 1] == body;
    EarlierRulesFail(s, 12);
    FindRuleAt(Grammar, s, 12, Match(|body| + 2, Some(body)));
  }

  /** A number token's value is the whole run of digits. */
  lemma NumberTokenIsDigitRun(digits: string, rest: string)
    requires |digits| > 0 && forall i :: 0 <= i < |digits| ==> IsDigit(digits[i])
    requires rest == [] || !IsDigit(rest[0])
    ensures FirstMatch(digits + rest) == Some((Number, Match(|digits|, Some(digits))))
  {
    var s := digits + rest;
    SpanOfRun(s, digits, Digit);
    assert s[..|digits|] == digits;
    EarlierRulesFail(s, 13);
    FindRuleAt(Grammar, s, 13, Match(|digits|, Some(digits)));
  }

  lemma {:induction false} SpanOfRun(s: string, run: string, cls: CharClass)
    requires run <= s
    requires forall i :: 0 <= i < |run| ==> InClass(run[i], cls)
    requires |run| == |s| || !InClass(s[|run|], cls)
    ensures Span(s, cls) == |run|
  {
    if run != [] {
      SpanOfRun(s[1..], run[1..], cls);
    }
  }

  /** The tokeniser takes the first match and goes on after it. */
  lemma TokeniseAfter(s: string, k: TokenType, m: Match)
    requires s != [] && FirstMatch(s) == Some((k, m))
    ensures Tokenise(s) == Prepend(Emitted(k, m), Tokenise(s[m.length..]))
  {
  }

  /** `user` is the keyword `use` followed by the identifier `r`. */
  lemma UserIsUseThenIdentifier()
    ensures Tokenise("user") == Ok([Token(Use, None), Token(Identifier, Some("r"))])
  {
    var s := "user";
    UseBeatsIdentifier(s);
    TokeniseAfter(s, Use, Match(3, None));
    var r := s[3..];
    assert r == "r";
    SpanOfRun(r, r, IdentifierChar);
    assert r[..1] == r;
    IdentifierRuleApplies(r);
    TokeniseAfter(r, Identifier, Match(1, Some("r")));
    assert r[1..] == [];
    PrependDone([Token(Identifier, Some("r"))]);
    var u, i := Token(Use, None), Token(Identifier, Some("r"));
    assert [u] + [i] == [u, i];
  }

  /** A digit ends an identifier: `x1` is the identifier `x` then the number `1`. */
  lemma DigitEndsIdentifier()
    ensures Tokenise("x1") == Ok([Token(Identifier, Some("x")), Token(Number, Some("1"))])
  {
    var s := "x1";
    SpanOfRun(s, "x", IdentifierChar);
    assert s[..1] == "x";
    IdentifierRuleApplies(s);
    TokeniseAfter(s, Identifier, Match(1, Some("x")));
    var r := s[1..];
    assert r == "1" + "";
    NumberTokenIsDigitRun("1", "");
    TokeniseAfter(r, Number, Match(1, Some("1")));
    assert r[1..] == [];
    PrependDone([Token(Number, Some("1"))]);
    var x, one := Token(Identifier, Some("x")), Token(Number, Some("1"));
    assert [x] + [one] == [x, one];
  }
}
