/** The expression trees of parser.rb and the recursive-descent parser as
    functions over the tokens not yet consumed. Each `ParseX` corresponds to
    the Ruby method `parse_x`; it returns the expression and the tokens left
    over, or the error that the Ruby code raises (a `fail`, or a `.type` read
    on a missing token). */
module Syntax {
  import opened Wrappers
  import opened Lexing

  /** Token texts as the parser keeps them: Ruby `nil` or a string. */
  type Name = Option<string>

  /** The first field of a FunctionPrototypeExpr: `parse_function_definition`
      stores the list of argument identifiers, `parse_function_call` stores the
      callee's identifier expression. */
  datatype PrototypeArgs = Params(ids: seq<Name>) | Callee(name: Name)

  /** The expression structs. `NilExpr` is Ruby `nil` where the parser produces
      it; `FunctionCallExpr` holds its reference's name and its two arguments,
      the only arity the parser builds; `BlockExpr` is evaluated by the runtime
      but built by no parser method. */
  datatype Expr =
    | NilExpr
    | NumberExpr(value: Name)
    | StringExpr(value: Name)
    | IdentifierExpr(name: Name)
    | FunctionCallExpr(reference: Name, lhs: Expr, rhs: Expr)
    | FunctionPrototypeExpr(args: PrototypeArgs, body: seq<Expr>)
    | AssignmentExpr(reference: Name, definition: Expr)
    | UseExpr(name: Name)
    | ImportExpr(name: Name)
    | BlockExpr(body: seq<Expr>)

  /** Why parsing stopped: `NoToken` is a `.type` read on a missing token, the
      others are the `fail` messages of parser.rb. */
  datatype ParseError =
    | NoToken
    | NonValue
    | CallWithoutIdentifier
    | CallWithoutOpenBracket
    | UnexpectedTokenInCall
    | AssignmentWithoutIdentifier
    | AssignmentWithoutEq
    | DefinitionWithoutOpenBracket
    | ArgumentNotIdentifier
    | ExpectedCommaOrClose
    | BodyWithoutOpenBrace
    | NotLiteral
    | BracketsWithoutOpen
    | ExpectedCloseBracket
    | UseWithoutIdentifier
    | ImportWithoutIdentifier

  /** What a parsing function returns: a result and the tokens left over. */
  type Parsed<T> = Result<(T, seq<Token>), ParseError>

  /** `rest` is what is left of `ts` after dropping some tokens from its front. */
  predicate SuffixOf(rest: seq<Token>, ts: seq<Token>) {
    |rest| <= |ts| && ts[|ts| - |rest|..] == rest
  }

  /** `current_token.type`: the type of the first token, or an error when there is none. */
  function CurrentType(ts: seq<Token>): (r: Result<TokenType, ParseError>)
    ensures r.Ok? <==> ts != []
    ensures r.Ok? ==> r.value == ts[0].kind
  {
    if ts == [] then Err(NoToken) else Ok(ts[0].kind)
  }

  /** `shift_token!`: Ruby's `Array#shift`, which leaves an empty array empty. */
  function Shift(ts: seq<Token>): seq<Token> {
    if ts == [] then [] else ts[1..]
  }

  /** The optional `;` that `parse_primary` eats after an expression. */
  function SkipEndStatement(ts: seq<Token>): (rest: seq<Token>)
    ensures SuffixOf(rest, ts)
    ensures rest == ts <==> ts == [] || ts[0].kind != EndStatement
    ensures ts != [] && ts[0].kind == EndStatement ==> rest == ts[1..]
  {
    if ts != [] && ts[0].kind == EndStatement then ts[1..] else ts
  }

  /** `parse`: drop the first token, then parse primaries until the tokens run out. */
  function Parse(tokens: seq<Token>): Result<seq<Expr>, ParseError> {
    ParsePrimaries(Shift(tokens), [])
  }

  /** The loop of `parse`: `done` holds the primaries parsed so far. */
  function ParsePrimaries(ts: seq<Token>, done: seq<Expr>): Result<seq<Expr>, ParseError>
    decreases |ts|
  {
    if ts == [] then Ok(done)
    else
      var p :- ParsePrimary(ts);
      ParsePrimaries(p.1, done + [p.0])
  }

  /** `parse_primary`: dispatch on the current token (and, for an identifier, the
      next one); an unrecognised token is skipped and yields nil. */
  function ParsePrimary(ts: seq<Token>): (r: Parsed<Expr>)
    ensures r.Ok? ==> SuffixOf(r.value.1, ts) && |r.value.1| < |ts|
    decreases |ts|, 11
  {
    var p :- ParseStatement(ts);
    Ok((p.0, SkipEndStatement(p.1)))
  }

  /** The expression `parse_primary` chooses by the current token (and, after
      an identifier, the next one), before the optional `;`. */
  function ParseStatement(ts: seq<Token>): (r: Parsed<Expr>)
    ensures r.Ok? ==> SuffixOf(r.value.1, ts) && |r.value.1| < |ts|
    decreases |ts|, 10
  {
    var k :- CurrentType(ts);
    match k
    case Identifier => ParseIdentifierStatement(ts)
    case Number => ParseValue(ts)
    case StringLit => ParseValue(ts)
    case BracketOpen => ParseBrackets(ts)
    case Use => ParseUse(ts)
    case Import => ParseImport(ts)
    case _ => Ok((NilExpr, ts[1..]))
  }

  /** The statement after a leading identifier, chosen by the token after it:
      `:eq` starts an assignment, `(` a call, anything else a value. */
  function ParseIdentifierStatement(ts: seq<Token>): (r: Parsed<Expr>)
    requires ts != []
    ensures r.Ok? ==> SuffixOf(r.value.1, ts) && |r.value.1| < |ts|
    decreases |ts|, 9
  {
    var next :- CurrentType(ts[1..]);
    if next == Eq then ParseAssignment(ts)
    else if next == BracketOpen then ParseFunctionCall(ts)
    else ParseValue(ts)
  }

  /** `parse_value`: an identifier, call, literal or bracketed expression, then,
      if an infix operator follows, that operator applied to it and to the value
      parsed after the operator. */
  function ParseValue(ts: seq<Token>): (r: Parsed<Expr>)
    ensures r.Ok? ==> SuffixOf(r.value.1, ts) && |r.value.1| < |ts|
    decreases |ts|, 8
  {
    var l :- ParseOperand(ts);
    var after :- CurrentType(l.1);
    if after == InfixOperator then
      var rhs :- ParseValue(l.1[1..]);
      Ok((FunctionCallExpr(l.1[0].value, l.0, rhs.0), rhs.1))
    else Ok(l)
  }

  /** The operand `parse_value` starts with: a call, an identifier, a literal
      or a bracketed expression. */
  function ParseOperand(ts: seq<Token>): (r: Parsed<Expr>)
    ensures r.Ok? ==> SuffixOf(r.value.1, ts) && |r.value.1| < |ts|
    decreases |ts|, 7
  {
    var k :- CurrentType(ts);
    match k
    case Identifier =>
      var next :- CurrentType(ts[1..]);
      if next == BracketOpen then ParseFunctionCall(ts)
      else Ok((IdentifierExpr(ts[0].value), ts[1..]))
    case Number => ParseLiteral(ts)
    case StringLit => ParseLiteral(ts)
    case BracketOpen => ParseBrackets(ts)
    case _ => Err(NonValue)
  }

  /** `parse_function_call`: `f(...)` builds a prototype whose first field is the
      callee and whose body is the parameter list. */
  function ParseFunctionCall(ts: seq<Token>): (r: Parsed<Expr>)
    ensures r.Ok? ==> SuffixOf(r.value.1, ts) && |r.value.1| < |ts|
    decreases |ts|, 6
  {
    var k :- CurrentType(ts);
    if k != Identifier then Err(CallWithoutIdentifier)
    else
      var ps :- ParseParameterList(ts[1..]);
      Ok((FunctionPrototypeExpr(Callee(ts[0].value), ps.0), ps.1))
  }

  /** `parse_parameter_list`: `(` then parameters up to `)`. */
  function ParseParameterList(ts: seq<Token>): (r: Parsed<seq<Expr>>)
    ensures r.Ok? ==> SuffixOf(r.value.1, ts) && |r.value.1| < |ts|
    decreases |ts|, 4
  {
    var k :- CurrentType(ts);
    if k != BracketOpen then Err(CallWithoutOpenBracket)
    else ParseParameters(ts[1..], [])
  }

  /** The loop of `parse_parameter_list`: `done` holds the parameters so far. */
  function ParseParameters(ts: seq<Token>, done: seq<Expr>): (r: Parsed<seq<Expr>>)
    ensures r.Ok? ==> SuffixOf(r.value.1, ts) && |r.value.1| < |ts|
    decreases |ts|, 12
  {
    var k :- CurrentType(ts);
    if k == BracketClose then Ok((done, ts[1..]))
    else
      var p :- ParseParameter(ts);
      var sep :- CurrentType(p.1);
      if sep == Comma then ParseParameters(p.1[1..], done + [p.0])
      else if sep == BracketClose then Ok((done + [p.0], p.1[1..]))
      else Err(UnexpectedTokenInCall)
  }

  /** `parse_parameter`: a function definition if it starts with `(`, else a value. */
  function ParseParameter(ts: seq<Token>): (r: Parsed<Expr>)
    ensures r.Ok? ==> SuffixOf(r.value.1, ts) && |r.value.1| < |ts|
    decreases |ts|, 10
  {
    var k :- CurrentType(ts);
    if k == BracketOpen then ParseFunctionDefinition(ts) else ParseValue(ts)
  }

  /** `parse_assignment`: identifier, `:eq`, then a definition. */
  function ParseAssignment(ts: seq<Token>): (r: Parsed<Expr>)
    ensures r.Ok? ==> SuffixOf(r.value.1, ts) && |r.value.1| < |ts|
    decreases |ts|, 8
  {
    var k :- CurrentType(ts);
    if k != Identifier then Err(AssignmentWithoutIdentifier)
    else
      var eq :- CurrentType(ts[1..]);
      if eq != Eq then Err(AssignmentWithoutEq)
      else
        var d :- ParseDefinition(ts[2..]);
        Ok((AssignmentExpr(ts[0].value, d.0), d.1))
  }

  /** `parse_definition`: a function definition or a literal; for any other
      token it yields nil and consumes nothing. */
  function ParseDefinition(ts: seq<Token>): (r: Parsed<Expr>)
    ensures r.Ok? ==> SuffixOf(r.value.1, ts)
    decreases |ts|, 8
  {
    var k :- CurrentType(ts);
    if k == BracketOpen then ParseFunctionDefinition(ts)
    else if k == Number || k == StringLit then ParseLiteral(ts)
    else Ok((NilExpr, ts))
  }

  /** `parse_function_definition`: an argument list, then a body. */
  function ParseFunctionDefinition(ts: seq<Token>): (r: Parsed<Expr>)
    ensures r.Ok? ==> SuffixOf(r.value.1, ts) && |r.value.1| < |ts|
    decreases |ts|, 6
  {
    var a :- ParseArgumentList(ts);
    var b :- ParseFunctionBody(a.1);
    Ok((FunctionPrototypeExpr(Params(a.0), b.0), b.1))
  }

  /** `parse_argument_list`: `(` then identifiers separated by commas up to `)`. */
  function ParseArgumentList(ts: seq<Token>): (r: Parsed<seq<Name>>)
    ensures r.Ok? ==> SuffixOf(r.value.1, ts) && |r.value.1| < |ts|
  {
    var k :- CurrentType(ts);
    if k != BracketOpen then Err(DefinitionWithoutOpenBracket)
    else ParseArguments(ts[1..], [])
  }

  /** The loop of `parse_argument_list`: `done` holds the identifiers so far. */
  function ParseArguments(ts: seq<Token>, done: seq<Name>): (r: Parsed<seq<Name>>)
    ensures r.Ok? ==> SuffixOf(r.value.1, ts) && |r.value.1| < |ts|
    decreases |ts|
  {
    var k :- CurrentType(ts);
    if k == BracketClose then Ok((done, ts[1..]))
    else if k != Identifier then Err(ArgumentNotIdentifier)
    else
      var sep :- CurrentType(ts[1..]);
      if sep == Comma then ParseArguments(ts[2..], done + [ts[0].value])
      else if sep == BracketClose then Ok((done + [ts[0].value], ts[2..]))
      else Err(ExpectedCommaOrClose)
  }

  /** `parse_function_body`: `{` then primaries up to `}`. */
  function ParseFunctionBody(ts: seq<Token>): (r: Parsed<seq<Expr>>)
    ensures r.Ok? ==> SuffixOf(r.value.1, ts) && |r.value.1| < |ts|
    decreases |ts|, 4
  {
    var k :- CurrentType(ts);
    if k != BlockOpen then Err(BodyWithoutOpenBrace)
    else ParseBody(ts[1..], [])
  }

  /** The loop of `parse_function_body`: `done` holds the primaries so far. Its
      condition reads the current token's type before it asks whether the tokens
      have run out, so running out is the missing-token error. */
  function ParseBody(ts: seq<Token>, done: seq<Expr>): (r: Parsed<seq<Expr>>)
    ensures r.Ok? ==> SuffixOf(r.value.1, ts) && |r.value.1| < |ts|
    decreases |ts|, 12
  {
    var k :- CurrentType(ts);
    if k == BlockClose then Ok((done, ts[1..]))
    else
      var p :- ParsePrimary(ts);
      ParseBody(p.1, done + [p.0])
  }

  /** `parse_literal` with `parse_number` and `parse_string`. */
  function ParseLiteral(ts: seq<Token>): (r: Parsed<Expr>)
    ensures r.Ok? ==> SuffixOf(r.value.1, ts) && |r.value.1| < |ts|
  {
    var k :- CurrentType(ts);
    if k == Number then Ok((NumberExpr(ts[0].value), ts[1..]))
    else if k == StringLit then Ok((StringExpr(ts[0].value), ts[1..]))
    else Err(NotLiteral)
  }

  /** `parse_brackets`: `()` is nil; otherwise a primary, which must be followed by `)`. */
  function ParseBrackets(ts: seq<Token>): (r: Parsed<Expr>)
    ensures r.Ok? ==> SuffixOf(r.value.1, ts) && |r.value.1| < |ts|
    decreases |ts|, 6
  {
    var k :- CurrentType(ts);
    if k != BracketOpen then Err(BracketsWithoutOpen)
    else
      var inner :- CurrentType(ts[1..]);
      if inner == BracketClose then Ok((NilExpr, ts[2..]))
      else
        var p :- ParsePrimary(ts[1..]);
        var close :- CurrentType(p.1);
        if close != BracketClose then Err(ExpectedCloseBracket)
        else Ok((p.0, p.1[1..]))
  }

  /** `parse_use`: drop the `use`, then an identifier, whose text names the node. */
  function ParseUse(ts: seq<Token>): (r: Parsed<Expr>)
    ensures r.Ok? ==> SuffixOf(r.value.1, ts) && |r.value.1| < |ts|
  {
    var rest := Shift(ts);
    var k :- CurrentType(rest);
    if k != Identifier then Err(UseWithoutIdentifier)
    else Ok((UseExpr(rest[0].value), rest[1..]))
  }

  /** `parse_import`: drop the `import`, then an identifier, whose text names the node. */
  function ParseImport(ts: seq<Token>): (r: Parsed<Expr>)
    ensures r.Ok? ==> SuffixOf(r.value.1, ts) && |r.value.1| < |ts|
  {
    var rest := Shift(ts);
    var k :- CurrentType(rest);
    if k != Identifier then Err(ImportWithoutIdentifier)
    else Ok((ImportExpr(rest[0].value), rest[1..]))
  }

  /** `parse` never looks at the first token: it is dropped unread. */
  lemma FirstTokenDiscarded(t: Token, ts: seq<Token>)
    ensures Parse([t] + ts) == ParsePrimaries(ts, [])
    ensures Parse([]) == Ok([]) && Parse([t]) == Ok([])
  {
    assert ([t] + ts)[1..] == ts;
  }

  /** The primaries parsed so far are kept in front, and since each primary
      consumes at least one token there are at most as many new ones as tokens. */
  lemma {:induction false} PrimariesBound(ts: seq<Token>, done: seq<Expr>)
    ensures ParsePrimaries(ts, done).Ok? ==>
      var es := ParsePrimaries(ts, done).value;
      |done| <= |es| <= |done| + |ts| && es[..|done|] == done
    decreases |ts|
  {
    if ts != [] {
      var p := ParsePrimary(ts);
      if p.Ok? {
        var more := done + [p.value.0];
        PrimariesBound(p.value.1, more);
        if ParsePrimaries(ts, done).Ok? {
          var es := ParsePrimaries(ts, done).value;
          assert es[..|done|] == es[..|more|][..|done|];
        }
      }
    }
  }

  /** The literal expression that a number or string token parses to. */
  function LiteralOf(t: Token): Expr {
    if t.kind == Number then NumberExpr(t.value) else StringExpr(t.value)
  }

  /** A literal operand is the literal alone. */
  lemma OperandOfLiteral(t: Token, ts: seq<Token>)
    requires t.kind == Number || t.kind == StringLit
    ensures ParseOperand([t] + ts) == Ok((LiteralOf(t), ts))
  {
    assert ([t] + ts)[1..] == ts;
  }

  /** An identifier not followed by `(` is an operand on its own. */
  lemma OperandOfIdentifier(ts: seq<Token>)
    requires |ts| > 1 && ts[0].kind == Identifier && ts[1].kind != BracketOpen
    ensures ParseOperand(ts) == Ok((IdentifierExpr(ts[0].value), ts[1..]))
  {
  }

  /** An operand not followed by an infix operator is the whole value. */
  lemma ValueIsOperand(ts: seq<Token>, e: Expr, rest: seq<Token>)
    requires ParseOperand(ts) == Ok((e, rest))
    requires rest != [] && rest[0].kind != InfixOperator
    ensures ParseValue(ts) == Ok((e, rest))
  {
  }

  /** An operand followed by an infix operator is that operator applied to the
      operand and to the value parsed after the operator. */
  lemma ValueWithInfix(ts: seq<Token>, e: Expr, rest: seq<Token>)
    requires ParseOperand(ts) == Ok((e, rest))
    requires rest != [] && rest[0].kind == InfixOperator
    ensures ParseValue(ts) ==
      match ParseValue(rest[1..])
      case Ok((rhs, after)) => Ok((FunctionCallExpr(rest[0].value, e, rhs), after))
      case Err(err) => Err(err)
  {
  }

  /** A literal, and an identifier followed by neither `:eq` nor `(`, start a
      value statement. */
  lemma StatementIsValue(ts: seq<Token>)
    requires ts != []
    requires ts[0].kind in {Number, StringLit} ||
             (ts[0].kind == Identifier && |ts| > 1 && ts[1].kind !in {Eq, BracketOpen})
    ensures ParseStatement(ts) == ParseValue(ts)
  {
    if ts[0].kind == Identifier {
      IdentifierStatementIsValue(ts);
    } else {
      LiteralStatementIsValue(ts);
    }
  }

  lemma LiteralStatementIsValue(ts: seq<Token>)
    requires ts != [] && (ts[0].kind == Number || ts[0].kind == StringLit)
    ensures ParseStatement(ts) == ParseValue(ts)
  {
  }

  lemma IdentifierStatementIsValue(ts: seq<Token>)
    requires |ts| > 1 && ts[0].kind == Identifier && ts[1].kind != Eq && ts[1].kind != BracketOpen
    ensures ParseStatement(ts) == ParseValue(ts)
  {
    assert CurrentType(ts[1..]) == Ok(ts[1].kind);
    assert ParseIdentifierStatement(ts) == ParseValue(ts);
    IdentifierDispatch(ts);
  }

  /** A statement that starts with an identifier is decided by the look-ahead. */
  lemma IdentifierDispatch(ts: seq<Token>)
    requires ts != [] && ts[0].kind == Identifier
    ensures ParseStatement(ts) == ParseIdentifierStatement(ts)
  {
    assert CurrentType(ts) == Ok(Identifier);
  }

  /** A `;` right after a literal statement is consumed and produces no node. */
  lemma LiteralStatement(t: Token, semi: Token, ts: seq<Token>)
    requires t.kind == Number || t.kind == StringLit
    requires semi.kind == EndStatement
    ensures ParsePrimary([t, semi] + ts) == Ok((LiteralOf(t), ts))
  {
    var tail := [semi] + ts;
    var s := [t] + tail;
    assert s == [t, semi] + ts;
    OperandOfLiteral(t, tail);
    ValueIsOperand(s, LiteralOf(t), tail);
    StatementIsValue(s);
    assert tail[1..] == ts;
  }

  /** A `;` right after an identifier statement is consumed and produces no node. */
  lemma IdentifierStatement(t: Token, semi: Token, ts: seq<Token>)
    requires t.kind == Identifier && semi.kind == EndStatement
    ensures ParsePrimary([t, semi] + ts) == Ok((IdentifierExpr(t.value), ts))
  {
    var tail := [semi] + ts;
    var s := [t] + tail;
    assert s == [t, semi] + ts;
    assert s[1..] == tail;
    OperandOfIdentifier(s);
    ValueIsOperand(s, IdentifierExpr(t.value), tail);
    StatementIsValue(s);
    assert tail[1..] == ts;
  }

  /** A value that ends the input fails: the infix look-ahead reads the type of
      a token that is not there. */
  lemma ValueAtEndFails(t: Token)
    requires t.kind == Number || t.kind == StringLit
    ensures ParsePrimary([t]) == Err(NoToken)
  {
    OperandOfLiteral(t, []);
    assert [t] + [] == [t];
    StatementIsValue([t]);
  }

  /** A leading token that starts no expression is skipped and yields nil
      (and a `;` after it is eaten as after any primary). */
  lemma UnrecognisedTokenSkipped(t: Token, ts: seq<Token>)
    requires t.kind !in {Identifier, Number, StringLit, BracketOpen, Use, Import}
    ensures ParsePrimary([t] + ts) == Ok((NilExpr, SkipEndStatement(ts)))
    ensures ParsePrimaries([t] + ts, []) == ParsePrimaries(SkipEndStatement(ts), [NilExpr])
  {
    var s := [t] + ts;
    assert s[1..] == ts;
    assert ParseStatement(s) == Ok((NilExpr, ts));
    assert ParsePrimary(s) == Ok((NilExpr, SkipEndStatement(ts)));
    assert [] + [NilExpr] == [NilExpr];
  }

  /** An infix operator after a literal applies to the literal and to everything
      the recursive `parse_value` after it yields: chains nest to the right. */
  lemma InfixNestsRight(a: Token, op: Token, ts: seq<Token>)
    requires a.kind == Number || a.kind == StringLit
    requires op.kind == InfixOperator
    ensures ParseValue([a, op] + ts) ==
      match ParseValue(ts)
      case Ok((rhs, rest)) => Ok((FunctionCallExpr(op.value, LiteralOf(a), rhs), rest))
      case Err(e) => Err(e)
  {
    var tail := [op] + ts;
    var s := [a] + tail;
    assert s == [a, op] + ts;
    OperandOfLiteral(a, tail);
    ValueWithInfix(s, LiteralOf(a), tail);
    assert tail[1..] == ts;
  }

  /** `1 - 2 - 3;` is `-(1, -(2, 3))`. */
  lemma SubtractionChain(one: Token, two: Token, three: Token, minus: Token, semi: Token)
    requires one == Token(Number, Some("1")) && two == Token(Number, Some("2"))
    requires three == Token(Number, Some("3")) && minus == Token(InfixOperator, Some("-"))
    requires semi == Token(EndStatement, None)
    ensures ParsePrimary([one, minus, two, minus, three, semi]) ==
      Ok((FunctionCallExpr(Some("-"), NumberExpr(Some("1")),
            FunctionCallExpr(Some("-"), NumberExpr(Some("2")), NumberExpr(Some("3")))), []))
  {
    var last := [three] + [semi];
    OperandOfLiteral(three, [semi]);
    ValueIsOperand(last, NumberExpr(Some("3")), [semi]);
    var mid := [two, minus] + last;
    InfixNestsRight(two, minus, last);
    var all := [one, minus] + mid;
    InfixNestsRight(one, minus, mid);
    assert all == [one, minus, two, minus, three, semi];
    StatementIsValue(all);
    assert [semi][1..] == [];
  }

  /** `x = 5;` is lexed with `=` as an infix operator, so it parses as a call of `=`. */
  lemma AssignmentIsInfixCall(x: Token, eq: Token, five: Token, semi: Token)
    requires x.kind == Identifier && eq == Token(InfixOperator, Some("="))
    requires five.kind == Number && semi.kind == EndStatement
    ensures ParsePrimary([x, eq, five, semi]) ==
      Ok((FunctionCallExpr(Some("="), IdentifierExpr(x.value), NumberExpr(five.value)), []))
  {
    var last := [five] + [semi];
    OperandOfLiteral(five, [semi]);
    ValueIsOperand(last, NumberExpr(five.value), [semi]);
    var tail := [eq] + last;
    var all := [x] + tail;
    assert all == [x, eq, five, semi];
    assert all[1..] == tail;
    OperandOfIdentifier(all);
    ValueWithInfix(all, IdentifierExpr(x.value), tail);
    assert tail[1..] == last;
    StatementIsValue(all);
    assert [semi][1..] == [];
  }

  /** The tokens of a bracketed list of identifiers after its `(`: each name,
      commas between them, optionally one after the last, then `)`. */
  function IdentifierListTokens(names: seq<Name>, trailingComma: bool): seq<Token> {
    if names == [] then [Token(BracketClose, None)]
    else
      [Token(Identifier, names[0])] +
      (if |names| == 1 && !trailingComma then [] else [Token(Comma, None)]) +
      IdentifierListTokens(names[1..], trailingComma)
  }

  function IdentifierExprs(names: seq<Name>): (es: seq<Expr>)
    ensures |es| == |names| && forall i :: 0 <= i < |names| ==> es[i] == IdentifierExpr(names[i])
  {
    if names == [] then [] else [IdentifierExpr(names[0])] + IdentifierExprs(names[1..])
  }

  /** The first name of a list, then `,` and the rest of the list, or `)` when
      it is the last name and no comma trails. */
  lemma ListTokensHead(names: seq<Name>, trailingComma: bool, rest: seq<Token>, ts: seq<Token>, tail: seq<Token>)
    requires names != []
    requires ts == IdentifierListTokens(names, trailingComma) + rest
    requires tail == IdentifierListTokens(names[1..], trailingComma) + rest
    ensures |ts| > 1 && ts[0] == Token(Identifier, names[0])
    ensures ts[1].kind == Comma || ts[1].kind == BracketClose
    ensures ts[1].kind == Comma ==> ts[2..] == tail
    ensures ts[1].kind == BracketClose ==> names[1..] == [] && ts[2..] == rest
  {
    var head := IdentifierListTokens(names, trailingComma);
    var after := IdentifierListTokens(names[1..], trailingComma);
    if |names| == 1 && !trailingComma {
      assert head == [Token(Identifier, names[0])] + after;
      assert after == [Token(BracketClose, None)];
      assert ts == [Token(Identifier, names[0]), Token(BracketClose, None)] + rest;
    } else {
      assert head == [Token(Identifier, names[0]), Token(Comma, None)] + after;
      assert ts == [Token(Identifier, names[0]), Token(Comma, None)] + tail;
    }
  }

  /** A definition's argument list reads back exactly the identifiers it was
      made of, with or without a trailing comma, and leaves what follows. */
  lemma {:induction false} ArgumentsRoundTrip(names: seq<Name>, trailingComma: bool, done: seq<Name>, rest: seq<Token>)
    ensures ParseArguments(IdentifierListTokens(names, trailingComma) + rest, done) == Ok((done + names, rest))
    decreases |names|
  {
    var ts := IdentifierListTokens(names, trailingComma) + rest;
    if names == [] {
      assert ts[1..] == rest;
      assert done + names == done;
    } else {
      ListTokensHead(names, trailingComma, rest, ts, IdentifierListTokens(names[1..], trailingComma) + rest);
      ArgumentsRoundTrip(names[1..], trailingComma, done + [names[0]], rest);
      assert done + [names[0]] + names[1..] == done + names;
    }
  }

  /** An identifier followed by `,` or `)` is a parameter on its own. */
  lemma IdentifierParameter(ts: seq<Token>)
    requires |ts| > 1 && ts[0].kind == Identifier && ts[1].kind in {Comma, BracketClose}
    ensures ParseParameter(ts) == Ok((IdentifierExpr(ts[0].value), ts[1..]))
  {
    OperandOfIdentifier(ts);
  }

  /** One round of the parameter loop: a parameter, then `,` to go on or `)` to stop. */
  lemma ParametersStep(ts: seq<Token>, done: seq<Expr>, e: Expr, rest: seq<Token>)
    requires ts != [] && ts[0].kind != BracketClose
    requires ParseParameter(ts) == Ok((e, rest)) && rest != []
    ensures ParseParameters(ts, done) ==
      if rest[0].kind == Comma then ParseParameters(rest[1..], done + [e])
      else if rest[0].kind == BracketClose then Ok((done + [e], rest[1..]))
      else Err(UnexpectedTokenInCall)
  {
  }

  /** The same tokens as a call's parameter list give identifier expressions. */
  lemma {:induction false} ParametersRoundTrip(names: seq<Name>, trailingComma: bool, done: seq<Expr>, rest: seq<Token>)
    ensures ParseParameters(IdentifierListTokens(names, trailingComma) + rest, done) ==
      Ok((done + IdentifierExprs(names), rest))
    decreases |names|
  {
    var ts := IdentifierListTokens(names, trailingComma) + rest;
    if names == [] {
      assert ts[1..] == rest;
      assert done + IdentifierExprs(names) == done;
    } else {
      var e := IdentifierExpr(names[0]);
      ListTokensHead(names, trailingComma, rest, ts, IdentifierListTokens(names[1..], trailingComma) + rest);
      ParametersRoundTrip(names[1..], trailingComma, done + [e], rest);
      assert done + [e] + IdentifierExprs(names[1..]) == done + IdentifierExprs(names);
      IdentifierParameter(ts);
      ParametersStep(ts, done, e, ts[1..]);
      assert ts[1..][1..] == ts[2..];
    }
  }

  /** Only identifiers, commas and the closing `)` are consumed by a successful
      argument list. */
  lemma {:induction false} ArgumentsOnlyIdentifiers(ts: seq<Token>, done: seq<Name>)
    ensures ParseArguments(ts, done).Ok? ==>
      var rest := ParseArguments(ts, done).value.1;
      forall i :: 0 <= i < |ts| - |rest| ==> ts[i].kind in {Identifier, Comma, BracketClose}
    decreases |ts|
  {
    if ts != [] && ts[0].kind == Identifier && |ts| > 1 && ts[1].kind == Comma {
      ArgumentsOnlyIdentifiers(ts[2..], done + [ts[0].value]);
      if ParseArguments(ts, done).Ok? {
        var rest := ParseArguments(ts, done).value.1;
        forall i | 2 <= i < |ts| - |rest| ensures ts[i].kind in {Identifier, Comma, BracketClose} {
          assert ts[i] == ts[2..][i - 2];
        }
      }
    }
  }

  /** An element of a definition's argument list that is not an identifier is an
      error. */
  lemma ArgumentMustBeIdentifier(t: Token, ts: seq<Token>, done: seq<Name>)
    requires t.kind != Identifier && t.kind != BracketClose
    ensures ParseArguments([t] + ts, done) == Err(ArgumentNotIdentifier)
  {
  }

  /** A call's parameter followed by anything but `,` or `)` is an error. */
  lemma ParameterNeedsSeparator(ts: seq<Token>, done: seq<Expr>)
    requires ts != [] && ts[0].kind != BracketClose
    requires ParseParameter(ts).Ok?
    requires var rest := ParseParameter(ts).value.1; rest != [] && rest[0].kind !in {Comma, BracketClose}
    ensures ParseParameters(ts, done) == Err(UnexpectedTokenInCall)
  {
  }

  /** `f()` is a prototype with the callee and no parameters. */
  /** `f(...)` always builds a prototype with `f` as its callee, never a call:
      whatever the parameter list yields, or the error it fails with. */
  lemma CallIsPrototype(f: Token, ts: seq<Token>)
    requires f.kind == Identifier
    ensures ParseFunctionCall([f] + ts) ==
      match ParseParameterList(ts)
      case Ok((ps, rest)) => Ok((FunctionPrototypeExpr(Callee(f.value), ps), rest))
      case Err(e) => Err(e)
  {
    assert ([f] + ts)[1..] == ts;
  }

  lemma EmptyCall(f: Token, open: Token, close: Token, ts: seq<Token>)
    requires f.kind == Identifier && open.kind == BracketOpen && close.kind == BracketClose
    ensures ParseFunctionCall([f, open, close] + ts) == Ok((FunctionPrototypeExpr(Callee(f.value), []), ts))
  {
    var s := [f, open, close] + ts;
    assert s[1..] == [open, close] + ts;
    assert s[1..][1..] == [close] + ts;
    assert ([close] + ts)[1..] == ts;
    assert ParseParameters([close] + ts, []) == Ok(([], ts));
    assert ParseParameterList(s[1..]) == Ok(([], ts));
  }

  /** A function body that has no `}` left in it runs out of tokens: an error. */
  lemma {:induction false} BodyNeedsClose(ts: seq<Token>, done: seq<Expr>)
    requires forall i :: 0 <= i < |ts| ==> ts[i].kind != BlockClose
    ensures ParseBody(ts, done).Err?
    decreases |ts|
  {
    if ts != [] {
      assert CurrentType(ts) == Ok(ts[0].kind);
      var p := ParsePrimary(ts);
      if p.Ok? {
        var rest := p.value.1;
        assert ParseBody(ts, done) == ParseBody(rest, done + [p.value.0]);
        forall i | 0 <= i < |rest| ensures rest[i].kind != BlockClose {
          assert rest[i] == ts[|ts| - |rest| + i];
        }
        BodyNeedsClose(rest, done + [p.value.0]);
      }
    }
  }

  /** `{}` is the empty body. */
  lemma EmptyBody(open: Token, close: Token, ts: seq<Token>)
    requires open.kind == BlockOpen && close.kind == BlockClose
    ensures ParseFunctionBody([open, close] + ts) == Ok(([], ts))
  {
    var s := [open, close] + ts;
    assert s[1..] == [close] + ts;
    assert s[1..][1..] == ts;
  }

  /** `()` is nil. */
  lemma EmptyBrackets(open: Token, close: Token, ts: seq<Token>)
    requires open.kind == BracketOpen && close.kind == BracketClose
    ensures ParseBrackets([open, close] + ts) == Ok((NilExpr, ts))
  {
    assert ([open, close] + ts)[2..] == ts;
  }

  /** `( e )` is `e`, and the `)` after the inner primary is required. */
  lemma BracketsNeedClose(open: Token, ts: seq<Token>)
    requires open.kind == BracketOpen && ts != [] && ts[0].kind != BracketClose
    requires ParsePrimary(ts).Ok?
    ensures var (e, rest) := ParsePrimary(ts).value;
      ParseBrackets([open] + ts) ==
        if rest != [] && rest[0].kind == BracketClose then Ok((e, rest[1..]))
        else if rest == [] then Err(NoToken)
        else Err(ExpectedCloseBracket)
  {
    assert ([open] + ts)[1..] == ts;
  }

  /** `use` succeeds exactly when an identifier follows; the identifier's text is
      the node's name. */
  lemma UseNeedsIdentifier(u: Token, ts: seq<Token>)
    ensures ParseUse([u] + ts).Ok? <==> ts != [] && ts[0].kind == Identifier
    ensures ParseUse([u] + ts).Ok? ==> ParseUse([u] + ts).value == (UseExpr(ts[0].value), ts[1..])
  {
    assert Shift([u] + ts) == ts;
  }

  /** `import` succeeds exactly when an identifier follows; the identifier's text
      is the node's name. */
  lemma ImportNeedsIdentifier(i: Token, ts: seq<Token>)
    ensures ParseImport([i] + ts).Ok? <==> ts != [] && ts[0].kind == Identifier
    ensures ParseImport([i] + ts).Ok? ==> ParseImport([i] + ts).value == (ImportExpr(ts[0].value), ts[1..])
  {
    assert Shift([i] + ts) == ts;
  }

  /** The assignment branch of `parse_primary` needs an `Eq` token, which the
      tokeniser never produces: for tokeniser output it is never taken. */
  lemma AssignmentBranchUnreachable(s: string)
    ensures Tokenise(s).Ok? ==> forall i :: 0 <= i < |Tokenise(s).value| ==> Tokenise(s).value[i].kind != Eq
  {
    TokensWellFormed(s);
  }

  /** So on the tokeniser's output an identifier statement is a call or a
      value, never an assignment: the `:eq` look-ahead never succeeds. */
  lemma TokenisedIdentifierNeverAssigns(s: string, i: nat)
    requires Tokenise(s).Ok? && i + 1 < |Tokenise(s).value|
    requires Tokenise(s).value[i].kind == Identifier
    ensures var ts := Tokenise(s).value[i..];
      ParseStatement(ts) == if ts[1].kind == BracketOpen then ParseFunctionCall(ts) else ParseValue(ts)
  {
    AssignmentBranchUnreachable(s);
    var ts := Tokenise(s).value[i..];
    assert ts[1] == Tokenise(s).value[i + 1];
    IdentifierDispatch(ts);
  }
}
