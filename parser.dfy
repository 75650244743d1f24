/** The Parser class of parser.rb: a token array that every `shift_token!`
    shortens in place, and the primaries collected so far. Each method is
    proved to leave the tokens and return the expression that the matching
    function of Syntax computes from the tokens it started with. */
module Parsing {
  import opened Wrappers
  import opened Lexing
  import opened Syntax

  /** A method's result together with the tokens it left, in the shape the
      Syntax functions return. */
  function Outcome<T>(r: Result<T, ParseError>, rest: seq<Token>): Parsed<T> {
    match r
    case Ok(v) => Ok((v, rest))
    case Err(e) => Err(e)
  }

  class Parser {
    /** `@tokens`: the tokens not yet shifted; `parse` starts from whatever is left. */
    var tokens: seq<Token>
    /** `@primaries`: the expressions `parse` has collected. */
    var primaries: seq<Expr>

    constructor(input: seq<Token>)
      ensures tokens == input && primaries == []
    {
      tokens := input;
      primaries := [];
    }

    /** `current_token.type`. */
    function CurrentTokenType(): Result<TokenType, ParseError>
      reads this
    {
      CurrentType(tokens)
    }

    /** `peek_token.type`. */
    function PeekTokenType(): Result<TokenType, ParseError>
      reads this
    {
      CurrentType(Shift(tokens))
    }

    /** `shift_token!`. */
    method ShiftToken()
      modifies this`tokens
      ensures tokens == Shift(old(tokens))
    {
      if tokens != [] {
        tokens := tokens[1..];
      }
    }

    /** `shift_token_into!`: the current token's value, then shift; every
        caller has just read that token's type. */
    method ShiftTokenValue() returns (v: Name)
      requires tokens != []
      modifies this`tokens
      ensures v == old(tokens)[0].value && tokens == old(tokens)[1..]
    {
      v := tokens[0].value;
      tokens := tokens[1..];
    }

    /** `parse`: drop the first token, then parse primaries until none is left. */
    method Parse() returns (r: Result<seq<Expr>, ParseError>)
      modifies this
      ensures r == Syntax.Parse(old(tokens))
      ensures r.Ok? ==> primaries == r.value && tokens == []
    {
      primaries := [];
      ShiftToken();
      while true
        invariant ParsePrimaries(tokens, primaries) == Syntax.Parse(old(tokens))
        decreases |tokens|
      {
        if tokens == [] {
          return Ok(primaries);
        }
        var e :- ParsePrimary();
        primaries := primaries + [e];
      }
    }

    /** `parse_primary`. */
    method ParsePrimary() returns (r: Result<Expr, ParseError>)
      modifies this`tokens
      ensures Outcome(r, tokens) == Syntax.ParsePrimary(old(tokens))
      decreases |tokens|, 10
    {
      var k :- CurrentTokenType();
      var e: Expr;
      match k {
      case Identifier =>
        assert ParseStatement(tokens) == ParseIdentifierStatement(tokens);
        var next :- PeekTokenType();
        if next == Eq {
          e :- ParseAssignment();
        } else if next == BracketOpen {
          e :- ParseFunctionCall();
        } else {
          e :- ParseValue();
        }
      case Number =>
        e :- ParseValue();
      case StringLit =>
        e :- ParseValue();
      case BracketOpen =>
        e :- ParseBrackets();
      case Use =>
        e :- ParseUse();
      case Import =>
        e :- ParseImport();
      case _ =>
        ShiftToken();
        e := NilExpr;
      }
      if tokens != [] && tokens[0].kind == EndStatement {
        ShiftToken();
      }
      return Ok(e);
    }

    /** `parse_value`, with `parse_identifier`. */
    method ParseValue() returns (r: Result<Expr, ParseError>)
      modifies this`tokens
      ensures Outcome(r, tokens) == Syntax.ParseValue(old(tokens))
      decreases |tokens|, 8
    {
      var k :- CurrentTokenType();
      var lhs: Expr;
      match k {
      case Identifier =>
        var next :- PeekTokenType();
        if next == BracketOpen {
          lhs :- ParseFunctionCall();
        } else {
          var name := ShiftTokenValue();
          lhs := IdentifierExpr(name);
        }
      case Number =>
        var literal := ParseLiteral();
        lhs := literal.value;
      case StringLit =>
        var literal := ParseLiteral();
        lhs := literal.value;
      case BracketOpen =>
        lhs :- ParseBrackets();
      case _ =>
        return Err(NonValue);
      }
      var after :- CurrentTokenType();
      if after == InfixOperator {
        var op := tokens[0].value;
        ShiftToken();
        var rhs :- ParseValue();
        return Ok(FunctionCallExpr(op, lhs, rhs));
      }
      return Ok(lhs);
    }

    /** `parse_function_call`. */
    method ParseFunctionCall() returns (r: Result<Expr, ParseError>)
      modifies this`tokens
      ensures Outcome(r, tokens) == Syntax.ParseFunctionCall(old(tokens))
      decreases |tokens|, 6
    {
      var k :- CurrentTokenType();
      if k != Identifier {
        return Err(CallWithoutIdentifier);
      }
      var callee := tokens[0].value;
      ShiftToken();
      var parameters :- ParseParameterList();
      return Ok(FunctionPrototypeExpr(Callee(callee), parameters));
    }

    /** `parse_parameter_list`. */
    method ParseParameterList() returns (r: Result<seq<Expr>, ParseError>)
      modifies this`tokens
      ensures Outcome(r, tokens) == Syntax.ParseParameterList(old(tokens))
      decreases |tokens|, 4
    {
      var k :- CurrentTokenType();
      if k != BracketOpen {
        return Err(CallWithoutOpenBracket);
      }
      ShiftToken();
      var list := [];
      while true
        invariant |tokens| < |old(tokens)|
        invariant ParseParameters(tokens, list) == Syntax.ParseParameterList(old(tokens))
        decreases |tokens|
      {
        var c :- CurrentTokenType();
        if c == BracketClose {
          break;
        }
        var p :- ParseParameter();
        list := list + [p];
        var sep :- CurrentTokenType();
        if sep == Comma {
          ShiftToken();
        } else if sep == BracketClose {
          break;
        } else {
          return Err(UnexpectedTokenInCall);
        }
      }
      ShiftToken();
      return Ok(list);
    }

    /** `parse_parameter`. */
    method ParseParameter() returns (r: Result<Expr, ParseError>)
      modifies this`tokens
      ensures Outcome(r, tokens) == Syntax.ParseParameter(old(tokens))
      decreases |tokens|, 10
    {
      var k :- CurrentTokenType();
      if k == BracketOpen {
        r := ParseFunctionDefinition();
      } else {
        r := ParseValue();
      }
    }

    /** `parse_assignment`. */
    method ParseAssignment() returns (r: Result<Expr, ParseError>)
      modifies this`tokens
      ensures Outcome(r, tokens) == Syntax.ParseAssignment(old(tokens))
      decreases |tokens|, 8
    {
      var k :- CurrentTokenType();
      if k != Identifier {
        return Err(AssignmentWithoutIdentifier);
      }
      var name := tokens[0].value;
      ShiftToken();
      var eq :- CurrentTokenType();
      if eq != Eq {
        return Err(AssignmentWithoutEq);
      }
      ShiftToken();
      var definition :- ParseDefinition();
      return Ok(AssignmentExpr(name, definition));
    }

    /** `parse_definition`. */
    method ParseDefinition() returns (r: Result<Expr, ParseError>)
      modifies this`tokens
      ensures Outcome(r, tokens) == Syntax.ParseDefinition(old(tokens))
      decreases |tokens|, 8
    {
      var k :- CurrentTokenType();
      if k == BracketOpen {
        r := ParseFunctionDefinition();
      } else if k == Number || k == StringLit {
        r := ParseLiteral();
      } else {
        r := Ok(NilExpr);
      }
    }

    /** `parse_function_definition`. */
    method ParseFunctionDefinition() returns (r: Result<Expr, ParseError>)
      modifies this`tokens
      ensures Outcome(r, tokens) == Syntax.ParseFunctionDefinition(old(tokens))
      decreases |tokens|, 6
    {
      var arguments :- ParseArgumentList();
      var body :- ParseFunctionBody();
      return Ok(FunctionPrototypeExpr(Params(arguments), body));
    }

    /** `parse_argument_list`. */
    method ParseArgumentList() returns (r: Result<seq<Name>, ParseError>)
      modifies this`tokens
      ensures Outcome(r, tokens) == Syntax.ParseArgumentList(old(tokens))
    {
      var k :- CurrentTokenType();
      if k != BracketOpen {
        return Err(DefinitionWithoutOpenBracket);
      }
      ShiftToken();
      var list := [];
      while true
        invariant ParseArguments(tokens, list) == Syntax.ParseArgumentList(old(tokens))
        decreases |tokens|
      {
        var c :- CurrentTokenType();
        if c == BracketClose {
          break;
        }
        if c != Identifier {
          return Err(ArgumentNotIdentifier);
        }
        list := list + [tokens[0].value];
        ShiftToken();
        var sep :- CurrentTokenType();
        if sep == Comma {
          ShiftToken();
        } else if sep == BracketClose {
          break;
        } else {
          return Err(ExpectedCommaOrClose);
        }
      }
      ShiftToken();
      return Ok(list);
    }

    /** `parse_function_body`. */
    method ParseFunctionBody() returns (r: Result<seq<Expr>, ParseError>)
      modifies this`tokens
      ensures Outcome(r, tokens) == Syntax.ParseFunctionBody(old(tokens))
      decreases |tokens|, 4
    {
      var k :- CurrentTokenType();
      if k != BlockOpen {
        return Err(BodyWithoutOpenBrace);
      }
      ShiftToken();
      var list := [];
      while true
        invariant |tokens| < |old(tokens)|
        invariant ParseBody(tokens, list) == Syntax.ParseFunctionBody(old(tokens))
        decreases |tokens|
      {
        var c :- CurrentTokenType();
        if c == BlockClose {
          break;
        }
        var e :- ParsePrimary();
        list := list + [e];
      }
      ShiftToken();
      return Ok(list);
    }

    /** `parse_literal`, with `parse_number` and `parse_string`. */
    method ParseLiteral() returns (r: Result<Expr, ParseError>)
      modifies this`tokens
      ensures Outcome(r, tokens) == Syntax.ParseLiteral(old(tokens))
    {
      var k :- CurrentTokenType();
      if k == Number {
        var v := ShiftTokenValue();
        return Ok(NumberExpr(v));
      } else if k == StringLit {
        var v := ShiftTokenValue();
        return Ok(StringExpr(v));
      }
      return Err(NotLiteral);
    }

    /** `parse_brackets`. */
    method ParseBrackets() returns (r: Result<Expr, ParseError>)
      modifies this`tokens
      ensures Outcome(r, tokens) == Syntax.ParseBrackets(old(tokens))
      decreases |tokens|, 6
    {
      var k :- CurrentTokenType();
      if k != BracketOpen {
        return Err(BracketsWithoutOpen);
      }
      ShiftToken();
      var inner :- CurrentTokenType();
      if inner == BracketClose {
        ShiftToken();
        return Ok(NilExpr);
      }
      var e :- ParsePrimary();
      var close :- CurrentTokenType();
      if close != BracketClose {
        return Err(ExpectedCloseBracket);
      }
      ShiftToken();
      return Ok(e);
    }

    /** `parse_use`. */
    method ParseUse() returns (r: Result<Expr, ParseError>)
      modifies this`tokens
      ensures Outcome(r, tokens) == Syntax.ParseUse(old(tokens))
    {
      ShiftToken();
      var k :- CurrentTokenType();
      if k != Identifier {
        return Err(UseWithoutIdentifier);
      }
      var name := ShiftTokenValue();
      return Ok(UseExpr(name));
    }

    /** `parse_import`. */
    method ParseImport() returns (r: Result<Expr, ParseError>)
      modifies this`tokens
      ensures Outcome(r, tokens) == Syntax.ParseImport(old(tokens))
    {
      ShiftToken();
      var k :- CurrentTokenType();
      if k != Identifier {
        return Err(ImportWithoutIdentifier);
      }
      var name := ShiftTokenValue();
      return Ok(ImportExpr(name));
    }
  }

  /** `Parser.parse`: a new parser over the tokens, then `parse`. */
  method ParseTokens(tokens: seq<Token>) returns (r: Result<seq<Expr>, ParseError>)
    ensures r == Syntax.Parse(tokens)
  {
    var parser := new Parser(tokens);
    r := parser.Parse();
  }
}
