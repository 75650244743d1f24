/** The `Block` methods of runtime.rb as imperative code over the store of
    hashes. A `Store` holds every hash; each method takes the number of the
    table of the Block it runs on (Ruby's `self`). `assign` and `import`
    update that table in place, a call appends the new frame's table, and the
    two evaluation loops keep their running value as the Ruby loops do. Each
    method is proved to compute what the function of the same name in module
    Runtime defines; on an error the store is left unspecified, as Ruby's
    exception leaves the hashes part-way updated. */
module Blocks {
  import opened Wrappers
  import opened Syntax
  import opened Runtime

  /** A method's result paired with the store it leaves. */
  function Outcome(r: Result<Value, RuntimeError>, h: Heap): Evaluated {
    match r
    case Ok(v) => Ok((v, h))
    case Err(e) => Err(e)
  }

  class Store {
    var tables: Heap

    /** `Block.new` with no hash: the root block, whose table is GLOBALS. */
    constructor()
      ensures tables == RootHeap
    {
      tables := RootHeap;
    }

    /** `assign`: refuse a name bound to a truthy value, else bind it. */
    method Assign(t: nat, id: Name, v: Value) returns (r: Result<Value, RuntimeError>)
      modifies this
      ensures match Runtime.Assign(old(tables), t, id, v)
        case Ok(h) => r == Ok(v) && tables == h
        case Err(e) => r == Err(e) && tables == old(tables)
    {
      if Truthy(Lookup(TableAt(tables, t), id)) {
        return Err(Redefinition(id));
      }
      if t < |tables| {
        tables := tables[t := tables[t][id := v]];
      }
      return Ok(v);
    }

    /** The `ImportExpr` case of `evaluate`: `merge!` the named block's table
        into this one. */
    method Import(t: nat, n: Name) returns (r: Result<Value, RuntimeError>)
      modifies this
      ensures Outcome(r, tables) == Runtime.Import(old(tables), t, n)
      ensures r.Err? ==> tables == old(tables)
    {
      var source := Lookup(TableAt(tables, t), n);
      if !source.BlockVal? {
        return Err(NotABlock);
      }
      if t < |tables| {
        tables := tables[t := tables[t] + TableAt(tables, source.table)];
      }
      return Ok(TableVal(t));
    }

    /** `evaluate`. */
    method Evaluate(t: nat, e: Expr, fuel: nat) returns (r: Result<Value, RuntimeError>)
      modifies this
      ensures Outcome(r, tables) == Runtime.Evaluate(old(tables), t, e, fuel)
      decreases fuel, 0, 0
    {
      if fuel == 0 {
        return Err(OutOfFuel);
      }
      match e {
        case NumberExpr(v) => r := Ok(Int(ToI(v.GetOr(""))));
        case StringExpr(v) => r := Ok(Str(v.GetOr("")));
        case IdentifierExpr(n) => r := Ok(Lookup(TableAt(tables, t), n));
        case FunctionCallExpr(name, a, b) => r := EvaluateFunctionCall(t, name, a, b, fuel - 1);
        case FunctionPrototypeExpr(args, body) => r := Ok(Closure(t, args, body));
        // `evaluate_block`: the new Block shares this table.
        case BlockExpr(body) => r := EvaluateReturnBlock(t, body, fuel - 1);
        case ImportExpr(n) => r := Import(t, n);
        case _ => r := Ok(Nil);
      }
    }

    /** `evaluate_function_call`. */
    method EvaluateFunctionCall(t: nat, name: Name, a: Expr, b: Expr, fuel: nat) returns (r: Result<Value, RuntimeError>)
      modifies this
      ensures Outcome(r, tables) == Runtime.EvaluateFunctionCall(old(tables), t, name, a, b, fuel)
      decreases fuel, 4, 0
    {
      if name == Some("=") {
        assert Runtime.EvaluateFunctionCall(tables, t, name, a, b, fuel) ==
          Runtime.EvaluateAssignment(tables, t, a, b, fuel);
        r := EvaluateAssignment(t, a, b, fuel);
      } else if name == Some(".") {
        assert Runtime.EvaluateFunctionCall(tables, t, name, a, b, fuel) ==
          Runtime.EvaluateDereference(tables, t, a, b, fuel);
        r := EvaluateDereference(t, a, b, fuel);
      } else {
        assert Runtime.EvaluateFunctionCall(tables, t, name, a, b, fuel) ==
          Runtime.EvaluateCall(tables, t, name, a, b, fuel);
        r := EvaluateCall(t, name, a, b, fuel);
      }
    }

    /** Its assignment case. */
    method EvaluateAssignment(t: nat, a: Expr, b: Expr, fuel: nat) returns (r: Result<Value, RuntimeError>)
      modifies this
      ensures Outcome(r, tables) == Runtime.EvaluateAssignment(old(tables), t, a, b, fuel)
      decreases fuel, 3, 0
    {
      var id :- NameOf(a);
      var v :- Evaluate(t, b, fuel);
      r := Assign(t, id, v);
    }

    /** Its dereference case. */
    method EvaluateDereference(t: nat, a: Expr, b: Expr, fuel: nat) returns (r: Result<Value, RuntimeError>)
      modifies this
      ensures Outcome(r, tables) == Runtime.EvaluateDereference(old(tables), t, a, b, fuel)
      decreases fuel, 3, 0
    {
      ghost var before := tables;
      var scope :- Evaluate(t, a, fuel);
      if !scope.BlockVal? {
        return Err(NotABlock);
      }
      assert Runtime.EvaluateDereference(before, t, a, b, fuel) ==
        Runtime.Evaluate(tables, scope.table, b, fuel);
      r := Evaluate(scope.table, b, fuel);
    }

    /** Its general case. */
    method EvaluateCall(t: nat, name: Name, a: Expr, b: Expr, fuel: nat) returns (r: Result<Value, RuntimeError>)
      modifies this
      ensures Outcome(r, tables) == Runtime.EvaluateCall(old(tables), t, name, a, b, fuel)
      decreases fuel, 3, 0
    {
      ghost var before := tables;
      var f := Lookup(TableAt(tables, t), name);
      var x := Evaluate(t, a, fuel);
      if x.Err? {
        return x;
      }
      var y := Evaluate(t, b, fuel);
      if y.Err? {
        return y;
      }
      assert Runtime.EvaluateCall(before, t, name, a, b, fuel) ==
        CallValue(tables, f, x.value, y.value, fuel);
      r := Call(f, x.value, y.value, fuel);
    }

    /** `f.call(x, y)`: a GLOBALS lambda, or the lambda of
        `evaluate_function_prototype`, which builds a new Block on a merged
        copy of the defining table and runs the body there. */
    method Call(f: Value, x: Value, y: Value, fuel: nat) returns (r: Result<Value, RuntimeError>)
      modifies this
      ensures Outcome(r, tables) == CallValue(old(tables), f, x, y, fuel)
      decreases fuel, 2, 0
    {
      match f {
        case Builtin(op) => r := ApplyBuiltin(op, x, y);
        case Closure(d, args, body) =>
          if args.Callee? {
            return Err(BadParameters);
          }
          var frame := TableAt(tables, d) + Bind(args.ids, [x, y]);
          tables := tables + [frame];
          r := EvaluateReturnLast(|tables| - 1, body, fuel);
        case _ => r := Err(NotCallable);
      }
    }

    /** `evaluate_return_last`. */
    method EvaluateReturnLast(t: nat, es: seq<Expr>, fuel: nat) returns (r: Result<Value, RuntimeError>)
      modifies this
      ensures Outcome(r, tables) == Runtime.EvaluateReturnLast(old(tables), t, es, Nil, fuel)
      decreases fuel, 1, |es|
    {
      var returnValue := Nil;
      var i := 0;
      while i < |es|
        invariant 0 <= i <= |es|
        invariant Runtime.EvaluateReturnLast(tables, t, es[i..], returnValue, fuel) ==
                  Runtime.EvaluateReturnLast(old(tables), t, es, Nil, fuel)
      {
        assert es[i..][1..] == es[i + 1..];
        returnValue :- Evaluate(t, es[i], fuel);
        i := i + 1;
      }
      if Truthy(returnValue) {
        r := Ok(returnValue);
      } else {
        r := Ok(BlockVal(t));
      }
    }

    /** `evaluate_return_block`. */
    method EvaluateReturnBlock(t: nat, es: seq<Expr>, fuel: nat) returns (r: Result<Value, RuntimeError>)
      modifies this
      ensures Outcome(r, tables) == Runtime.EvaluateReturnBlock(old(tables), t, es, fuel)
      decreases fuel, 1, |es|
    {
      var i := 0;
      while i < |es|
        invariant 0 <= i <= |es|
        invariant Runtime.EvaluateReturnBlock(tables, t, es[i..], fuel) ==
                  Runtime.EvaluateReturnBlock(old(tables), t, es, fuel)
      {
        assert es[i..][1..] == es[i + 1..];
        var _ :- Evaluate(t, es[i], fuel);
        i := i + 1;
      }
      r := Ok(BlockVal(t));
    }
  }
}
