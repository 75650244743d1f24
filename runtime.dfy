/** The evaluator of runtime.rb as functions. A Ruby `Block` evaluates
    expressions against its `@defined_values` hash, and several blocks (and the
    closures they create) can share one hash. The hashes are therefore kept in a
    store, a sequence of tables indexed by number: a block is the number of its
    table, two blocks share a hash exactly when they hold the same number, and
    `Block.new` with a fresh hash appends a table. Evaluation is given fuel,
    since a user function may call itself without end; each nested evaluation
    uses one unit. */
module Runtime {
  import opened Wrappers
  import opened Lexing
  import opened Syntax

  /** The arithmetic lambdas of GLOBALS. */
  datatype Arith = Add | Mul | Div | Sub

  /** What an expression evaluates to. `Closure` is the lambda built from a
      function prototype in the block with table `defining`; `BlockVal` is a
      Block whose table is `table`; `TableVal` is the hash that `import` returns. */
  datatype Value =
    | Nil
    | Int(i: int)
    | Str(s: string)
    | Builtin(op: Arith)
    | Closure(defining: nat, args: PrototypeArgs, body: seq<Expr>)
    | BlockVal(table: nat)
    | TableVal(table: nat)

  type Table = map<Name, Value>

  /** All hashes, by number. */
  type Heap = seq<Table>

  /** The Ruby errors evaluation can raise. */
  datatype RuntimeError =
    | Redefinition(name: Name)    // `assign` on a name bound to a truthy value
    | NoName                      // `.name` on an expression that has none
    | NotABlock                   // `.evaluate` or `.defined_values` on a non-block
    | NotCallable                 // `.call` on a value that is not a lambda
    | BadParameters               // `f(...)` prototypes: `.name` on the callee's string
    | ZeroDivision
    | UnsupportedOperand          // built-in arithmetic on a non-integer
    | OutOfFuel

  /** Ruby truthiness: `nil` is the only false value a program can produce. */
  predicate Truthy(v: Value) {
    !v.Nil?
  }

  /** The table numbered `t` (empty for a number that names none). */
  function TableAt(h: Heap, t: nat): Table {
    if t < |h| then h[t] else map[]
  }

  /** `hash[k]`: the bound value, or nil. */
  function Lookup(m: Table, k: Name): Value {
    if k in m then m[k] else Nil
  }

  /** Replace table `t`. */
  function Store(h: Heap, t: nat, m: Table): (h': Heap)
    ensures |h'| == |h|
  {
    if t < |h| then h[t := m] else h
  }

  /** GLOBALS: the four arithmetic built-ins. */
  const Globals: Table :=
    map[Some("+") := Builtin(Add), Some("*") := Builtin(Mul),
        Some("/") := Builtin(Div), Some("-") := Builtin(Sub)]

  /** The store holding only the root block's table, number 0. */
  const RootHeap: Heap := [Globals]

  /** `assign`: bind `id` in table `t`, unless it is bound to a truthy value. */
  function Assign(h: Heap, t: nat, id: Name, v: Value): Result<Heap, RuntimeError> {
    if Truthy(Lookup(TableAt(h, t), id)) then Err(Redefinition(id))
    else Ok(Store(h, t, TableAt(h, t)[id := v]))
  }

  /** Ruby's Integer#/, which rounds toward negative infinity. */
  function FloorDiv(a: int, b: int): int
    requires b != 0
  {
    if b > 0 then a / b else (-a) / (-b)
  }

  /** A GLOBALS lambda applied to two arguments. */
  function ApplyBuiltin(op: Arith, x: Value, y: Value): Result<Value, RuntimeError> {
    if !x.Int? || !y.Int? then Err(UnsupportedOperand)
    else
      match op
      case Add => Ok(Int(x.i + y.i))
      case Sub => Ok(Int(x.i - y.i))
      case Mul => Ok(Int(x.i * y.i))
      case Div => if y.i == 0 then Err(ZeroDivision) else Ok(Int(FloorDiv(x.i, y.i)))
  }

  /** `call_args[idx]`: nil past the end. */
  function ArgAt(args: seq<Value>, i: nat): Value {
    if i < |args| then args[i] else Nil
  }

  /** The `reduce` of `evaluate_function_prototype`: each identifier, in order,
      bound to the argument at its position. */
  function Bind(ids: seq<Name>, args: seq<Value>): Table {
    if ids == [] then map[]
    else Bind(ids[..|ids| - 1], args)[ids[|ids| - 1] := ArgAt(args, |ids| - 1)]
  }

  /** `String#to_i` on a run of digits: the number the leading digits spell. */
  function ToI(s: string): nat {
    LeadingNumber(s, 0)
  }

  function LeadingNumber(s: string, acc: nat): nat
    decreases |s|
  {
    if s == [] || !IsDigit(s[0]) then acc
    else LeadingNumber(s[1..], acc * 10 + (s[0] as int - '0' as int))
  }

  /** `expr.args[0].name`: only identifier, use and import nodes have a name. */
  function NameOf(e: Expr): Result<Name, RuntimeError> {
    match e
    case IdentifierExpr(n) => Ok(n)
    case UseExpr(n) => Ok(n)
    case ImportExpr(n) => Ok(n)
    case _ => Err(NoName)
  }

  /** What evaluation yields: a value and the store after it. */
  type Evaluated = Result<(Value, Heap), RuntimeError>

  /** `evaluate` in the block whose table is `t`. */
  function Evaluate(h: Heap, t: nat, e: Expr, fuel: nat): (r: Evaluated)
    ensures r.Ok? ==> |h| <= |r.value.1|
    decreases fuel, 0, 0
  {
    if fuel == 0 then Err(OutOfFuel)
    else
      match e
      case NumberExpr(v) => Ok((Int(ToI(v.GetOr(""))), h))
      case StringExpr(v) => Ok((Str(v.GetOr("")), h))
      case IdentifierExpr(n) => Ok((Lookup(TableAt(h, t), n), h))
      case FunctionCallExpr(name, a, b) => EvaluateFunctionCall(h, t, name, a, b, fuel - 1)
      case FunctionPrototypeExpr(args, body) => Ok((Closure(t, args, body), h))
      case BlockExpr(body) => EvaluateReturnBlock(h, t, body, fuel - 1)
      case ImportExpr(n) => Import(h, t, n)
      case _ => Ok((Nil, h))
  }

  /** The `ImportExpr` case: merge the named block's table into this one,
      overwriting, and yield this block's hash. */
  function Import(h: Heap, t: nat, n: Name): (r: Evaluated)
    ensures r.Ok? ==> |h| == |r.value.1|
  {
    match Lookup(TableAt(h, t), n)
    case BlockVal(u) => Ok((TableVal(t), Store(h, t, TableAt(h, t) + TableAt(h, u))))
    case _ => Err(NotABlock)
  }

  /** `evaluate_function_call`: `=` assigns, `.` evaluates its right side in the
      block its left side yields, and any other name is looked up and called on
      both arguments. */
  function EvaluateFunctionCall(h: Heap, t: nat, name: Name, a: Expr, b: Expr, fuel: nat): (r: Evaluated)
    ensures r.Ok? ==> |h| <= |r.value.1|
    decreases fuel, 4, 0
  {
    if name == Some("=") then EvaluateAssignment(h, t, a, b, fuel)
    else if name == Some(".") then EvaluateDereference(h, t, a, b, fuel)
    else EvaluateCall(h, t, name, a, b, fuel)
  }

  /** The assignment case: the target's name, then the value, then `assign`;
      the value is the result. */
  function EvaluateAssignment(h: Heap, t: nat, a: Expr, b: Expr, fuel: nat): (r: Evaluated)
    ensures r.Ok? ==> |h| <= |r.value.1|
    decreases fuel, 3, 0
  {
    var id :- NameOf(a);
    var vb :- Evaluate(h, t, b, fuel);
    var h' :- Assign(vb.1, t, id, vb.0);
    Ok((vb.0, h'))
  }

  /** The dereference case: the left side must yield a block, whose table the
      right side is evaluated against. */
  function EvaluateDereference(h: Heap, t: nat, a: Expr, b: Expr, fuel: nat): (r: Evaluated)
    ensures r.Ok? ==> |h| <= |r.value.1|
    decreases fuel, 3, 0
  {
    var va :- Evaluate(h, t, a, fuel);
    match va.0
    case BlockVal(u) => Evaluate(va.1, u, b, fuel)
    case _ => Err(NotABlock)
  }

  /** Any other name: look it up, evaluate both arguments in order, call. */
  function EvaluateCall(h: Heap, t: nat, name: Name, a: Expr, b: Expr, fuel: nat): (r: Evaluated)
    ensures r.Ok? ==> |h| <= |r.value.1|
    decreases fuel, 3, 0
  {
    var f := Lookup(TableAt(h, t), name);
    var va :- Evaluate(h, t, a, fuel);
    var vb :- Evaluate(va.1, t, b, fuel);
    CallValue(vb.1, f, va.0, vb.0, fuel)
  }

  /** `f.call(x, y)`: a built-in applies its arithmetic; a closure from a
      function definition runs its body in a new block whose table is the
      defining table, as it is now, merged with the parameters. */
  function CallValue(h: Heap, f: Value, x: Value, y: Value, fuel: nat): (r: Evaluated)
    ensures r.Ok? ==> |h| <= |r.value.1|
    decreases fuel, 2, 0
  {
    match f
    case Builtin(op) =>
      var v :- ApplyBuiltin(op, x, y);
      Ok((v, h))
    case Closure(d, args, body) =>
      if args.Callee? then Err(BadParameters)
      else
        EvaluateReturnLast(h + [CallFrame(h, d, args.ids, x, y)], |h|, body, Nil, fuel)
    case _ => Err(NotCallable)
  }

  /** `evaluate_return_last`: evaluate in order; the last value, or the block
      itself if that is nil or there was none. `last` is the value so far. */
  function EvaluateReturnLast(h: Heap, t: nat, es: seq<Expr>, last: Value, fuel: nat): (r: Evaluated)
    ensures r.Ok? ==> |h| <= |r.value.1|
    decreases fuel, 1, |es|
  {
    if es == [] then Ok((if Truthy(last) then last else BlockVal(t), h))
    else
      var v :- Evaluate(h, t, es[0], fuel);
      EvaluateReturnLast(v.1, t, es[1..], v.0, fuel)
  }

  /** `evaluate_return_block` (through `evaluate_block`, whose new Block shares
      this table): evaluate in order, then yield the block. */
  function EvaluateReturnBlock(h: Heap, t: nat, es: seq<Expr>, fuel: nat): (r: Evaluated)
    ensures r.Ok? ==> |h| <= |r.value.1|
    decreases fuel, 1, |es|
  {
    if es == [] then Ok((BlockVal(t), h))
    else
      var v :- Evaluate(h, t, es[0], fuel);
      EvaluateReturnBlock(v.1, t, es[1..], fuel)
  }

  /** `exprs.each { evaluate }`: every value, in order, and the final store. */
  function EvaluateAll(h: Heap, t: nat, es: seq<Expr>, fuel: nat): (r: Result<(seq<Value>, Heap), RuntimeError>)
    ensures r.Ok? ==> |r.value.0| == |es|
    decreases |es|
  {
    if es == [] then Ok(([], h))
    else
      var v :- Evaluate(h, t, es[0], fuel);
      var rest :- EvaluateAll(v.1, t, es[1..], fuel);
      Ok(([v.0] + rest.0, rest.1))
  }

  /** The frame a closure call evaluates in: the defining table, as it is at
      the call, merged with the parameter bindings. */
  function CallFrame(h: Heap, d: nat, ids: seq<Name>, x: Value, y: Value): Table {
    TableAt(h, d) + Bind(ids, [x, y])
  }

  /** The last position of `k` in `ids`. */
  function LastIndexOf(ids: seq<Name>, k: Name): (i: nat)
    requires k in ids
    ensures i < |ids| && ids[i] == k
    ensures forall j :: i < j < |ids| ==> ids[j] != k
  {
    if ids[|ids| - 1] == k then |ids| - 1 else LastIndexOf(ids[..|ids| - 1], k)
  }

  /** `to_i` of a single digit. */
  lemma DigitValue(c: char)
    requires IsDigit(c)
    ensures ToI([c]) == c as int - '0' as int
  {
    assert [c][1..] == [];
    assert LeadingNumber([c], 0) == LeadingNumber([], c as int - '0' as int);
  }

  // ---- assign and `=` ----

  /** `assign` succeeds exactly when the name is unbound or bound to nil; it
      then binds the name in table `t` and changes nothing else. */
  lemma AssignBindsUnboundName(h: Heap, t: nat, id: Name, v: Value)
    requires t < |h|
    ensures Assign(h, t, id, v).Ok? <==> !Truthy(Lookup(h[t], id))
    ensures Assign(h, t, id, v).Err? ==> Assign(h, t, id, v).error == Redefinition(id)
    ensures Assign(h, t, id, v).Ok? ==>
      var h' := Assign(h, t, id, v).value;
      |h'| == |h| && Lookup(h'[t], id) == v &&
      (forall k :: k != id ==> Lookup(h'[t], k) == Lookup(h[t], k)) &&
      (forall u :: 0 <= u < |h| && u != t ==> h'[u] == h[u])
  {
  }

  /** A name bound to a truthy value cannot be assigned again. */
  lemma AssignOnlyOnce(h: Heap, t: nat, id: Name, v: Value, w: Value)
    requires t < |h| && Truthy(v) && Assign(h, t, id, v).Ok?
    ensures Assign(Assign(h, t, id, v).value, t, id, w) == Err(Redefinition(id))
  {
    AssignBindsUnboundName(h, t, id, v);
  }

  /** `x = e` evaluates `e`, binds its value under `x` in this block's table
      through `assign`, and yields that value. */
  lemma AssignmentYieldsValue(h: Heap, t: nat, x: Name, e: Expr, fuel: nat)
    requires t < |h|
    ensures var r := Evaluate(h, t, FunctionCallExpr(Some("="), IdentifierExpr(x), e), fuel + 1);
      var ev := Evaluate(h, t, e, fuel);
      (ev.Err? ==> r == Err(ev.error)) &&
      (ev.Ok? ==>
        (r.Ok? <==> !Truthy(Lookup(ev.value.1[t], x))) &&
        (r.Ok? ==> r.value.0 == ev.value.0 && Lookup(r.value.1[t], x) == ev.value.0))
  {
    var ev := Evaluate(h, t, e, fuel);
    assert Evaluate(h, t, FunctionCallExpr(Some("="), IdentifierExpr(x), e), fuel + 1) ==
      EvaluateAssignment(h, t, IdentifierExpr(x), e, fuel);
    if ev.Ok? {
      AssignBindsUnboundName(ev.value.1, t, x, ev.value.0);
    }
  }

  /** The target's name is taken before the right side is evaluated: a target
      without a name fails whatever the right side is. */
  lemma AssignmentNeedsName(h: Heap, t: nat, a: Expr, b: Expr, fuel: nat)
    requires !a.IdentifierExpr? && !a.UseExpr? && !a.ImportExpr?
    ensures Evaluate(h, t, FunctionCallExpr(Some("="), a, b), fuel + 1) == Err(NoName)
  {
    assert Evaluate(h, t, FunctionCallExpr(Some("="), a, b), fuel + 1) ==
      EvaluateAssignment(h, t, a, b, fuel);
  }

  /** `x = 5; x = 6;` in the root block fails on the second assignment. */
  lemma RebindingFails(fuel: nat)
    requires fuel >= 2
    ensures
      var x := IdentifierExpr(Some("x"));
      var program := [FunctionCallExpr(Some("="), x, NumberExpr(Some("5"))),
                      FunctionCallExpr(Some("="), x, NumberExpr(Some("6")))];
      EvaluateReturnLast(RootHeap, 0, program, Nil, fuel) == Err(Redefinition(Some("x")))
  {
    var x := IdentifierExpr(Some("x"));
    var first := FunctionCallExpr(Some("="), x, NumberExpr(Some("5")));
    var second := FunctionCallExpr(Some("="), x, NumberExpr(Some("6")));
    assert Some("x") !in Globals;
    var h1 := [Globals[Some("x") := Int(5)]];
    DigitValue('5');
    DigitValue('6');
    assert Evaluate(RootHeap, 0, NumberExpr(Some("5")), fuel - 1) == Ok((Int(5), RootHeap));
    assert RootHeap[0 := Globals[Some("x") := Int(5)]] == h1;
    assert Assign(RootHeap, 0, Some("x"), Int(5)) == Ok(h1);
    assert Evaluate(RootHeap, 0, first, fuel) ==
      EvaluateAssignment(RootHeap, 0, x, NumberExpr(Some("5")), fuel - 1);
    assert Evaluate(RootHeap, 0, first, fuel) == Ok((Int(5), h1));
    assert Evaluate(h1, 0, NumberExpr(Some("6")), fuel - 1) == Ok((Int(6), h1));
    assert Evaluate(h1, 0, second, fuel) ==
      EvaluateAssignment(h1, 0, x, NumberExpr(Some("6")), fuel - 1);
    assert Evaluate(h1, 0, second, fuel) == Err(Redefinition(Some("x")));
    assert [first, second][1..] == [second];
  }

  // ---- evaluate_return_last and evaluate_return_block ----

  /** `evaluate_return_last` yields the value of the last expression, or the
      block itself when that value is nil or there are no expressions; the
      store is the one all the expressions leave. */
  lemma {:induction false} ReturnLastYieldsFinalValue(h: Heap, t: nat, es: seq<Expr>, last: Value, fuel: nat)
    ensures EvaluateReturnLast(h, t, es, last, fuel) ==
      match EvaluateAll(h, t, es, fuel)
      case Err(e) => Err(e)
      case Ok(p) =>
        var v := if p.0 == [] then last else p.0[|p.0| - 1];
        Ok((if Truthy(v) then v else BlockVal(t), p.1))
    decreases |es|
  {
    if es != [] {
      var ev := Evaluate(h, t, es[0], fuel);
      if ev.Ok? {
        ReturnLastYieldsFinalValue(ev.value.1, t, es[1..], ev.value.0, fuel);
      }
    }
  }

  /** So a successful `evaluate_return_last` never yields nil. */
  lemma ReturnLastIsTruthy(h: Heap, t: nat, es: seq<Expr>, fuel: nat)
    ensures EvaluateReturnLast(h, t, es, Nil, fuel).Ok? ==>
      Truthy(EvaluateReturnLast(h, t, es, Nil, fuel).value.0)
    ensures EvaluateReturnLast(h, t, [], Nil, fuel) == Ok((BlockVal(t), h))
  {
    ReturnLastYieldsFinalValue(h, t, es, Nil, fuel);
  }

  /** `evaluate_return_block` runs every expression and yields the block. */
  lemma {:induction false} ReturnBlockYieldsBlock(h: Heap, t: nat, es: seq<Expr>, fuel: nat)
    ensures EvaluateReturnBlock(h, t, es, fuel) ==
      match EvaluateAll(h, t, es, fuel)
      case Err(e) => Err(e)
      case Ok(p) => Ok((BlockVal(t), p.1))
    decreases |es|
  {
    if es != [] {
      var ev := Evaluate(h, t, es[0], fuel);
      if ev.Ok? {
        ReturnBlockYieldsBlock(ev.value.1, t, es[1..], fuel);
      }
    }
  }

  // ---- closures ----

  /** The `reduce` binds exactly the parameter names, each to the argument at
      its last position, or nil when there is no argument there. */
  lemma {:induction false} BindPositional(ids: seq<Name>, args: seq<Value>, k: Name)
    ensures k in Bind(ids, args) <==> k in ids
    ensures k in ids ==> Bind(ids, args)[k] == ArgAt(args, LastIndexOf(ids, k))
    decreases |ids|
  {
    if ids != [] {
      var init := ids[..|ids| - 1];
      BindPositional(init, args, k);
      assert ids == init + [ids[|ids| - 1]];
      if k != ids[|ids| - 1] && k in ids {
        assert k in init;
      }
    }
  }

  /** In a call frame the parameters shadow the defining table; a parameter
      past the two arguments is nil, and every other name is looked up in
      the defining table as it is at the call. */
  lemma CallFrameLookup(h: Heap, d: nat, ids: seq<Name>, x: Value, y: Value, k: Name)
    ensures k in ids ==> (Lookup(CallFrame(h, d, ids, x, y), k) ==
      var i := LastIndexOf(ids, k); if i == 0 then x else if i == 1 then y else Nil)
    ensures k !in ids ==> Lookup(CallFrame(h, d, ids, x, y), k) == Lookup(TableAt(h, d), k)
  {
    BindPositional(ids, [x, y], k);
  }

  /** A closure reads the defining table when it is called, not when it was
      built: a body naming `y` yields `y`'s binding in the defining table at
      call time. */
  lemma ClosureSeesCallTimeBindings(h: Heap, d: nat, ids: seq<Name>, y: Name, a: Value, b: Value, fuel: nat)
    requires y !in ids && Truthy(Lookup(TableAt(h, d), y))
    ensures CallValue(h, Closure(d, Params(ids), [IdentifierExpr(y)]), a, b, fuel + 1) ==
      Ok((Lookup(TableAt(h, d), y), h + [CallFrame(h, d, ids, a, b)]))
  {
    var frame := CallFrame(h, d, ids, a, b);
    CallFrameLookup(h, d, ids, a, b, y);
    var h1 := h + [frame];
    assert TableAt(h1, |h|) == frame;
    var v := Lookup(TableAt(h, d), y);
    assert Evaluate(h1, |h|, IdentifierExpr(y), fuel + 1) == Ok((v, h1));
    assert [IdentifierExpr(y)][1..] == [];
    assert EvaluateReturnLast(h1, |h|, [], v, fuel + 1) == Ok((v, h1));
  }

  /** A parameter yields the argument at its position. */
  lemma ParameterYieldsArgument(h: Heap, d: nat, ids: seq<Name>, i: nat, a: Value, b: Value, fuel: nat)
    requires i < |ids| && forall j :: i < j < |ids| ==> ids[j] != ids[i]
    requires Truthy(ArgAt([a, b], i))
    ensures CallValue(h, Closure(d, Params(ids), [IdentifierExpr(ids[i])]), a, b, fuel + 1) ==
      Ok((ArgAt([a, b], i), h + [CallFrame(h, d, ids, a, b)]))
  {
    var frame := CallFrame(h, d, ids, a, b);
    BindPositional(ids, [a, b], ids[i]);
    assert LastIndexOf(ids, ids[i]) == i;
    var h1 := h + [frame];
    assert TableAt(h1, |h|) == frame;
    var v := ArgAt([a, b], i);
    assert Lookup(frame, ids[i]) == v;
    assert Evaluate(h1, |h|, IdentifierExpr(ids[i]), fuel + 1) == Ok((v, h1));
    assert [IdentifierExpr(ids[i])][1..] == [];
    assert EvaluateReturnLast(h1, |h|, [], v, fuel + 1) == Ok((v, h1));
  }

  /** Expressions whose evaluation can change only the current table, apart
      from the frames of the calls it makes: everything but a dereference,
      with the bodies of function definitions and blocks made of these too.
      Calls of built-ins and of user functions are included. */
  predicate Local(e: Expr) {
    match e
    case FunctionCallExpr(name, a, b) => name != Some(".") && Local(a) && Local(b)
    case FunctionPrototypeExpr(_, body) => forall i :: 0 <= i < |body| ==> Local(body[i])
    case BlockExpr(body) => forall i :: 0 <= i < |body| ==> Local(body[i])
    case _ => true
  }

  /** Expressions that call nothing but `=`: they add no frame to the store. */
  predicate CallFree(e: Expr) {
    match e
    case FunctionCallExpr(name, _, b) => name == Some("=") && CallFree(b)
    case BlockExpr(body) => forall i :: 0 <= i < |body| ==> CallFree(body[i])
    case _ => true
  }

  /** A value whose calls stay local: a closure's body is local. */
  predicate LocalValue(v: Value) {
    v.Closure? ==> forall i :: 0 <= i < |v.body| ==> Local(v.body[i])
  }

  predicate LocalTable(m: Table) {
    forall k :: k in m ==> LocalValue(m[k])
  }

  /** The invariant under which locality holds: every closure in the store
      has a local body. */
  predicate LocalHeap(h: Heap) {
    forall u :: 0 <= u < |h| ==> LocalTable(h[u])
  }

  /** `h'` extends `h` and agrees with it on every table but `t`. */
  predicate KeepsOtherTables(h: Heap, h': Heap, t: nat) {
    |h| <= |h'| && forall u :: 0 <= u < |h| && u != t ==> h'[u] == h[u]
  }

  /** The root store satisfies the invariant: it holds only built-ins. */
  lemma RootIsLocal()
    ensures LocalHeap(RootHeap)
  {
  }

  lemma StoreKeepsLocal(h: Heap, t: nat, m: Table)
    requires LocalHeap(h) && LocalTable(m)
    ensures LocalHeap(Store(h, t, m)) && KeepsOtherTables(h, Store(h, t, m), t)
  {
  }

  lemma {:induction false} BindIsLocal(ids: seq<Name>, args: seq<Value>)
    requires forall i :: 0 <= i < |args| ==> LocalValue(args[i])
    ensures LocalTable(Bind(ids, args))
    decreases |ids|
  {
    if ids != [] {
      BindIsLocal(ids[..|ids| - 1], args);
    }
  }

  /** Evaluating a local expression changes no table but the one it runs in:
      other tables stay as they were, the store may grow, and it does not
      grow when the expression calls nothing but `=`. The store keeps the
      invariant and the value is local. */
  lemma {:induction false} LocalChangesOwnTable(h: Heap, t: nat, e: Expr, fuel: nat)
    requires Local(e) && LocalHeap(h) && Evaluate(h, t, e, fuel).Ok?
    ensures var (v, h') := Evaluate(h, t, e, fuel).value;
      KeepsOtherTables(h, h', t) && LocalHeap(h') && LocalValue(v) &&
      (CallFree(e) ==> |h'| == |h|)
    decreases fuel, 0
  {
    match e
    case FunctionCallExpr(name, a, b) =>
      if name == Some("=") {
        assert Evaluate(h, t, e, fuel) == EvaluateAssignment(h, t, a, b, fuel - 1);
        LocalChangesOwnTable(h, t, b, fuel - 1);
        var vb := Evaluate(h, t, b, fuel - 1).value;
        StoreKeepsLocal(vb.1, t, TableAt(vb.1, t)[NameOf(a).value := vb.0]);
      } else {
        assert Evaluate(h, t, e, fuel) == EvaluateCall(h, t, name, a, b, fuel - 1);
        LocalCallChangesOwnTable(h, t, name, a, b, fuel - 1);
      }
    case BlockExpr(body) =>
      ReturnBlockYieldsBlock(h, t, body, fuel - 1);
      LocalListChangesOwnTable(h, t, body, fuel - 1);
    case ImportExpr(n) =>
      var u := Lookup(TableAt(h, t), n).table;
      StoreKeepsLocal(h, t, TableAt(h, t) + TableAt(h, u));
    case _ =>
  }

  /** The same for a list of local expressions run in order; every value is local. */
  lemma {:induction false} LocalListChangesOwnTable(h: Heap, t: nat, es: seq<Expr>, fuel: nat)
    requires forall i :: 0 <= i < |es| ==> Local(es[i])
    requires LocalHeap(h) && EvaluateAll(h, t, es, fuel).Ok?
    ensures var (vs, h') := EvaluateAll(h, t, es, fuel).value;
      KeepsOtherTables(h, h', t) && LocalHeap(h') &&
      (forall i :: 0 <= i < |vs| ==> LocalValue(vs[i])) &&
      ((forall i :: 0 <= i < |es| ==> CallFree(es[i])) ==> |h'| == |h|)
    decreases fuel, 1, |es|
  {
    if es != [] {
      LocalChangesOwnTable(h, t, es[0], fuel);
      var v := Evaluate(h, t, es[0], fuel).value;
      LocalListChangesOwnTable(v.1, t, es[1..], fuel);
    }
  }

  /** A call of anything but `=` and `.` with local arguments: only the
      arguments can change the current table. */
  lemma {:induction false} LocalCallChangesOwnTable(h: Heap, t: nat, name: Name, a: Expr, b: Expr, fuel: nat)
    requires Local(a) && Local(b) && LocalHeap(h)
    requires EvaluateCall(h, t, name, a, b, fuel).Ok?
    ensures var (v, h') := EvaluateCall(h, t, name, a, b, fuel).value;
      KeepsOtherTables(h, h', t) && LocalHeap(h') && LocalValue(v)
    decreases fuel, 3
  {
    LocalChangesOwnTable(h, t, a, fuel);
    var va := Evaluate(h, t, a, fuel).value;
    LocalChangesOwnTable(va.1, t, b, fuel);
    var vb := Evaluate(va.1, t, b, fuel).value;
    LocalCallValue(vb.1, Lookup(TableAt(h, t), name), va.0, vb.0, fuel);
  }

  /** Applying a local value: a function's body runs in its own new frame,
      so every existing table stays as it was. */
  lemma {:induction false} LocalCallValue(h: Heap, f: Value, x: Value, y: Value, fuel: nat)
    requires LocalHeap(h) && LocalValue(f) && LocalValue(x) && LocalValue(y)
    requires CallValue(h, f, x, y, fuel).Ok?
    ensures var (v, h') := CallValue(h, f, x, y, fuel).value;
      |h| <= |h'| && (forall u :: 0 <= u < |h| ==> h'[u] == h[u]) && LocalHeap(h') && LocalValue(v)
    decreases fuel, 2
  {
    if f.Closure? {
      var h1 := h + [CallFrame(h, f.defining, f.args.ids, x, y)];
      BindIsLocal(f.args.ids, [x, y]);
      assert LocalHeap(h1);
      ReturnLastYieldsFinalValue(h1, |h|, f.body, Nil, fuel);
      LocalListChangesOwnTable(h1, |h|, f.body, fuel);
    }
  }

  /** Calling a function leaves every existing table as it was, the defining
      one included: the body's assignments go to the new frame. It adds that
      frame, and no more when the body calls nothing but `=`. */
  lemma CallKeepsExistingTables(h: Heap, d: nat, ids: seq<Name>, body: seq<Expr>, a: Value, b: Value, fuel: nat)
    requires forall i :: 0 <= i < |body| ==> Local(body[i])
    requires LocalHeap(h) && LocalValue(a) && LocalValue(b)
    requires CallValue(h, Closure(d, Params(ids), body), a, b, fuel).Ok?
    ensures var h' := CallValue(h, Closure(d, Params(ids), body), a, b, fuel).value.1;
      |h| + 1 <= |h'| && (forall u :: 0 <= u < |h| ==> h'[u] == h[u]) &&
      ((forall i :: 0 <= i < |body| ==> CallFree(body[i])) ==> |h'| == |h| + 1)
  {
    var h1 := h + [CallFrame(h, d, ids, a, b)];
    BindIsLocal(ids, [a, b]);
    assert LocalHeap(h1);
    ReturnLastYieldsFinalValue(h1, |h|, body, Nil, fuel);
    LocalListChangesOwnTable(h1, |h|, body, fuel);
  }

  // ---- dereference, import and blocks ----

  /** `a . b` evaluates `a`; if that is a block, `b` is evaluated against that
      block's table, and otherwise the call fails. */
  lemma DotEvaluatesInTarget(h: Heap, t: nat, a: Expr, b: Expr, fuel: nat)
    ensures var r := Evaluate(h, t, FunctionCallExpr(Some("."), a, b), fuel + 1);
      var ea := Evaluate(h, t, a, fuel);
      (ea.Err? ==> r == Err(ea.error)) &&
      (ea.Ok? && ea.value.0.BlockVal? ==> r == Evaluate(ea.value.1, ea.value.0.table, b, fuel)) &&
      (ea.Ok? && !ea.value.0.BlockVal? ==> r == Err(NotABlock))
  {
    assert Evaluate(h, t, FunctionCallExpr(Some("."), a, b), fuel + 1) ==
      EvaluateDereference(h, t, a, b, fuel);
  }

  /** `m . x` reads `x` from the table of the block bound to `m`, whatever the
      current table binds `x` to. */
  lemma DotReadsTargetTable(h: Heap, t: nat, m: Name, x: Name, fuel: nat)
    requires Lookup(TableAt(h, t), m).BlockVal?
    ensures Evaluate(h, t, FunctionCallExpr(Some("."), IdentifierExpr(m), IdentifierExpr(x)), fuel + 2) ==
      Ok((Lookup(TableAt(h, Lookup(TableAt(h, t), m).table), x), h))
  {
    var u := Lookup(TableAt(h, t), m).table;
    assert Evaluate(h, t, IdentifierExpr(m), fuel + 1) == Ok((BlockVal(u), h));
    assert Evaluate(h, u, IdentifierExpr(x), fuel + 1) == Ok((Lookup(TableAt(h, u), x), h));
    DotEvaluatesInTarget(h, t, IdentifierExpr(m), IdentifierExpr(x), fuel + 1);
  }

  /** `m . x = e` assigns `x` in the table of the block bound to `m`. When `m`
      is another block and `e` is local, the current table is left as it was. */
  lemma DotAssignsInTarget(h: Heap, t: nat, m: Name, x: Name, e: Expr, fuel: nat)
    requires Lookup(TableAt(h, t), m).BlockVal?
    requires Lookup(TableAt(h, t), m).table < |h|
    ensures var u := Lookup(TableAt(h, t), m).table;
      var r := Evaluate(h, t, FunctionCallExpr(Some("."), IdentifierExpr(m),
                                       FunctionCallExpr(Some("="), IdentifierExpr(x), e)), fuel + 3);
      (r.Ok? ==> Lookup(r.value.1[u], x) == r.value.0) &&
      (r.Ok? && t < |h| && u != t && Local(e) && LocalHeap(h) ==> r.value.1[t] == h[t])
  {
    var u := Lookup(TableAt(h, t), m).table;
    var assignment := FunctionCallExpr(Some("="), IdentifierExpr(x), e);
    assert Evaluate(h, t, IdentifierExpr(m), fuel + 2) == Ok((BlockVal(u), h));
    DotEvaluatesInTarget(h, t, IdentifierExpr(m), assignment, fuel + 2);
    AssignmentYieldsValue(h, u, x, e, fuel + 1);
    if Local(e) && LocalHeap(h) && Evaluate(h, u, assignment, fuel + 2).Ok? {
      LocalChangesOwnTable(h, u, assignment, fuel + 2);
    }
  }

  /** `import m` merges the table of the block bound to `m` into the current
      one: every name it binds takes its value there, even a name already
      bound here, with no redefinition check; other names and other tables are
      kept; the result is the current table. Anything but a block fails. */
  lemma ImportOverwrites(h: Heap, t: nat, m: Name, fuel: nat)
    requires t < |h|
    ensures var r := Evaluate(h, t, ImportExpr(m), fuel + 1);
      (r.Ok? <==> Lookup(h[t], m).BlockVal?) &&
      (r.Err? ==> r.error == NotABlock) &&
      (r.Ok? ==>
        var src := TableAt(h, Lookup(h[t], m).table);
        var h' := r.value.1;
        r.value.0 == TableVal(t) && |h'| == |h| &&
        (forall k :: k in src ==> Lookup(h'[t], k) == src[k]) &&
        (forall k :: k !in src ==> Lookup(h'[t], k) == Lookup(h[t], k)) &&
        (forall u :: 0 <= u < |h| && u != t ==> h'[u] == h[u]))
  {
  }

  /** A block's expressions run against the enclosing table itself, so what
      they bind stays bound there, and the block yields the enclosing block. */
  lemma BlockSharesTable(h: Heap, t: nat, body: seq<Expr>, fuel: nat)
    ensures Evaluate(h, t, BlockExpr(body), fuel + 1) ==
      match EvaluateAll(h, t, body, fuel)
      case Err(e) => Err(e)
      case Ok(p) => Ok((BlockVal(t), p.1))
  {
    ReturnBlockYieldsBlock(h, t, body, fuel);
  }

  /** `{ x = 5; }` binds `x` to 5 in the enclosing table. */
  lemma BlockAssignmentVisible(h: Heap, t: nat, x: Name, fuel: nat)
    requires t < |h| && !Truthy(Lookup(h[t], x)) && fuel >= 2
    ensures var r := Evaluate(h, t, BlockExpr([FunctionCallExpr(Some("="), IdentifierExpr(x), NumberExpr(Some("5")))]), fuel + 1);
      r.Ok? && r.value.0 == BlockVal(t) && Lookup(r.value.1[t], x) == Int(5)
  {
    var assignment := FunctionCallExpr(Some("="), IdentifierExpr(x), NumberExpr(Some("5")));
    DigitValue('5');
    assert Evaluate(h, t, NumberExpr(Some("5")), fuel - 1) == Ok((Int(5), h));
    var h1 := h[t := h[t][x := Int(5)]];
    assert Evaluate(h, t, assignment, fuel) ==
      EvaluateAssignment(h, t, IdentifierExpr(x), NumberExpr(Some("5")), fuel - 1);
    assert Evaluate(h, t, assignment, fuel) == Ok((Int(5), h1));
    assert [assignment][1..] == [];
    assert EvaluateReturnBlock(h, t, [assignment], fuel) == Ok((BlockVal(t), h1));
  }

  // ---- built-ins and literals ----

  /** Division rounds toward negative infinity: the remainder is zero or has
      the divisor's sign and is smaller than it in size. */
  lemma FloorDivRoundsDown(a: int, b: int)
    requires b != 0
    ensures var m := a - b * FloorDiv(a, b);
      (b > 0 ==> 0 <= m < b) && (b < 0 ==> b < m <= 0)
  {
    if b < 0 {
      var q := (-a) / (-b);
      assert (-a) == (-b) * q + (-a) % (-b);
    }
  }

  /** Ruby's `-7 / 2` is -4, and `7 / -2` is -4. */
  lemma FloorDivExamples()
    ensures FloorDiv(-7, 2) == -4 && FloorDiv(7, -2) == -4 && FloorDiv(-7, -2) == 3
  {
  }

  /** A call to a built-in name evaluates both arguments in order and applies
      the arithmetic to their values. */
  lemma BuiltinCall(h: Heap, t: nat, name: Name, op: Arith, a: Expr, b: Expr, fuel: nat)
    requires name != Some("=") && name != Some(".")
    requires Lookup(TableAt(h, t), name) == Builtin(op)
    requires Evaluate(h, t, a, fuel).Ok?
    requires Evaluate(Evaluate(h, t, a, fuel).value.1, t, b, fuel).Ok?
    ensures var ea := Evaluate(h, t, a, fuel).value;
      var eb := Evaluate(ea.1, t, b, fuel).value;
      var r := Evaluate(h, t, FunctionCallExpr(name, a, b), fuel + 1);
      match ApplyBuiltin(op, ea.0, eb.0)
      case Ok(v) => r == Ok((v, eb.1))
      case Err(e) => r == Err(e)
  {
    var ea := Evaluate(h, t, a, fuel).value;
    var eb := Evaluate(ea.1, t, b, fuel).value;
    assert Evaluate(h, t, FunctionCallExpr(name, a, b), fuel + 1) ==
      EvaluateFunctionCall(h, t, name, a, b, fuel);
    assert EvaluateFunctionCall(h, t, name, a, b, fuel) ==
      CallValue(eb.1, Builtin(op), ea.0, eb.0, fuel);
  }

  /** In the root block `9 - 4` is 5 and `7 / 0` fails. */
  lemma RootArithmetic(fuel: nat)
    requires fuel >= 2
    ensures Evaluate(RootHeap, 0, FunctionCallExpr(Some("-"), NumberExpr(Some("9")), NumberExpr(Some("4"))), fuel) ==
      Ok((Int(5), RootHeap))
    ensures Evaluate(RootHeap, 0, FunctionCallExpr(Some("/"), NumberExpr(Some("7")), NumberExpr(Some("0"))), fuel) ==
      Err(ZeroDivision)
  {
    DigitValue('9');
    DigitValue('4');
    DigitValue('7');
    DigitValue('0');
    assert Lookup(TableAt(RootHeap, 0), Some("-")) == Builtin(Sub);
    assert Lookup(TableAt(RootHeap, 0), Some("/")) == Builtin(Div);
    var nine, four, seven, zero := NumberExpr(Some("9")), NumberExpr(Some("4")), NumberExpr(Some("7")), NumberExpr(Some("0"));
    assert Evaluate(RootHeap, 0, nine, fuel - 1) == Ok((Int(9), RootHeap));
    assert Evaluate(RootHeap, 0, four, fuel - 1) == Ok((Int(4), RootHeap));
    assert Evaluate(RootHeap, 0, seven, fuel - 1) == Ok((Int(7), RootHeap));
    assert Evaluate(RootHeap, 0, zero, fuel - 1) == Ok((Int(0), RootHeap));
    BuiltinCall(RootHeap, 0, Some("-"), Sub, nine, four, fuel - 1);
    BuiltinCall(RootHeap, 0, Some("/"), Div, seven, zero, fuel - 1);
  }

  /** Calling anything but a lambda fails, after both arguments are evaluated. */
  lemma OnlyLambdasAreCallable(h: Heap, f: Value, a: Value, b: Value, fuel: nat)
    ensures !f.Builtin? && !f.Closure? ==> CallValue(h, f, a, b, fuel) == Err(NotCallable)
    ensures f.Closure? && f.args.Callee? ==> CallValue(h, f, a, b, fuel) == Err(BadParameters)
  {
  }

  /** The decimal digits of a number. */
  function DecimalString(n: nat): (s: string)
    ensures s != [] && forall i :: 0 <= i < |s| ==> IsDigit(s[i])
    decreases n
  {
    if n < 10 then [('0' as int + n) as char]
    else DecimalString(n / 10) + [('0' as int + n % 10) as char]
  }

  lemma {:induction false} LeadingNumberAppend(s: string, c: char, acc: nat)
    requires forall i :: 0 <= i < |s| ==> IsDigit(s[i])
    requires IsDigit(c)
    ensures LeadingNumber(s + [c], acc) == LeadingNumber(s, acc) * 10 + (c as int - '0' as int)
    decreases |s|
  {
    if s == [] {
      assert [c][1..] == [];
      assert LeadingNumber([c], acc) == LeadingNumber([], acc * 10 + (c as int - '0' as int));
    } else {
      assert (s + [c])[1..] == s[1..] + [c];
      LeadingNumberAppend(s[1..], c, acc * 10 + (s[0] as int - '0' as int));
    }
  }

  /** `to_i` reads back the decimal digits of any number: the value of a
      number literal is the number its digits spell. */
  lemma {:induction false} ToIReadsDecimal(n: nat)
    ensures ToI(DecimalString(n)) == n
    decreases n
  {
    if n < 10 {
      DigitValue(('0' as int + n) as char);
    } else {
      ToIReadsDecimal(n / 10);
      LeadingNumberAppend(DecimalString(n / 10), ('0' as int + n % 10) as char, 0);
    }
  }
}
