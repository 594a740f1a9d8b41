/**
 * `Interpreter._evaluate_node`: the forms of the language, chosen by the
 * structural `match` in the order the cases are written, and their effect on
 * the explicit memory of module `Store`.
 *
 * Evaluation is given `fuel`, one unit per nested evaluation of a node; it
 * stands for Python's recursion limit and makes a program that never finishes
 * (a function that calls itself through a global) an `OutOfFuel` outcome.
 */
module Evaluator {
  import Ast
  import opened Results
  import opened Values
  import opened Store

  /** What evaluating something produced, and the memory afterwards. */
  datatype Outcome<+T> = Outcome(result: Result<T, Error>, st: State)

  /** The case of `_evaluate_node` a node falls into. */
  datatype Form =
    | Binary(op: BinOp, left: Ast.Node, right: Ast.Node)
    | Fact(arg: Ast.Node)
    | Sqrt(arg: Ast.Node)
    | Print(arg: Ast.Node)
    /** `defn` or `defn-mutable`; `name` starts with `:` or `$`. */
    | Define(name: string, value: Ast.Node, mutable: bool)
    /** `mutate`; `name` starts with `:` or `$`. */
    | Mutate(name: string, value: Ast.Node)
    /** `for-each`; `name` starts with `$`. */
    | ForEach(name: string, iterable: Ast.Node, body: Ast.Node)
    | Lambda(params: Ast.Node, bodies: seq<Ast.Node>)
    | Block(items: seq<Ast.Node>)
    | MakeTuple(items: seq<Ast.Node>)
    | If(cond: Ast.Node, thenBranch: Ast.Node, elseBranch: Option<Ast.Node>)
    | Range(args: seq<Ast.Node>)
    | Call(head: Ast.Node, args: seq<Ast.Node>)
    /** A `defn`, `mutate` or `for-each` guard called `startswith` on a non-string. */
    | BadName
    /** Anything that is not a non-empty list. */
    | Atom(node: Ast.Node)

  function OperatorOf(head: Ast.Node): Option<BinOp> {
    if !head.Str? then None
    else match head.s
      case "+" => Some(Arith(Add))
      case "-" => Some(Arith(Sub))
      case "*" => Some(Arith(Mul))
      case "/" => Some(Arith(Div))
      case "//" => Some(Arith(IntDiv))
      case "%" => Some(Arith(Mod))
      case "=" => Some(Cmp(Eq))
      case "!=" => Some(Cmp(Ne))
      case "<" => Some(Cmp(Lt))
      case ">" => Some(Cmp(Gt))
      case "<=" => Some(Cmp(Le))
      case ">=" => Some(Cmp(Ge))
      case "^" => Some(Arith(Pow))
      case _ => None
  }

  predicate IsKeyword(head: Ast.Node, word: string) {
    head == Ast.Str(word)
  }

  /**
   * The guarded cases: a name that is not a string makes the guard raise, a
   * name with an accepted sigil selects the case, and any other name lets
   * the node fall through to the general call.
   */
  function Guarded(xs: seq<Ast.Node>, accepts: string -> bool, form: string -> Form): Form
    requires |xs| >= 2
  {
    if !xs[1].Str? then BadName
    else if accepts(xs[1].s) then form(xs[1].s)
    else Call(xs[0], xs[1..])
  }

  /** The `match` of `_evaluate_node`, case by case in source order. */
  function Classify(node: Ast.Node): (f: Form)
    ensures f.Atom? <==> !node.List? || |node.items| == 0
    ensures f.Atom? ==> f.node == node
    ensures f.Define? || f.Mutate? ==> Ast.HasSigil(f.name)
    ensures f.ForEach? ==> Ast.StartsWith(f.name, '$')
    ensures f.Range? ==> 1 <= |f.args| <= 3
  {
    if !node.List? || |node.items| == 0 then Atom(node)
    else
      var xs := node.items;
      var head, n := xs[0], |xs|;
      if n == 3 && OperatorOf(head).Some? then Binary(OperatorOf(head).value, xs[1], xs[2])
      else if n == 2 && IsKeyword(head, "fact") then Fact(xs[1])
      else if n == 2 && IsKeyword(head, "sqrt") then Sqrt(xs[1])
      else if n == 2 && IsKeyword(head, "print") then Print(xs[1])
      else if n == 3 && (IsKeyword(head, "defn") || IsKeyword(head, "defn-mutable")) then
        Guarded(xs, Ast.HasSigil, name => Define(name, xs[2], IsKeyword(head, "defn-mutable")))
      else if n == 3 && IsKeyword(head, "mutate") then
        Guarded(xs, Ast.HasSigil, name => Mutate(name, xs[2]))
      else if n == 4 && IsKeyword(head, "for-each") then
        Guarded(xs, name => Ast.StartsWith(name, '$'), name => ForEach(name, xs[2], xs[3]))
      else if n >= 2 && IsKeyword(head, "lambda") then Lambda(xs[1], xs[2..])
      else if IsKeyword(head, "block") then Block(xs[1..])
      else if IsKeyword(head, "list") then MakeTuple(xs[1..])
      else if n == 3 && IsKeyword(head, "if") then If(xs[1], xs[2], None)
      else if n == 4 && IsKeyword(head, "if") then If(xs[1], xs[2], Some(xs[3]))
      else if 2 <= n <= 4 && IsKeyword(head, "range") then Range(xs[1..])
      else Call(head, xs[1..])
  }

  /** The dict a sigil selects from inside the local table `frame`. */
  function ScopeOf(name: string, frame: nat): Scope {
    if Ast.StartsWith(name, ':') then Global else Local(frame)
  }

  /** What every evaluation keeps: well-formed memory that evolved only as `Evolves` allows. */
  ghost predicate Steps<T>(st: State, o: Outcome<T>, frame: nat) {
    Wf(o.st) && Evolves(st, o.st, frame)
  }

  /** ... and a value that refers only to existing tables and functions. */
  ghost predicate Yields(st: State, o: Outcome<Value>, frame: nat) {
    Steps(st, o, frame) && (o.result.Ok? ==> Within(o.result.value, |o.st.tables|, o.st.lambdas))
  }

  ghost predicate YieldsAll(st: State, o: Outcome<seq<Value>>, frame: nat) {
    Steps(st, o, frame) && (o.result.Ok? ==> AllWithin(o.result.value, |o.st.tables|, o.st.lambdas))
  }

  /** `_evaluate_node(node, local_vars)` with `local_vars` the table `frame`. */
  function Eval(fuel: nat, node: Ast.Node, frame: nat, st: State): (o: Outcome<Value>)
    requires Wf(st) && frame < |st.tables|
    ensures Yields(st, o, frame)
    decreases fuel, 0, 0
  {
    if fuel == 0 then Outcome(Err(OutOfFuel), st)
    else EvalForm(fuel - 1, Classify(node), frame, st)
  }

  function EvalForm(fuel: nat, form: Form, frame: nat, st: State): (o: Outcome<Value>)
    requires Wf(st) && frame < |st.tables|
    requires form.Define? || form.Mutate? ==> Ast.HasSigil(form.name)
    requires form.Atom? && form.node.List? ==> |form.node.items| == 0
    requires form.Range? ==> 1 <= |form.args| <= 3
    ensures Yields(st, o, frame)
    decreases fuel, 3, 0
  {
    match form
    case Binary(op, left, right) => EvalBinary(fuel, op, left, right, frame, st)
    case Fact(arg) => EvalApply(fuel, arg, FactorialOf, frame, st)
    case Sqrt(arg) => EvalApply(fuel, arg, SqrtOf, frame, st)
    case Print(arg) => EvalPrint(fuel, arg, frame, st)
    case Define(name, value, mutable) => EvalDefine(fuel, name, value, mutable, frame, st)
    case Mutate(name, value) => EvalMutate(fuel, name, value, frame, st)
    case ForEach(name, iterable, body) => EvalForEach(fuel, name, iterable, body, frame, st)
    case Lambda(params, bodies) => EvalLambda(params, bodies, frame, st)
    case Block(items) => EvalBlock(fuel, items, frame, st)
    case MakeTuple(items) => EvalList(fuel, items, frame, st)
    case If(cond, thenBranch, elseBranch) => EvalIf(fuel, cond, thenBranch, elseBranch, frame, st)
    case Range(args) => EvalRange(fuel, args, frame, st)
    case Call(head, args) => EvalCall(fuel, head, args, frame, st)
    case BadName => Outcome(Err(AttributeError), st)
    case Atom(node) => Outcome(EvalAtom(node, frame, st), st)
  }

  /** The arithmetic and comparison forms: left operand, right operand, operator. */
  function EvalBinary(fuel: nat, op: BinOp, left: Ast.Node, right: Ast.Node, frame: nat, st: State): (o: Outcome<Value>)
    requires Wf(st) && frame < |st.tables|
    ensures Yields(st, o, frame)
    decreases fuel, 2, 0
  {
    var a := Eval(fuel, left, frame, st);
    if a.result.Err? then Outcome(Err(a.result.error), a.st)
    else
      var b := Eval(fuel, right, frame, a.st);
      if b.result.Err? then Outcome(Err(b.result.error), b.st)
      else
        EvolvesTransitive(st, a.st, b.st, frame, frame);
        WithinGrows(a.result.value, |a.st.tables|, a.st.lambdas, |b.st.tables|, b.st.lambdas);
        BinaryOpWithin(op, a.result.value, b.result.value, |b.st.tables|, b.st.lambdas);
        Outcome(BinaryOp(op, a.result.value, b.result.value), b.st)
  }

  /** `fact` and `sqrt`: a function of the one evaluated argument. */
  function EvalApply(fuel: nat, arg: Ast.Node, f: Value -> Result<Value, Error>, frame: nat, st: State): (o: Outcome<Value>)
    requires Wf(st) && frame < |st.tables|
    requires forall v :: f(v).Ok? ==> f(v).value.Int?
    ensures Yields(st, o, frame)
    decreases fuel, 2, 0
  {
    var a := Eval(fuel, arg, frame, st);
    if a.result.Err? then Outcome(Err(a.result.error), a.st)
    else Outcome(f(a.result.value), a.st)
  }

  /** `print`: the value goes to the output, the form itself yields `None`. */
  function EvalPrint(fuel: nat, arg: Ast.Node, frame: nat, st: State): (o: Outcome<Value>)
    requires Wf(st) && frame < |st.tables|
    ensures Yields(st, o, frame)
    ensures var a := Eval(fuel, arg, frame, st);
      a.result.Ok? ==> o.result == Ok(Null) && o.st.output == a.st.output + [a.result.value]
    decreases fuel, 2, 0
  {
    var a := Eval(fuel, arg, frame, st);
    if a.result.Err? then Outcome(Err(a.result.error), a.st)
    else Outcome(Ok(Null), a.st.(output := a.st.output + [a.result.value]))
  }

  /**
   * `defn` and `defn-mutable`: raise if the name is already bound in the dict
   * its sigil selects, and only then evaluate the value and bind the name to
   * a fresh variable.
   */
  function EvalDefine(fuel: nat, name: string, value: Ast.Node, mutable: bool, frame: nat, st: State): (o: Outcome<Value>)
    requires Wf(st) && frame < |st.tables| && Ast.HasSigil(name)
    ensures Yields(st, o, frame)
    ensures var scope, key := ScopeOf(name, frame), Ast.StripVariableSigil(name);
      key in Table(st, scope) ==> o == Outcome(Err(AlreadyDefined(name)), st)
    ensures var scope, key := ScopeOf(name, frame), Ast.StripVariableSigil(name);
      var v := Eval(fuel, value, frame, st);
      key !in Table(st, scope) && v.result.Ok? ==>
        && o.result == Ok(Null)
        && o.st == Bind(v.st, scope, key, v.result.value, mutable)
    decreases fuel, 2, 0
  {
    var scope, key := ScopeOf(name, frame), Ast.StripVariableSigil(name);
    if key in Table(st, scope) then Outcome(Err(AlreadyDefined(name)), st)
    else
      var v := Eval(fuel, value, frame, st);
      if v.result.Err? then Outcome(Err(v.result.error), v.st)
      else
        BindEvolves(st, v.st, frame, scope, key, v.result.value, mutable);
        BindWf(v.st, scope, key, v.result.value, mutable);
        Outcome(Ok(Null), Bind(v.st, scope, key, v.result.value, mutable))
  }

  /**
   * `mutate`: raise if the name is unbound or its variable immutable;
   * otherwise evaluate the value, then look the name up again and store the
   * value in the variable it is bound to by then.
   */
  function EvalMutate(fuel: nat, name: string, value: Ast.Node, frame: nat, st: State): (o: Outcome<Value>)
    requires Wf(st) && frame < |st.tables| && Ast.HasSigil(name)
    ensures Yields(st, o, frame)
    ensures var scope, key := ScopeOf(name, frame), Ast.StripVariableSigil(name);
      key !in Table(st, scope) ==> o == Outcome(Err(NotDefined(name)), st)
    ensures var scope, key := ScopeOf(name, frame), Ast.StripVariableSigil(name);
      key in Table(st, scope) && !st.variables[Table(st, scope)[key]].isMutable ==>
        o == Outcome(Err(NotMutable(name)), st)
    ensures var scope, key := ScopeOf(name, frame), Ast.StripVariableSigil(name);
      var v := Eval(fuel, value, frame, st);
      key in Table(st, scope) && st.variables[Table(st, scope)[key]].isMutable && v.result.Ok? ==>
        && key in Table(v.st, scope)
        && o.result == Ok(Null)
        && o.st == Assign(v.st, Table(v.st, scope)[key], v.result.value)
    decreases fuel, 2, 0
  {
    var scope, key := ScopeOf(name, frame), Ast.StripVariableSigil(name);
    if key !in Table(st, scope) then Outcome(Err(NotDefined(name)), st)
    else if !st.variables[Table(st, scope)[key]].isMutable then Outcome(Err(NotMutable(name)), st)
    else
      var v := Eval(fuel, value, frame, st);
      if v.result.Err? then Outcome(Err(v.result.error), v.st)
      else
        assert key in Table(v.st, scope);
        var ref := Table(v.st, scope)[key];
        AssignEvolves(st, v.st, frame, ref, v.result.value);
        AssignWf(v.st, ref, v.result.value);
        Outcome(Ok(Null), Assign(v.st, ref, v.result.value))
  }

  /** `for-each`: evaluate the iterable, then run the loop over its elements. */
  function EvalForEach(fuel: nat, name: string, iterable: Ast.Node, body: Ast.Node, frame: nat, st: State): (o: Outcome<Value>)
    requires Wf(st) && frame < |st.tables|
    ensures Yields(st, o, frame)
    ensures var it := Eval(fuel, iterable, frame, st);
      it.result.Ok? && Iterate(it.result.value).Ok? ==>
        && AllWithin(Iterate(it.result.value).value, |it.st.tables|, it.st.lambdas)
        && o == ForEachLoop(fuel, Ast.StripVariableSigil(name), Iterate(it.result.value).value, body, frame, it.st)
    decreases fuel, 2, 0
  {
    var it := Eval(fuel, iterable, frame, st);
    if it.result.Err? then Outcome(Err(it.result.error), it.st)
    else
      IterateWithin(it.result.value, |it.st.tables|, it.st.lambdas);
      match Iterate(it.result.value)
      case Err(e) => Outcome(Err(e), it.st)
      case Ok(items) =>
        var loop := ForEachLoop(fuel, Ast.StripVariableSigil(name), items, body, frame, it.st);
        EvolvesTransitive(st, it.st, loop.st, frame, frame);
        loop
  }

  /**
   * The loop of `for-each`: for each element, bind the name in the frame to a
   * fresh immutable local variable holding it (whatever was bound before),
   * then run the body. Yields `None`.
   */
  function ForEachLoop(fuel: nat, key: string, items: seq<Value>, body: Ast.Node, frame: nat, st: State): (o: Outcome<Value>)
    requires Wf(st) && frame < |st.tables| && AllWithin(items, |st.tables|, st.lambdas)
    ensures Yields(st, o, frame)
    ensures o.result.Ok? ==> o.result.value == Null
    decreases fuel, 1, |items|
  {
    if |items| == 0 then Outcome(Ok(Null), st)
    else
      var st1 := Bind(st, Local(frame), key, items[0], false);
      BindWf(st, Local(frame), key, items[0], false);
      EvolvesReflexive(st, frame);
      BindEvolves(st, st, frame, Local(frame), key, items[0], false);
      var b := Eval(fuel, body, frame, st1);
      EvolvesTransitive(st, st1, b.st, frame, frame);
      if b.result.Err? then Outcome(Err(b.result.error), b.st)
      else
        AllWithinGrows(items[1..], |st.tables|, st.lambdas, |b.st.tables|, b.st.lambdas);
        var rest := ForEachLoop(fuel, key, items[1..], body, frame, b.st);
        EvolvesTransitive(st, b.st, rest.st, frame, frame);
        rest
  }

  /** One turn of the `for-each` loop: bind the element, run the body, go on with the rest. */
  lemma ForEachStep(fuel: nat, key: string, items: seq<Value>, body: Ast.Node, frame: nat, st: State)
    requires Wf(st) && frame < |st.tables| && AllWithin(items, |st.tables|, st.lambdas) && |items| > 0
    ensures var st1 := Bind(st, Local(frame), key, items[0], false);
      && Wf(st1)
      && var b := Eval(fuel, body, frame, st1);
         && AllWithin(items[1..], |b.st.tables|, b.st.lambdas)
         && ForEachLoop(fuel, key, items, body, frame, st) ==
              if b.result.Err? then Outcome(Err(b.result.error), b.st)
              else ForEachLoop(fuel, key, items[1..], body, frame, b.st)
  {
    BindWf(st, Local(frame), key, items[0], false);
    var b := Eval(fuel, body, frame, Bind(st, Local(frame), key, items[0], false));
    AllWithinGrows(items[1..], |st.tables|, st.lambdas, |b.st.tables|, b.st.lambdas);
  }

  /**
   * The parameter names of a `lambda`: a list of strings gives the strings
   * without their sigils, a string gives its characters, a list item that is
   * not a string raises `AttributeError` and any other node `TypeError`.
   */
  function ParamNames(params: Ast.Node): (r: Result<seq<string>, Error>)
    ensures params.List? && (forall i :: 0 <= i < |params.items| ==> params.items[i].Str?) ==>
      r.Ok? && |r.value| == |params.items| &&
      forall i :: 0 <= i < |params.items| ==> r.value[i] == Ast.StripVariableSigil(params.items[i].s)
    ensures params.List? && (exists i :: 0 <= i < |params.items| && !params.items[i].Str?) ==> r == Err(AttributeError)
    ensures params.Str? ==>
      && r.Ok? && |r.value| == |params.s|
      && forall i :: 0 <= i < |params.s| ==> r.value[i] == Ast.StripVariableSigil([params.s[i]])
    ensures !params.List? && !params.Str? ==> r == Err(TypeError)
  {
    match params
    case List(items) =>
      if forall i :: 0 <= i < |items| ==> items[i].Str? then
        Ok(seq(|items|, i requires 0 <= i < |items| && items[i].Str? => Ast.StripVariableSigil(items[i].s)))
      else Err(AttributeError)
    case Str(s) => Ok(seq(|s|, i requires 0 <= i < |s| => Ast.StripVariableSigil([s[i]])))
    case _ => Err(TypeError)
  }

  /**
   * `lambda`: a new function object that holds the parameter names, the bodies
   * and a reference to the current local table. Nothing is evaluated.
   */
  function EvalLambda(params: Ast.Node, bodies: seq<Ast.Node>, frame: nat, st: State): (o: Outcome<Value>)
    requires Wf(st) && frame < |st.tables|
    ensures Yields(st, o, frame)
    ensures ParamNames(params).Ok? ==>
      && o.result == Ok(Closure(st.lambdas, ParamNames(params).value, bodies, frame))
      && o.st == st.(lambdas := st.lambdas + 1)
    ensures ParamNames(params).Err? ==> o == Outcome(Err(ParamNames(params).error), st)
    decreases 0
  {
    match ParamNames(params)
    case Err(e) => Outcome(Err(e), st)
    case Ok(names) =>
      MoreLambdasWf(st, st.lambdas + 1);
      Outcome(Ok(Closure(st.lambdas, names, bodies, frame)), st.(lambdas := st.lambdas + 1))
  }

  /** Evaluate nodes left to right, stopping at the first exception. */
  function EvalEach(fuel: nat, nodes: seq<Ast.Node>, frame: nat, st: State): (o: Outcome<seq<Value>>)
    requires Wf(st) && frame < |st.tables|
    ensures YieldsAll(st, o, frame)
    ensures o.result.Ok? ==> |o.result.value| == |nodes|
    decreases fuel, 1, |nodes|
  {
    if |nodes| == 0 then Outcome(Ok([]), st)
    else
      var first := Eval(fuel, nodes[0], frame, st);
      if first.result.Err? then Outcome(Err(first.result.error), first.st)
      else
        var rest := EvalEach(fuel, nodes[1..], frame, first.st);
        EvolvesTransitive(st, first.st, rest.st, frame, frame);
        if rest.result.Err? then Outcome(Err(rest.result.error), rest.st)
        else
          WithinGrows(first.result.value, |first.st.tables|, first.st.lambdas, |rest.st.tables|, rest.st.lambdas);
          AllWithinCons(first.result.value, rest.result.value, |rest.st.tables|, rest.st.lambdas);
          Outcome(Ok([first.result.value] + rest.result.value), rest.st)
  }

  /** `block`: the items in order, for their effects; the form yields `None`. */
  function EvalBlock(fuel: nat, items: seq<Ast.Node>, frame: nat, st: State): (o: Outcome<Value>)
    requires Wf(st) && frame < |st.tables|
    ensures Yields(st, o, frame)
    decreases fuel, 2, 0
  {
    var o := EvalEach(fuel, items, frame, st);
    Outcome(if o.result.Ok? then Ok(Null) else Err(o.result.error), o.st)
  }

  /** `list`: the items in order; the form yields the tuple of their values. */
  function EvalList(fuel: nat, items: seq<Ast.Node>, frame: nat, st: State): (o: Outcome<Value>)
    requires Wf(st) && frame < |st.tables|
    ensures Yields(st, o, frame)
    decreases fuel, 2, 0
  {
    var o := EvalEach(fuel, items, frame, st);
    Outcome(if o.result.Ok? then Ok(Tuple(o.result.value)) else Err(o.result.error), o.st)
  }

  /** `if`: evaluate the condition, then exactly one branch, or yield `None` without an else. */
  function EvalIf(fuel: nat, cond: Ast.Node, thenBranch: Ast.Node, elseBranch: Option<Ast.Node>, frame: nat, st: State): (o: Outcome<Value>)
    requires Wf(st) && frame < |st.tables|
    ensures Yields(st, o, frame)
    ensures var c := Eval(fuel, cond, frame, st);
      c.result.Ok? && Truthy(c.result.value) == Ok(true) ==> o == Eval(fuel, thenBranch, frame, c.st)
    ensures var c := Eval(fuel, cond, frame, st);
      c.result.Ok? && Truthy(c.result.value) == Ok(false) ==>
        o == if elseBranch.None? then Outcome(Ok(Null), c.st) else Eval(fuel, elseBranch.value, frame, c.st)
    ensures var c := Eval(fuel, cond, frame, st);
      c.result.Err? ==> o == Outcome(Err(c.result.error), c.st)
    decreases fuel, 2, 0
  {
    var c := Eval(fuel, cond, frame, st);
    if c.result.Err? then Outcome(Err(c.result.error), c.st)
    else match Truthy(c.result.value)
      case Err(e) => Outcome(Err(e), c.st)
      case Ok(true) =>
        var b := Eval(fuel, thenBranch, frame, c.st);
        EvolvesTransitive(st, c.st, b.st, frame, frame);
        b
      case Ok(false) =>
        if elseBranch.None? then Outcome(Ok(Null), c.st)
        else
          var b := Eval(fuel, elseBranch.value, frame, c.st);
          EvolvesTransitive(st, c.st, b.st, frame, frame);
          b
  }

  /** `range` with one, two or three arguments, evaluated left to right. */
  function EvalRange(fuel: nat, args: seq<Ast.Node>, frame: nat, st: State): (o: Outcome<Value>)
    requires Wf(st) && frame < |st.tables| && 1 <= |args| <= 3
    ensures Yields(st, o, frame)
    ensures var a := EvalEach(fuel, args, frame, st);
      a.result.Ok? ==> o == Outcome(RangeOf(a.result.value), a.st)
    decreases fuel, 2, 0
  {
    var a := EvalEach(fuel, args, frame, st);
    if a.result.Err? then Outcome(Err(a.result.error), a.st)
    else
      var r := RangeOf(a.result.value);
      assert r.Ok? ==> Within(r.value, |a.st.tables|, a.st.lambdas);
      Outcome(r, a.st)
  }

  /**
   * The general form: evaluate the head; raise "Unable to call" unless it is a
   * function; otherwise evaluate the arguments left to right, run every body
   * and yield the last body's value (`IndexError` for a function without bodies).
   */
  function EvalCall(fuel: nat, head: Ast.Node, args: seq<Ast.Node>, frame: nat, st: State): (o: Outcome<Value>)
    requires Wf(st) && frame < |st.tables|
    ensures Yields(st, o, frame)
    decreases fuel, 2, 0
  {
    var h := Eval(fuel, head, frame, st);
    if h.result.Err? then Outcome(Err(h.result.error), h.st)
    else if !h.result.value.Closure? then Outcome(Err(NotCallable(head)), h.st)
    else
      var f := h.result.value;
      var a := EvalEach(fuel, args, frame, h.st);
      EvolvesTransitive(st, h.st, a.st, frame, frame);
      if a.result.Err? then Outcome(Err(a.result.error), a.st)
      else
        var r := CallClosure(fuel, f, a.result.value, a.st);
        EvolvesAnyFrame(a.st, r.st, |a.st.tables|, frame);
        EvolvesTransitive(st, a.st, r.st, frame, frame);
        r
  }

  /**
   * Applying a function value to its arguments: the bodies run in turn, and
   * the call yields the value of the last one, or raises `IndexError` when
   * there is none.
   */
  function CallClosure(fuel: nat, f: Value, args: seq<Value>, st: State): (o: Outcome<Value>)
    requires Wf(st) && f.Closure? && f.env < |st.tables| && AllWithin(args, |st.tables|, st.lambdas)
    ensures Yields(st, o, |st.tables|)
    decreases fuel, 1, |f.bodies| + 1
  {
    var r := CallBodies(fuel, f, args, f.bodies, st);
    if r.result.Err? then Outcome(Err(r.result.error), r.st)
    else if |r.result.value| == 0 then Outcome(Err(IndexError), r.st)
    else Outcome(Ok(r.result.value[|r.result.value| - 1]), r.st)
  }

  /**
   * Calling a function: each body runs in a dict of its own, created just
   * before it runs, so that no table that existed at the call changes. The
   * results of all bodies, in order.
   */
  function CallBodies(fuel: nat, f: Value, args: seq<Value>, bodies: seq<Ast.Node>, st: State): (o: Outcome<seq<Value>>)
    requires Wf(st) && f.Closure? && f.env < |st.tables| && AllWithin(args, |st.tables|, st.lambdas)
    ensures YieldsAll(st, o, |st.tables|)
    ensures o.result.Ok? ==> |o.result.value| == |bodies|
    decreases fuel, 1, |bodies|
  {
    if |bodies| == 0 then Outcome(Ok([]), st)
    else
      var st1 := Enter(st, f.env, f.params, args);
      EnterWf(st, f.env, f.params, args);
      var b := Eval(fuel, bodies[0], |st.tables|, st1);
      EvolvesTransitive(st, st1, b.st, |st.tables|, |st.tables|);
      if b.result.Err? then Outcome(Err(b.result.error), b.st)
      else
        AllWithinGrows(args, |st.tables|, st.lambdas, |b.st.tables|, b.st.lambdas);
        var rest := CallBodies(fuel, f, args, bodies[1..], b.st);
        EvolvesTransitive(st, b.st, rest.st, |st.tables|, |b.st.tables|);
        if rest.result.Err? then Outcome(Err(rest.result.error), rest.st)
        else
          WithinGrows(b.result.value, |b.st.tables|, b.st.lambdas, |rest.st.tables|, rest.st.lambdas);
          AllWithinCons(b.result.value, rest.result.value, |rest.st.tables|, rest.st.lambdas);
          Outcome(Ok([b.result.value] + rest.result.value), rest.st)
  }

  /**
   * The last case: a `$` name is looked up in the local table only, a `:` name
   * in the global table only, and either raises when unbound; every other
   * atom (a string without sigil, a number, a bool, `None`, the empty list)
   * is its own value.
   */
  function EvalAtom(node: Ast.Node, frame: nat, st: State): (r: Result<Value, Error>)
    requires Wf(st) && frame < |st.tables|
    requires node.List? ==> |node.items| == 0
    ensures r.Ok? ==> Within(r.value, |st.tables|, st.lambdas)
    ensures node.Str? && Ast.HasSigil(node.s) ==>
      var scope, key := ScopeOf(node.s, frame), Ast.StripVariableSigil(node.s);
      r == if key in Table(st, scope) then Ok(Lookup(st, scope, key)) else Err(NotDefined(node.s))
    ensures node.Str? && !Ast.HasSigil(node.s) ==> r == Ok(Str(node.s))
    ensures node.Int? ==> r == Ok(Int(node.i))
    ensures node.Bool? ==> r == Ok(Bool(node.b))
    ensures node.Null? ==> r == Ok(Null)
    ensures node.List? ==> r == Ok(EmptyList)
  {
    match node
    case Str(s) =>
      var key := Ast.StripVariableSigil(s);
      if Ast.StartsWith(s, '$') && key in st.tables[frame] then Ok(Lookup(st, Local(frame), key))
      else if Ast.StartsWith(s, ':') && key in st.globals then Ok(Lookup(st, Global, key))
      else if Ast.HasSigil(s) then Err(NotDefined(s))
      else Ok(Str(s))
    case Int(i) => Ok(Int(i))
    case Float(text) => Ok(Float(text))
    case Bool(b) => Ok(Bool(b))
    case Null => Ok(Null)
    case List(_) => Ok(EmptyList)
  }

  /** The loop of `run`: every node in the top-level table, until one raises. */
  function RunNodes(fuel: nat, nodes: seq<Ast.Node>, st: State): (o: Outcome<()>)
    requires Wf(st)
    ensures Steps(st, o, TopLevel)
    decreases |nodes|
  {
    if |nodes| == 0 then Outcome(Ok(()), st)
    else
      var first := Eval(fuel, nodes[0], TopLevel, st);
      if first.result.Err? then Outcome(Err(first.result.error), first.st)
      else
        var rest := RunNodes(fuel, nodes[1..], first.st);
        EvolvesTransitive(st, first.st, rest.st, TopLevel, TopLevel);
        rest
  }
}
