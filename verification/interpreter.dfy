/**
 * The `Interpreter` object: the global dict and the shared default local
 * dict, held as the explicit memory of module `Store`, and the methods that
 * update them in place. `_evaluate_node` is written here as the recursive
 * method it is in the source, with its loops (`block`, `list`, `for-each`,
 * the arguments and the bodies of a call), and each of its methods is proved
 * to end in exactly the outcome the functions of module `Evaluator` specify.
 */
module Interpreter {
  import Ast
  import opened Results
  import opened Values
  import opened Store
  import opened Evaluator

  /** The results of the nodes already evaluated, in front of what the rest yields. */
  function Prepend(done: seq<Value>, o: Outcome<seq<Value>>): Outcome<seq<Value>> {
    if o.result.Ok? then Outcome(Ok(done + o.result.value), o.st) else o
  }

  lemma PrependNothing(o: Outcome<seq<Value>>)
    ensures Prepend([], o) == o
  {
    if o.result.Ok? {
      assert [] + o.result.value == o.result.value;
    }
  }

  /** One turn of the loop over nodes: the first node, then the rest. */
  lemma EachStep(fuel: nat, nodes: seq<Ast.Node>, frame: nat, st: State, done: seq<Value>)
    requires Wf(st) && frame < |st.tables| && |nodes| > 0
    ensures var first := Eval(fuel, nodes[0], frame, st);
      Prepend(done, EvalEach(fuel, nodes, frame, st)) ==
        if first.result.Err? then Outcome(Err(first.result.error), first.st)
        else Prepend(done + [first.result.value], EvalEach(fuel, nodes[1..], frame, first.st))
  {
    var first := Eval(fuel, nodes[0], frame, st);
    if first.result.Ok? {
      var rest := EvalEach(fuel, nodes[1..], frame, first.st);
      if rest.result.Ok? {
        assert done + ([first.result.value] + rest.result.value) == done + [first.result.value] + rest.result.value;
      }
    }
  }

  /** One turn of the loop over the bodies of a function: a new dict, then body `i`. */
  lemma CallStep(fuel: nat, f: Value, args: seq<Value>, i: nat, st: State, done: seq<Value>)
    requires Wf(st) && f.Closure? && f.env < |st.tables| && AllWithin(args, |st.tables|, st.lambdas) && i < |f.bodies|
    ensures var st1 := Enter(st, f.env, f.params, args);
      && Wf(st1) && |st.tables| < |st1.tables|
      && var b := Eval(fuel, f.bodies[i], |st.tables|, st1);
         && f.env < |b.st.tables|
         && AllWithin(args, |b.st.tables|, b.st.lambdas)
         && Prepend(done, CallBodies(fuel, f, args, f.bodies[i..], st)) ==
              if b.result.Err? then Outcome(Err(b.result.error), b.st)
              else Prepend(done + [b.result.value], CallBodies(fuel, f, args, f.bodies[i + 1..], b.st))
  {
    var bodies := f.bodies[i..];
    assert bodies[0] == f.bodies[i] && bodies[1..] == f.bodies[i + 1..];
    var st1 := Enter(st, f.env, f.params, args);
    EnterWf(st, f.env, f.params, args);
    var b := Eval(fuel, bodies[0], |st.tables|, st1);
    AllWithinGrows(args, |st.tables|, st.lambdas, |b.st.tables|, b.st.lambdas);
    if b.result.Ok? {
      var rest := CallBodies(fuel, f, args, bodies[1..], b.st);
      if rest.result.Ok? {
        assert done + ([b.result.value] + rest.result.value) == done + [b.result.value] + rest.result.value;
      }
    }
  }

  /** A call whose bodies all ran yields the last result, or raises `IndexError` without bodies. */
  lemma CallClosureCompleted(fuel: nat, f: Value, args: seq<Value>, st: State, results: seq<Value>, st2: State)
    requires Wf(st) && f.Closure? && f.env < |st.tables| && AllWithin(args, |st.tables|, st.lambdas)
    requires CallBodies(fuel, f, args, f.bodies, st) == Outcome(Ok(results), st2)
    ensures CallClosure(fuel, f, args, st) == Outcome(if |results| == 0 then Err(IndexError) else Ok(results[|results| - 1]), st2)
  {
  }

  /** A call whose body raised raises the same error. */
  lemma CallClosureRaised(fuel: nat, f: Value, args: seq<Value>, st: State, e: Error, st2: State)
    requires Wf(st) && f.Closure? && f.env < |st.tables| && AllWithin(args, |st.tables|, st.lambdas)
    requires CallBodies(fuel, f, args, f.bodies, st) == Outcome(Err(e), st2)
    ensures CallClosure(fuel, f, args, st) == Outcome(Err(e), st2)
  {
  }

  class Interpreter {
    /** The global dict, the default local dict (table `TopLevel`) and everything created since. */
    var state: State

    ghost predicate Valid()
      reads this
    {
      Wf(state)
    }

    /** A new interpreter has no globals and an empty default local dict. */
    constructor()
      ensures Valid() && state == Initial()
    {
      state := Initial();
    }

    /**
     * `set_global_variable`: the name, taken as it is (no sigil is stripped),
     * is bound to a new immutable global variable, replacing any earlier
     * binding.
     */
    method SetGlobalVariable(name: string, value: Value)
      requires Valid() && Within(value, |state.tables|, state.lambdas)
      modifies this
      ensures Valid() && state == Bind(old(state), Global, name, value, false)
    {
      BindWf(state, Global, name, value, false);
      state := Bind(state, Global, name, value, false);
    }

    /** `get_global_variable`: the value of a global, or `KeyError` for an unbound name. */
    method GetGlobalVariable(name: string) returns (r: Result<Value, Error>)
      requires Valid()
      ensures name in state.globals ==> r == Ok(Lookup(state, Global, name))
      ensures name !in state.globals ==> r == Err(KeyError(name))
    {
      if name in state.globals {
        r := Ok(state.variables[state.globals[name]].value);
      } else {
        r := Err(KeyError(name));
      }
    }

    /**
     * `run`: evaluate the nodes in order, each with the shared default local
     * dict, until one raises; the exception ends the run.
     */
    method Run(data: seq<Ast.Node>, fuel: nat) returns (r: Result<(), Error>)
      requires Valid()
      modifies this
      ensures Valid() && Outcome(r, state) == RunNodes(fuel, data, old(state))
    {
      var i := 0;
      while i < |data|
        invariant 0 <= i <= |data| && Wf(state)
        invariant RunNodes(fuel, data, old(state)) == RunNodes(fuel, data[i..], state)
      {
        assert data[i..][0] == data[i] && data[i..][1..] == data[i + 1..];
        var v := EvaluateNode(fuel, data[i], TopLevel);
        if v.Err? {
          return Err(v.error);
        }
        i := i + 1;
      }
      r := Ok(());
    }

    /** `_evaluate_node(node, local_vars)` with `local_vars` the table `frame`. */
    method EvaluateNode(fuel: nat, node: Ast.Node, frame: nat) returns (r: Result<Value, Error>)
      requires Valid() && frame < |state.tables|
      modifies this
      ensures Outcome(r, state) == Eval(fuel, node, frame, old(state))
      decreases fuel, 0, 0
    {
      if fuel == 0 {
        return Err(OutOfFuel);
      }
      r := EvaluateForm(fuel - 1, Classify(node), frame);
    }

    method EvaluateForm(fuel: nat, form: Form, frame: nat) returns (r: Result<Value, Error>)
      requires Valid() && frame < |state.tables|
      requires form.Define? || form.Mutate? ==> Ast.HasSigil(form.name)
      requires form.Atom? && form.node.List? ==> |form.node.items| == 0
      requires form.Range? ==> 1 <= |form.args| <= 3
      modifies this
      ensures Outcome(r, state) == EvalForm(fuel, form, frame, old(state))
      decreases fuel, 3, 0
    {
      match form
      case Binary(op, left, right) => r := EvaluateBinary(fuel, op, left, right, frame);
      case Fact(arg) => r := EvaluateApply(fuel, arg, FactorialOf, frame);
      case Sqrt(arg) => r := EvaluateApply(fuel, arg, SqrtOf, frame);
      case Print(arg) => r := EvaluatePrint(fuel, arg, frame);
      case Define(name, value, mutable) => r := EvaluateDefine(fuel, name, value, mutable, frame);
      case Mutate(name, value) => r := EvaluateMutate(fuel, name, value, frame);
      case ForEach(name, iterable, body) => r := EvaluateForEach(fuel, name, iterable, body, frame);
      case Lambda(params, bodies) => r := EvaluateLambda(params, bodies, frame);
      case Block(items) => r := EvaluateBlock(fuel, items, frame);
      case MakeTuple(items) => r := EvaluateList(fuel, items, frame);
      case If(cond, thenBranch, elseBranch) => r := EvaluateIf(fuel, cond, thenBranch, elseBranch, frame);
      case Range(args) => r := EvaluateRange(fuel, args, frame);
      case Call(head, args) => r := EvaluateCall(fuel, head, args, frame);
      case BadName => r := Err(AttributeError);
      case Atom(node) => r := EvalAtom(node, frame, state);
    }

    /** `block`: each item in turn, for its effects. */
    method EvaluateBlock(fuel: nat, items: seq<Ast.Node>, frame: nat) returns (r: Result<Value, Error>)
      requires Valid() && frame < |state.tables|
      modifies this
      ensures Outcome(r, state) == EvalBlock(fuel, items, frame, old(state))
      decreases fuel, 2, 0
    {
      var vs := EvaluateEach(fuel, items, frame);
      r := if vs.Ok? then Ok(Null) else Err(vs.error);
    }

    /** `list`: the tuple of the items' values. */
    method EvaluateList(fuel: nat, items: seq<Ast.Node>, frame: nat) returns (r: Result<Value, Error>)
      requires Valid() && frame < |state.tables|
      modifies this
      ensures Outcome(r, state) == EvalList(fuel, items, frame, old(state))
      decreases fuel, 2, 0
    {
      var vs := EvaluateEach(fuel, items, frame);
      r := if vs.Ok? then Ok(Tuple(vs.value)) else Err(vs.error);
    }

    method EvaluateBinary(fuel: nat, op: BinOp, left: Ast.Node, right: Ast.Node, frame: nat) returns (r: Result<Value, Error>)
      requires Valid() && frame < |state.tables|
      modifies this
      ensures Outcome(r, state) == EvalBinary(fuel, op, left, right, frame, old(state))
      decreases fuel, 2, 0
    {
      var a := EvaluateNode(fuel, left, frame);
      if a.Err? {
        return Err(a.error);
      }
      var b := EvaluateNode(fuel, right, frame);
      if b.Err? {
        return Err(b.error);
      }
      r := BinaryOp(op, a.value, b.value);
    }

    method EvaluateApply(fuel: nat, arg: Ast.Node, f: Value -> Result<Value, Error>, frame: nat) returns (r: Result<Value, Error>)
      requires Valid() && frame < |state.tables|
      requires forall v :: f(v).Ok? ==> f(v).value.Int?
      modifies this
      ensures Outcome(r, state) == EvalApply(fuel, arg, f, frame, old(state))
      decreases fuel, 2, 0
    {
      var a := EvaluateNode(fuel, arg, frame);
      if a.Err? {
        return Err(a.error);
      }
      r := f(a.value);
    }

    method EvaluatePrint(fuel: nat, arg: Ast.Node, frame: nat) returns (r: Result<Value, Error>)
      requires Valid() && frame < |state.tables|
      modifies this
      ensures Outcome(r, state) == EvalPrint(fuel, arg, frame, old(state))
      decreases fuel, 2, 0
    {
      var a := EvaluateNode(fuel, arg, frame);
      if a.Err? {
        return Err(a.error);
      }
      state := state.(output := state.output + [a.value]);
      r := Ok(Null);
    }

    /** The check, the evaluation of the value, then the insertion into the dict. */
    method EvaluateDefine(fuel: nat, name: string, value: Ast.Node, mutable: bool, frame: nat) returns (r: Result<Value, Error>)
      requires Valid() && frame < |state.tables| && Ast.HasSigil(name)
      modifies this
      ensures Outcome(r, state) == EvalDefine(fuel, name, value, mutable, frame, old(state))
      decreases fuel, 2, 0
    {
      var scope, key := ScopeOf(name, frame), Ast.StripVariableSigil(name);
      if key in Table(state, scope) {
        return Err(AlreadyDefined(name));
      }
      var v := EvaluateNode(fuel, value, frame);
      if v.Err? {
        return Err(v.error);
      }
      state := Bind(state, scope, key, v.value, mutable);
      r := Ok(Null);
    }

    /** The two checks, the evaluation of the value, then the write to the variable. */
    method EvaluateMutate(fuel: nat, name: string, value: Ast.Node, frame: nat) returns (r: Result<Value, Error>)
      requires Valid() && frame < |state.tables| && Ast.HasSigil(name)
      modifies this
      ensures Outcome(r, state) == EvalMutate(fuel, name, value, frame, old(state))
      decreases fuel, 2, 0
    {
      var scope, key := ScopeOf(name, frame), Ast.StripVariableSigil(name);
      if key !in Table(state, scope) {
        return Err(NotDefined(name));
      }
      if !state.variables[Table(state, scope)[key]].isMutable {
        return Err(NotMutable(name));
      }
      var v := EvaluateNode(fuel, value, frame);
      if v.Err? {
        return Err(v.error);
      }
      state := Assign(state, Table(state, scope)[key], v.value);
      r := Ok(Null);
    }

    method EvaluateForEach(fuel: nat, name: string, iterable: Ast.Node, body: Ast.Node, frame: nat) returns (r: Result<Value, Error>)
      requires Valid() && frame < |state.tables|
      modifies this
      ensures Outcome(r, state) == EvalForEach(fuel, name, iterable, body, frame, old(state))
      decreases fuel, 2, 0
    {
      var it := EvaluateNode(fuel, iterable, frame);
      if it.Err? {
        return Err(it.error);
      }
      var elements := Iterate(it.value);
      if elements.Err? {
        return Err(elements.error);
      }
      IterateWithin(it.value, |state.tables|, state.lambdas);
      r := ForEachItems(fuel, Ast.StripVariableSigil(name), elements.value, body, frame);
    }

    /** The loop of `for-each`: for each element, overwrite the name in the frame, then run the body. */
    method ForEachItems(fuel: nat, key: string, items: seq<Value>, body: Ast.Node, frame: nat) returns (r: Result<Value, Error>)
      requires Valid() && frame < |state.tables| && AllWithin(items, |state.tables|, state.lambdas)
      modifies this
      ensures Outcome(r, state) == ForEachLoop(fuel, key, items, body, frame, old(state))
      decreases fuel, 1, 0
    {
      var i := 0;
      assert items[0..] == items;
      while i < |items|
        invariant 0 <= i <= |items| && Wf(state) && frame < |state.tables|
        invariant AllWithin(items[i..], |state.tables|, state.lambdas)
        invariant ForEachLoop(fuel, key, items, body, frame, old(state)) == ForEachLoop(fuel, key, items[i..], body, frame, state)
      {
        assert items[i..][0] == items[i] && items[i..][1..] == items[i + 1..];
        ForEachStep(fuel, key, items[i..], body, frame, state);
        state := Bind(state, Local(frame), key, items[i], false);
        var b := EvaluateNode(fuel, body, frame);
        if b.Err? {
          return Err(b.error);
        }
        i := i + 1;
      }
      r := Ok(Null);
    }

    method EvaluateLambda(params: Ast.Node, bodies: seq<Ast.Node>, frame: nat) returns (r: Result<Value, Error>)
      requires Valid() && frame < |state.tables|
      modifies this
      ensures Outcome(r, state) == EvalLambda(params, bodies, frame, old(state))
    {
      match ParamNames(params)
      case Err(e) =>
        r := Err(e);
      case Ok(names) =>
        r := Ok(Closure(state.lambdas, names, bodies, frame));
        state := state.(lambdas := state.lambdas + 1);
    }

    /** The nodes evaluated left to right into a sequence, stopping at the first exception. */
    method EvaluateEach(fuel: nat, nodes: seq<Ast.Node>, frame: nat) returns (r: Result<seq<Value>, Error>)
      requires Valid() && frame < |state.tables|
      modifies this
      ensures Outcome(r, state) == EvalEach(fuel, nodes, frame, old(state))
      decreases fuel, 1, 0
    {
      var values: seq<Value> := [];
      var i := 0;
      assert nodes[0..] == nodes;
      PrependNothing(EvalEach(fuel, nodes, frame, state));
      while i < |nodes|
        invariant 0 <= i <= |nodes| && Wf(state) && frame < |state.tables|
        invariant EvalEach(fuel, nodes, frame, old(state)) == Prepend(values, EvalEach(fuel, nodes[i..], frame, state))
      {
        assert nodes[i..][0] == nodes[i] && nodes[i..][1..] == nodes[i + 1..];
        EachStep(fuel, nodes[i..], frame, state, values);
        var v := EvaluateNode(fuel, nodes[i], frame);
        if v.Err? {
          return Err(v.error);
        }
        values := values + [v.value];
        i := i + 1;
      }
      assert values + [] == values;
      r := Ok(values);
    }

    method EvaluateIf(fuel: nat, cond: Ast.Node, thenBranch: Ast.Node, elseBranch: Option<Ast.Node>, frame: nat) returns (r: Result<Value, Error>)
      requires Valid() && frame < |state.tables|
      modifies this
      ensures Outcome(r, state) == EvalIf(fuel, cond, thenBranch, elseBranch, frame, old(state))
      decreases fuel, 2, 0
    {
      var c := EvaluateNode(fuel, cond, frame);
      if c.Err? {
        return Err(c.error);
      }
      match Truthy(c.value)
      case Err(e) =>
        r := Err(e);
      case Ok(true) =>
        r := EvaluateNode(fuel, thenBranch, frame);
      case Ok(false) =>
        if elseBranch.None? {
          r := Ok(Null);
        } else {
          r := EvaluateNode(fuel, elseBranch.value, frame);
        }
    }

    method EvaluateRange(fuel: nat, args: seq<Ast.Node>, frame: nat) returns (r: Result<Value, Error>)
      requires Valid() && frame < |state.tables| && 1 <= |args| <= 3
      modifies this
      ensures Outcome(r, state) == EvalRange(fuel, args, frame, old(state))
      decreases fuel, 2, 0
    {
      var a := EvaluateEach(fuel, args, frame);
      if a.Err? {
        return Err(a.error);
      }
      r := RangeOf(a.value);
    }

    /**
     * The head, the check that it is a function, the arguments, then each
     * body in a new dict merged from the captured one and the parameters;
     * the value of the last body.
     */
    method EvaluateCall(fuel: nat, head: Ast.Node, args: seq<Ast.Node>, frame: nat) returns (r: Result<Value, Error>)
      requires Valid() && frame < |state.tables|
      modifies this
      ensures Outcome(r, state) == EvalCall(fuel, head, args, frame, old(state))
      decreases fuel, 2, 0
    {
      var h := EvaluateNode(fuel, head, frame);
      if h.Err? {
        return Err(h.error);
      }
      if !h.value.Closure? {
        return Err(NotCallable(head));
      }
      var f := h.value;
      var a := EvaluateEach(fuel, args, frame);
      if a.Err? {
        return Err(a.error);
      }
      r := CallFunction(fuel, f, a.value);
    }

    /**
     * Calling the function `f`: each body in turn in a new dict merged from
     * the captured one and the parameters; the value of the last body, or
     * `IndexError` when there is none.
     */
    method CallFunction(fuel: nat, f: Value, args: seq<Value>) returns (r: Result<Value, Error>)
      requires Valid() && f.Closure? && f.env < |state.tables| && AllWithin(args, |state.tables|, state.lambdas)
      modifies this
      ensures Outcome(r, state) == CallClosure(fuel, f, args, old(state))
      decreases fuel, 1, |f.bodies| + 1
    {
      var results: seq<Value> := [];
      var i := 0;
      assert f.bodies[0..] == f.bodies;
      PrependNothing(CallBodies(fuel, f, args, f.bodies, state));
      while i < |f.bodies|
        invariant 0 <= i <= |f.bodies| && Wf(state) && f.env < |state.tables|
        invariant AllWithin(args, |state.tables|, state.lambdas)
        invariant CallBodies(fuel, f, args, f.bodies, old(state)) == Prepend(results, CallBodies(fuel, f, args, f.bodies[i..], state))
        invariant |results| == i
      {
        CallStep(fuel, f, args, i, state, results);
        var table := |state.tables|;
        state := Enter(state, f.env, f.params, args);
        var b := EvaluateNode(fuel, f.bodies[i], table);
        if b.Err? {
          CallClosureRaised(fuel, f, args, old(state), b.error, state);
          return Err(b.error);
        }
        results := results + [b.value];
        i := i + 1;
      }
      assert results + [] == results;
      CallClosureCompleted(fuel, f, args, old(state), results, state);
      if |results| == 0 {
        r := Err(IndexError);
      } else {
        r := Ok(results[|results| - 1]);
      }
    }
  }
}
