/**
 * What the forms of `_evaluate_node` promise about the two kinds of dict,
 * stated directly in terms of names, variables and values.
 */
module Properties {
  import Ast
  import opened Results
  import opened Values
  import opened Store
  import opened Evaluator

  // ---------------------------------------------------------------------------
  // Binding and updating names
  // ---------------------------------------------------------------------------

  /**
   * `defn` / `defn-mutable` on a free name adds exactly one name to the dict
   * its sigil selects, bound to a new variable that holds the value, is local
   * exactly for a `$` name and mutable exactly for `defn-mutable`; the other
   * dict, and every other name, is as the evaluation of the value left it.
   */
  lemma DefineAddsOneBinding(fuel: nat, name: string, value: Ast.Node, mutable: bool, frame: nat, st: State)
    requires Wf(st) && frame < |st.tables| && Ast.HasSigil(name)
    ensures var scope, key := ScopeOf(name, frame), Ast.StripVariableSigil(name);
      var v := Eval(fuel, value, frame, st);
      var o := EvalDefine(fuel, name, value, mutable, frame, st);
      key !in Table(st, scope) && v.result.Ok? ==>
        && o.result == Ok(Null)
        && InScope(o.st, scope) && InScope(v.st, scope)
        && Table(o.st, scope).Keys == Table(v.st, scope).Keys + {key}
        && (forall k :: k in Table(v.st, scope) && k != key ==> Table(o.st, scope)[k] == Table(v.st, scope)[k])
        && |o.st.variables| == |v.st.variables| + 1
        && o.st.variables[Table(o.st, scope)[key]] == Variable(v.result.value, Ast.StartsWith(name, '$'), mutable)
        && (Ast.StartsWith(name, ':') ==> o.st.tables == v.st.tables)
        && (Ast.StartsWith(name, '$') ==>
              && o.st.globals == v.st.globals
              && forall t :: 0 <= t < |v.st.tables| && t != frame ==> o.st.tables[t] == v.st.tables[t])
  {
    var scope, key := ScopeOf(name, frame), Ast.StripVariableSigil(name);
    var v := Eval(fuel, value, frame, st);
    if key !in Table(st, scope) && v.result.Ok? {
      var o := EvalDefine(fuel, name, value, mutable, frame, st);
      assert o.st == Bind(v.st, scope, key, v.result.value, mutable);
      assert Table(o.st, scope)[key] == |v.st.variables|;
    }
  }

  /** `defn` on a name its dict already holds raises and changes nothing. */
  lemma DefineTwiceRaises(fuel: nat, name: string, value: Ast.Node, mutable: bool, frame: nat, st: State)
    requires Wf(st) && frame < |st.tables| && Ast.HasSigil(name)
    requires Ast.StripVariableSigil(name) in Table(st, ScopeOf(name, frame))
    ensures EvalDefine(fuel, name, value, mutable, frame, st) == Outcome(Err(AlreadyDefined(name)), st)
  {
  }

  /**
   * A successful `mutate` writes only the value of the variable the name is
   * bound to: no dict changes, the variable keeps its flags and every other
   * variable is as the evaluation of the value left it.
   */
  lemma MutateWritesOneValue(fuel: nat, name: string, value: Ast.Node, frame: nat, st: State)
    requires Wf(st) && frame < |st.tables| && Ast.HasSigil(name)
    ensures var scope, key := ScopeOf(name, frame), Ast.StripVariableSigil(name);
      var v := Eval(fuel, value, frame, st);
      var o := EvalMutate(fuel, name, value, frame, st);
      key in Table(st, scope) && st.variables[Table(st, scope)[key]].isMutable && v.result.Ok? ==>
        && o.result == Ok(Null)
        && o.st.tables == v.st.tables && o.st.globals == v.st.globals
        && key in Table(v.st, scope)
        && var ref := Table(v.st, scope)[key];
           && ref < |v.st.variables| == |o.st.variables|
           && o.st.variables[ref].value == v.result.value
           && o.st.variables[ref].isLocal == v.st.variables[ref].isLocal
           && o.st.variables[ref].isMutable == v.st.variables[ref].isMutable
           && forall i :: 0 <= i < |v.st.variables| && i != ref ==> o.st.variables[i] == v.st.variables[i]
  {
  }

  // ---------------------------------------------------------------------------
  // Names
  // ---------------------------------------------------------------------------

  /**
   * A `$` name is looked up in the local dict only and a `:` name in the
   * global dict only: a name bound in the other dict does not help.
   */
  lemma SigilSelectsOneDict(key: string, frame: nat, st: State)
    requires Wf(st) && frame < |st.tables|
    ensures EvalAtom(Ast.Str("$" + key), frame, st) ==
      if key in st.tables[frame] then Ok(Lookup(st, Local(frame), key)) else Err(NotDefined("$" + key))
    ensures EvalAtom(Ast.Str(":" + key), frame, st) ==
      if key in st.globals then Ok(Lookup(st, Global, key)) else Err(NotDefined(":" + key))
  {
    assert Ast.StripVariableSigil("$" + key) == key;
    assert Ast.StripVariableSigil(":" + key) == key;
  }

  /**
   * Whatever a node does, a global name stays bound to its variable, and an
   * immutable global keeps its value.
   */
  lemma GlobalsPersist(fuel: nat, node: Ast.Node, frame: nat, st: State, key: string)
    requires Wf(st) && frame < |st.tables| && key in st.globals
    ensures var o := Eval(fuel, node, frame, st);
      && key in o.st.globals && o.st.globals[key] == st.globals[key]
      && (!st.variables[st.globals[key]].isMutable ==> Lookup(o.st, Global, key) == Lookup(st, Global, key))
  {
  }

  /**
   * `set_global_variable` followed by `get_global_variable` on the same name
   * gives the value back, as an immutable global; other names keep their variables.
   */
  lemma SetThenGet(st: State, name: string, value: Value)
    requires Wf(st) && Within(value, |st.tables|, st.lambdas)
    ensures var st2 := Bind(st, Global, name, value, false);
      && name in st2.globals
      && st2.globals[name] < |st2.variables|
      && st2.variables[st2.globals[name]] == Variable(value, false, false)
      && forall k :: k in st.globals && k != name ==> k in st2.globals && st2.globals[k] == st.globals[k]
  {
  }

  /** Python truthiness: exactly `False`, `None`, `0`, `""`, `()` and `[]` are falsy. */
  lemma FalsyValues(v: Value)
    requires !v.Float?
    ensures Truthy(v).Ok?
    ensures Truthy(v) == Ok(false) <==>
      v == Bool(false) || v == Null || v == Int(0) || v == Str("") || v == Tuple([]) || v == EmptyList
  {
  }

  // ---------------------------------------------------------------------------
  // for-each
  // ---------------------------------------------------------------------------

  /**
   * A loop body that leaves the loop variable alone: it neither rebinds the
   * name in the frame nor changes the variable the name is bound to.
   */
  ghost predicate LeavesBinding(fuel: nat, body: Ast.Node, frame: nat, key: string) {
    forall s {:trigger Eval(fuel, body, frame, s)} :: Wf(s) && frame < |s.tables| && key in s.tables[frame] ==>
      var b := Eval(fuel, body, frame, s);
      && key in b.st.tables[frame]
      && b.st.tables[frame][key] == s.tables[frame][key]
      && b.st.variables[s.tables[frame][key]] == s.variables[s.tables[frame][key]]
  }

  /** An atom body, such as `$x` or `1`, changes no memory at all. */
  lemma AtomLeavesBinding(fuel: nat, body: Ast.Node, frame: nat, key: string)
    requires !body.List? || |body.items| == 0
    ensures LeavesBinding(fuel, body, frame, key)
  {
    forall s | Wf(s) && frame < |s.tables| && key in s.tables[frame]
      ensures Eval(fuel, body, frame, s).st == s
    {
      AtomKeepsState(fuel, body, frame, s);
    }
  }

  /** Evaluating an atom, or running out of fuel, leaves the state as it was. */
  lemma AtomKeepsState(fuel: nat, body: Ast.Node, frame: nat, st: State)
    requires Wf(st) && frame < |st.tables|
    requires !body.List? || |body.items| == 0
    ensures Eval(fuel, body, frame, st).st == st
  {
    if fuel > 0 {
      assert Classify(body) == Atom(body);
    }
  }

  /** If `o` did not raise, `key` is bound in the frame to an immutable local variable holding `v`. */
  ghost predicate BindsLast(o: Outcome<Value>, frame: nat, key: string, v: Value) {
    o.result.Ok? ==>
      && frame < |o.st.tables|
      && key in o.st.tables[frame]
      && o.st.tables[frame][key] < |o.st.variables|
      && o.st.variables[o.st.tables[frame][key]] == Variable(v, true, false)
  }

  /**
   * After a loop over a non-empty sequence that did not raise, the name is
   * bound in the frame to an immutable local variable holding the last
   * element, whether or not the name was bound before the loop.
   */
  lemma {:induction false} ForEachLastElement(fuel: nat, key: string, items: seq<Value>, body: Ast.Node, frame: nat, st: State)
    requires Wf(st) && frame < |st.tables| && AllWithin(items, |st.tables|, st.lambdas)
    requires |items| > 0 && LeavesBinding(fuel, body, frame, key)
    ensures BindsLast(ForEachLoop(fuel, key, items, body, frame, st), frame, key, items[|items| - 1])
    decreases |items|
  {
    var tail := items[1..];
    assert |tail| > 0 ==> tail[|tail| - 1] == items[|items| - 1];
    var st1 := Bind(st, Local(frame), key, items[0], false);
    BindWf(st, Local(frame), key, items[0], false);
    var b := Eval(fuel, body, frame, st1);
    ForEachStep(fuel, key, items, body, frame, st);
    if b.result.Ok? {
      FirstElementBound(fuel, key, items, body, frame, st);
      if |tail| == 0 {
        ForEachLoopEmpty(fuel, key, body, frame, b.st);
      } else {
        ForEachLastElement(fuel, key, tail, body, frame, b.st);
      }
    }
  }

  /** A loop over no elements changes nothing and yields `None`. */
  lemma ForEachLoopEmpty(fuel: nat, key: string, body: Ast.Node, frame: nat, st: State)
    requires Wf(st) && frame < |st.tables|
    ensures ForEachLoop(fuel, key, [], body, frame, st) == Outcome(Ok(Null), st)
  {
  }

  /** The first pass of the loop leaves the name bound to the variable holding the first element. */
  lemma FirstElementBound(fuel: nat, key: string, items: seq<Value>, body: Ast.Node, frame: nat, st: State)
    requires Wf(st) && frame < |st.tables| && AllWithin(items, |st.tables|, st.lambdas)
    requires |items| > 0 && LeavesBinding(fuel, body, frame, key)
    ensures var st1 := Bind(st, Local(frame), key, items[0], false);
      && Wf(st1)
      && var b := Eval(fuel, body, frame, st1);
      && key in b.st.tables[frame]
      && b.st.tables[frame][key] < |b.st.variables|
      && b.st.variables[b.st.tables[frame][key]] == Variable(items[0], true, false)
  {
    var st1 := Bind(st, Local(frame), key, items[0], false);
    BindWf(st, Local(frame), key, items[0], false);
    var ref := |st.variables|;
    assert st1.tables[frame][key] == ref && st1.variables[ref] == Variable(items[0], true, false);
  }

  // ---------------------------------------------------------------------------
  // Calling a function
  // ---------------------------------------------------------------------------

  /**
   * The dict a body runs in binds each parameter, up to the shorter of the
   * parameters and the arguments, to a new immutable local variable holding
   * the argument at the position of its last occurrence.
   */
  lemma EnterBindsParams(st: State, env: nat, params: seq<string>, args: seq<Value>, i: nat)
    requires Wf(st) && env < |st.tables|
    requires i < |params| && i < |args| && forall j :: i < j < Min(|params|, |args|) ==> params[j] != params[i]
    ensures var st2 := Enter(st, env, params, args);
      var body := st2.tables[|st.tables|];
      && params[i] in body
      && body[params[i]] < |st2.variables|
      && st2.variables[body[params[i]]] == Variable(args[i], true, false)
  {
    var st2 := Enter(st, env, params, args);
    var zip := ZipMap(params, |st.variables|, |args|);
    assert params[..Min(|params|, |args|)][i] == params[i];
    assert params[i] in zip;
    assert zip[params[i]] == |st.variables| + i;
  }

  /**
   * Every other name the captured dict holds is bound in the body's dict to
   * the very same variable: a `mutate` of it inside the body is seen by the
   * scope that created the function, and the other way round.
   */
  lemma EnterShares(st: State, env: nat, params: seq<string>, args: seq<Value>, key: string)
    requires Wf(st) && env < |st.tables|
    requires key in st.tables[env] && key !in params[..Min(|params|, |args|)]
    ensures var st2 := Enter(st, env, params, args);
      key in st2.tables[|st.tables|] && st2.tables[|st.tables|][key] == st.tables[env][key]
  {
  }

  /**
   * Running the bodies of a function never changes a dict that existed at
   * the call: in particular the parameters never reach the captured dict.
   */
  lemma CallKeepsTables(fuel: nat, f: Value, args: seq<Value>, st: State)
    requires Wf(st) && f.Closure? && f.env < |st.tables| && AllWithin(args, |st.tables|, st.lambdas)
    ensures var r := CallBodies(fuel, f, args, f.bodies, st);
      && |st.tables| <= |r.st.tables|
      && forall t :: 0 <= t < |st.tables| ==> r.st.tables[t] == st.tables[t]
  {
  }

  /**
   * The general call form in order: the head first, raising "Unable to call"
   * when its value is not a function; then the arguments left to right in
   * the caller's dict; then the call itself, whose outcome is the form's.
   * An exception at any step ends the form with that exception.
   */
  lemma CallFormOrder(fuel: nat, head: Ast.Node, args: seq<Ast.Node>, frame: nat, st: State)
    requires Wf(st) && frame < |st.tables|
    ensures var h := Eval(fuel, head, frame, st);
      var o := EvalCall(fuel, head, args, frame, st);
      && (h.result.Err? ==> o == Outcome(Err(h.result.error), h.st))
      && (h.result.Ok? && !h.result.value.Closure? ==> o == Outcome(Err(NotCallable(head)), h.st))
      && (h.result.Ok? && h.result.value.Closure? ==>
            var a := EvalEach(fuel, args, frame, h.st);
            && (a.result.Err? ==> o == Outcome(Err(a.result.error), a.st))
            && (a.result.Ok? ==> o == CallClosure(fuel, h.result.value, a.result.value, a.st)))
  {
  }

  // ---------------------------------------------------------------------------
  // range
  // ---------------------------------------------------------------------------

  /** `(range n)` holds `0, 1, ..., n - 1`, and nothing for `n <= 0`. */
  lemma RangeOneArgument(n: int)
    ensures var r := RangeOf([Int(n)]);
      && r.Ok? && r.value.Tuple?
      && |r.value.items| == (if n > 0 then n else 0)
      && forall i :: 0 <= i < |r.value.items| ==> r.value.items[i] == Int(i)
  {
    assert IsInteger([Int(n)][0]);
    assert RangeOf([Int(n)]) == Ok(Tuple(IntsToValues(RangeSeq(0, n, 1))));
    RangeUnitLength(0, n);
  }

  /** `(range a b)` holds `a, a + 1, ..., b - 1`. */
  lemma RangeTwoArguments(a: int, b: int)
    ensures var r := RangeOf([Int(a), Int(b)]);
      && r.Ok? && r.value.Tuple?
      && |r.value.items| == (if b > a then b - a else 0)
      && forall i :: 0 <= i < |r.value.items| ==> r.value.items[i] == Int(a + i)
  {
    assert forall i :: 0 <= i < 2 ==> IsInteger([Int(a), Int(b)][i]);
    assert RangeOf([Int(a), Int(b)]) == Ok(Tuple(IntsToValues(RangeSeq(a, b, 1))));
    RangeUnitLength(a, b);
  }

  /** With a unit step there are `stop - start` elements, counting up from `start`. */
  lemma RangeUnitLength(start: int, stop: int)
    ensures var r := RangeSeq(start, stop, 1);
      && |r| == (if stop > start then stop - start else 0)
      && forall i :: 0 <= i < |r| ==> r[i] == start + i
  {
    var r := RangeSeq(start, stop, 1);
    RangeSeqElements(start, stop, 1);
    if |r| > 0 {
      assert r[|r| - 1] < stop;
    }
  }

  /**
   * `(range a b s)` with `s != 0` is the progression `a + i * s` up to, and
   * excluding, `b`; with `s == 0` it raises `ValueError`.
   */
  lemma RangeThreeArguments(a: int, b: int, s: int)
    ensures var r := RangeOf([Int(a), Int(b), Int(s)]);
      && (s == 0 ==> r == Err(ValueError))
      && (s != 0 ==>
            && r.Ok? && r.value.Tuple?
            && (forall i :: 0 <= i < |r.value.items| ==> r.value.items[i] == Int(a + i * s))
            && (forall i :: 0 <= i < |r.value.items| ==> if s > 0 then a + i * s < b else a + i * s > b)
            && (var next := a + |r.value.items| * s; if s > 0 then next >= b else next <= b))
  {
    assert forall i :: 0 <= i < 3 ==> IsInteger([Int(a), Int(b), Int(s)][i]);
    if s != 0 {
      var xs := RangeSeq(a, b, s);
      assert RangeOf([Int(a), Int(b), Int(s)]) == Ok(Tuple(IntsToValues(xs)));
      RangeSeqElements(a, b, s);
      forall i | 0 <= i < |xs|
        ensures IntsToValues(xs)[i] == Int(a + i * s)
        ensures if s > 0 then a + i * s < b else a + i * s > b
      {
        assert xs[i] == a + i * s;
      }
    }
  }
}
