/**
 * The evaluator's memory, with Python's object identity made explicit.
 *
 * Every `Variable` object ever created is an entry of `variables`, and a
 * reference to it is its index. Every local-variable dict ever created is an
 * entry of `tables` mapping names to such references; table 0 is the dict
 * that serves as the default `local_vars` of every top-level evaluation. The
 * global dict maps names to references too. Two dicts that hold the same
 * reference share one `Variable`, so an update through one is seen through
 * the other, as in the source.
 */
module Store {
  import opened Values

  /** A variable record: its current value and the two flags fixed at creation. */
  datatype Variable = Variable(value: Value, isLocal: bool, isMutable: bool)

  datatype State = State(
    variables: seq<Variable>,
    tables: seq<map<string, nat>>,
    globals: map<string, nat>,
    /** The values `print` has written, in order. */
    output: seq<Value>,
    /** How many functions `lambda` has created; the next one's identity. */
    lambdas: nat)

  /** The dict a sigil selects: the global one, or a local one. */
  datatype Scope = Global | Local(table: nat)

  /** The shared default `local_vars` of every top-level node. */
  const TopLevel: nat := 0

  /**
   * Well-formed memory: the top-level table exists, every reference in a dict
   * leads to a variable, global dicts hold global variables and local dicts
   * local ones, and every stored function refers to an existing table.
   */
  ghost predicate Wf(st: State) {
    && |st.tables| > 0
    && (forall k :: k in st.globals ==>
          st.globals[k] < |st.variables| && !st.variables[st.globals[k]].isLocal)
    && (forall t, k :: 0 <= t < |st.tables| && k in st.tables[t] ==>
          st.tables[t][k] < |st.variables| && st.variables[st.tables[t][k]].isLocal)
    && (forall i :: 0 <= i < |st.variables| ==>
          Within(st.variables[i].value, |st.tables|, st.lambdas))
  }

  /** A fresh interpreter: no globals, an empty top-level table, nothing printed. */
  function Initial(): (st: State)
    ensures Wf(st) && |st.tables| == 1
    ensures st.globals == map[] && st.tables[TopLevel] == map[] && st.output == []
  {
    State([], [map[]], map[], [], 0)
  }

  predicate InScope(st: State, scope: Scope) {
    scope.Global? || scope.table < |st.tables|
  }

  function Table(st: State, scope: Scope): map<string, nat>
    requires InScope(st, scope)
  {
    if scope.Global? then st.globals else st.tables[scope.table]
  }

  /** The current value of `key` in the dict `scope` selects. */
  function Lookup(st: State, scope: Scope, key: string): (v: Value)
    requires Wf(st) && InScope(st, scope) && key in Table(st, scope)
    ensures Within(v, |st.tables|, st.lambdas)
  {
    st.variables[Table(st, scope)[key]].value
  }

  /**
   * `table[key] = Variable(value, ...)`: a fresh variable, local exactly when
   * the dict is a local one, becomes the binding of `key`; every other
   * binding, dict and variable stays as it was.
   */
  function Bind(st: State, scope: Scope, key: string, value: Value, isMutable: bool): (st2: State)
    requires InScope(st, scope)
    ensures st2.variables == st.variables + [Variable(value, scope.Local?, isMutable)]
    ensures InScope(st2, scope) && Table(st2, scope) == Table(st, scope)[key := |st.variables|]
    ensures scope.Global? ==> st2.tables == st.tables
    ensures scope.Local? ==> st2.globals == st.globals && |st2.tables| == |st.tables|
    ensures scope.Local? ==> forall t :: 0 <= t < |st.tables| && t != scope.table ==> st2.tables[t] == st.tables[t]
    ensures st2.output == st.output && st2.lambdas == st.lambdas
  {
    var ref: nat := |st.variables|;
    var st1 := st.(variables := st.variables + [Variable(value, scope.Local?, isMutable)]);
    match scope
    case Global => st1.(globals := st.globals[key := ref])
    case Local(t) =>
      var table: map<string, nat> := st.tables[t][key := ref];
      st1.(tables := st.tables[t := table])
  }

  /** `variable.value = value` on the variable `ref`; nothing else changes. */
  function Assign(st: State, ref: nat, value: Value): (st2: State)
    requires ref < |st.variables|
    ensures |st2.variables| == |st.variables|
    ensures st2.variables[ref] == st.variables[ref].(value := value)
    ensures forall i :: 0 <= i < |st.variables| && i != ref ==> st2.variables[i] == st.variables[i]
    ensures st2.tables == st.tables && st2.globals == st.globals
    ensures st2.output == st.output && st2.lambdas == st.lambdas
  {
    st.(variables := st.variables[ref := st.variables[ref].(value := value)])
  }

  /**
   * The dict a function body runs in: a new merge of the captured table with
   * one fresh immutable local variable per argument, bound to the parameter
   * at the same position. A parameter without an argument, or an argument
   * without a parameter, adds no binding (`zip` stops at the shorter), and a
   * repeated parameter takes the later argument.
   */
  function Enter(st: State, env: nat, params: seq<string>, args: seq<Value>): (st2: State)
    requires env < |st.tables|
    ensures |st2.variables| == |st.variables| + |args|
    ensures forall i :: 0 <= i < |st2.variables| ==>
      st2.variables[i] == if i < |st.variables| then st.variables[i] else Variable(args[i - |st.variables|], true, false)
    ensures st2.tables == st.tables + [st.tables[env] + ZipMap(params, |st.variables|, |args|)]
    ensures st2.globals == st.globals && st2.output == st.output && st2.lambdas == st.lambdas
  {
    var base := |st.variables|;
    var newVars := seq(|args|, i requires 0 <= i < |args| => Variable(args[i], true, false));
    st.(variables := st.variables + newVars,
        tables := st.tables + [st.tables[env] + ZipMap(params, base, |args|)])
  }

  function Min(a: nat, b: nat): nat {
    if a < b then a else b
  }

  /**
   * `dict(zip(params, refs))` with `refs` the `n` references from `base` on:
   * a name is bound when it is one of the first `Min(|params|, n)`
   * parameters, and to the reference paired with its last occurrence there.
   */
  function ZipMap(params: seq<string>, base: nat, n: nat): (m: map<string, nat>)
    ensures forall k :: k in m <==> k in params[..Min(|params|, n)]
    ensures forall k :: k in m ==>
      && base <= m[k] < base + Min(|params|, n)
      && params[m[k] - base] == k
      && forall j :: m[k] - base < j < Min(|params|, n) ==> params[j] != k
  {
    var paired := params[..Min(|params|, n)];
    map k | k in paired :: base + LastIndexOf(paired, k)
  }

  /** The position of the last occurrence of `k` in `xs`. */
  function LastIndexOf(xs: seq<string>, k: string): (i: nat)
    requires k in xs
    ensures i < |xs| && xs[i] == k && forall j :: i < j < |xs| ==> xs[j] != k
  {
    if xs[|xs| - 1] == k then |xs| - 1
    else
      assert k in xs[..|xs| - 1] by {
        var j :| 0 <= j < |xs| && xs[j] == k;
        assert xs[..|xs| - 1][j] == k;
      }
      LastIndexOf(xs[..|xs| - 1], k)
  }

  /**
   * How memory may change while a node is evaluated with `frame` as its local
   * table: variables, dicts and the output only grow; no variable changes its
   * flags and no immutable global variable its value; a global name keeps its
   * variable; no dict loses a name; and no existing local dict other than
   * `frame` changes at all.
   */
  ghost predicate Evolves(st: State, st2: State, frame: nat) {
    && |st.variables| <= |st2.variables|
    && (forall i :: 0 <= i < |st.variables| ==>
          && st2.variables[i].isLocal == st.variables[i].isLocal
          && st2.variables[i].isMutable == st.variables[i].isMutable)
    && (forall i :: 0 <= i < |st.variables| && !st.variables[i].isLocal && !st.variables[i].isMutable ==>
          st2.variables[i].value == st.variables[i].value)
    && (forall k :: k in st.globals ==> k in st2.globals && st2.globals[k] == st.globals[k])
    && |st.tables| <= |st2.tables|
    && (forall t, k :: 0 <= t < |st.tables| && k in st.tables[t] ==> k in st2.tables[t])
    && (forall t :: 0 <= t < |st.tables| && t != frame ==> st2.tables[t] == st.tables[t])
    && st.output <= st2.output
    && st.lambdas <= st2.lambdas
  }

  lemma EvolvesReflexive(st: State, frame: nat)
    ensures Evolves(st, st, frame)
  {
  }

  /**
   * Two evolutions compose. The second may run in a table created after the
   * first began (a function body's), which leaves every earlier table alone.
   */
  lemma EvolvesTransitive(s1: State, s2: State, s3: State, frame: nat, frame2: nat)
    requires Evolves(s1, s2, frame) && Evolves(s2, s3, frame2)
    requires frame2 == frame || frame2 >= |s1.tables|
    ensures Evolves(s1, s3, frame)
  {
  }

  /** An evolution that touched no existing table is one for any frame. */
  lemma EvolvesAnyFrame(st: State, st2: State, frame: nat, other: nat)
    requires Evolves(st, st2, frame) && frame >= |st.tables|
    ensures Evolves(st, st2, other)
  {
  }

  /** Binding a global name that was free when evaluation began, or a name in the frame. */
  lemma BindEvolves(st: State, st1: State, frame: nat, scope: Scope, key: string, value: Value, isMutable: bool)
    requires Evolves(st, st1, frame) && InScope(st1, scope)
    requires scope.Global? ==> key !in st.globals
    requires scope.Local? ==> scope.table == frame || scope.table >= |st.tables|
    ensures Evolves(st, Bind(st1, scope, key, value, isMutable), frame)
  {
  }

  lemma BindWf(st: State, scope: Scope, key: string, value: Value, isMutable: bool)
    requires Wf(st) && InScope(st, scope) && Within(value, |st.tables|, st.lambdas)
    ensures Wf(Bind(st, scope, key, value, isMutable))
  {
    var st2 := Bind(st, scope, key, value, isMutable);
    forall t, k | 0 <= t < |st2.tables| && k in st2.tables[t]
      ensures st2.tables[t][k] < |st2.variables| && st2.variables[st2.tables[t][k]].isLocal
    {
      if scope.Local? && t == scope.table && k == key {
      } else {
        assert k in st.tables[t] && st2.tables[t][k] == st.tables[t][k];
      }
    }
  }

  /** Writing a variable that is local or mutable. */
  lemma AssignEvolves(st: State, st1: State, frame: nat, ref: nat, value: Value)
    requires Evolves(st, st1, frame) && ref < |st1.variables|
    requires st1.variables[ref].isLocal || st1.variables[ref].isMutable
    ensures Evolves(st, Assign(st1, ref, value), frame)
  {
  }

  lemma AssignWf(st: State, ref: nat, value: Value)
    requires Wf(st) && ref < |st.variables| && Within(value, |st.tables|, st.lambdas)
    ensures Wf(Assign(st, ref, value))
  {
  }

  /** More function identities keep memory well formed. */
  lemma MoreLambdasWf(st: State, lambdas: nat)
    requires Wf(st) && st.lambdas <= lambdas
    ensures Wf(st.(lambdas := lambdas))
  {
    forall i | 0 <= i < |st.variables|
      ensures Within(st.variables[i].value, |st.tables|, lambdas)
    {
      WithinGrows(st.variables[i].value, |st.tables|, st.lambdas, |st.tables|, lambdas);
    }
  }

  lemma EnterWf(st: State, env: nat, params: seq<string>, args: seq<Value>)
    requires Wf(st) && env < |st.tables| && AllWithin(args, |st.tables|, st.lambdas)
    ensures Wf(Enter(st, env, params, args))
    ensures Evolves(st, Enter(st, env, params, args), |st.tables|)
  {
    EnterValuesWithin(st, env, params, args);
    EnterTablesLocal(st, env, params, args);
  }

  lemma EnterValuesWithin(st: State, env: nat, params: seq<string>, args: seq<Value>)
    requires Wf(st) && env < |st.tables| && AllWithin(args, |st.tables|, st.lambdas)
    ensures var st2 := Enter(st, env, params, args);
      forall i :: 0 <= i < |st2.variables| ==> Within(st2.variables[i].value, |st2.tables|, st2.lambdas)
  {
    var st2 := Enter(st, env, params, args);
    forall i | 0 <= i < |st2.variables|
      ensures Within(st2.variables[i].value, |st2.tables|, st2.lambdas)
    {
      var v := if i < |st.variables| then st.variables[i].value else args[i - |st.variables|];
      assert st2.variables[i].value == v;
      WithinGrows(v, |st.tables|, st.lambdas, |st2.tables|, st2.lambdas);
    }
  }

  lemma EnterTablesLocal(st: State, env: nat, params: seq<string>, args: seq<Value>)
    requires Wf(st) && env < |st.tables|
    ensures var st2 := Enter(st, env, params, args);
      forall t, k :: 0 <= t < |st2.tables| && k in st2.tables[t] ==>
        st2.tables[t][k] < |st2.variables| && st2.variables[st2.tables[t][k]].isLocal
  {
    var st2 := Enter(st, env, params, args);
    var zip := ZipMap(params, |st.variables|, |args|);
    forall t, k | 0 <= t < |st2.tables| && k in st2.tables[t]
      ensures st2.tables[t][k] < |st2.variables| && st2.variables[st2.tables[t][k]].isLocal
    {
      if t < |st.tables| {
        assert st2.tables[t] == st.tables[t];
      } else if k in zip {
        assert st2.tables[t][k] == zip[k];
      } else {
        assert st2.tables[t][k] == st.tables[env][k];
      }
    }
  }
}
