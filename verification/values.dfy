/**
 * The run-time values of the evaluator and the Python operators it applies to
 * them: integer arithmetic with floor division, truthiness, `==`, ordering,
 * `range`, `math.factorial` and the iteration a `for-each` performs.
 *
 * A `bool` behaves as the integer 0 or 1 in arithmetic, as it does in Python.
 * Floats are opaque: any operator that would have to compute with one yields
 * `Unsupported`, as does every other operand combination outside the model.
 */
module Values {
  import Ast
  import opened Results

  datatype Value =
    | Int(i: int)
    | Bool(b: bool)
    | Str(s: string)
    | Float(text: string)
    | Null
    /** What the `list` and `range` forms build: a Python tuple. */
    | Tuple(items: seq<Value>)
    /** The empty Python list an empty node evaluates to. */
    | EmptyList
    /**
     * A Python function built by a `lambda` form. `id` stands for the object's
     * identity, `env` is the local table it captured (by reference).
     */
    | Closure(id: nat, params: seq<string>, bodies: seq<Ast.Node>, env: nat)

  /** The exceptions evaluation can raise. */
  datatype Error =
    | AlreadyDefined(name: string)
    | NotDefined(name: string)
    | NotMutable(name: string)
    | NotCallable(head: Ast.Node)
    | AttributeError
    | TypeError
    | ValueError
    | ZeroDivision
    | IndexError
    | KeyError(key: string)
    /** The operation computes something this model does not represent (a float, a cross-type operator). */
    | Unsupported
    /** The evaluation nests deeper than the fuel it was given. */
    | OutOfFuel

  datatype ArithOp = Add | Sub | Mul | Div | IntDiv | Mod | Pow
  datatype CmpOp = Eq | Ne | Lt | Gt | Le | Ge
  datatype BinOp = Arith(a: ArithOp) | Cmp(c: CmpOp)

  /** An `int` or a `bool`, which Python arithmetic treats as an int. */
  predicate IsInteger(v: Value) {
    v.Int? || v.Bool?
  }

  function IntOf(v: Value): int
    requires IsInteger(v)
  {
    if v.Int? then v.i else if v.b then 1 else 0
  }

  /** A number whose arithmetic the model does not carry out. */
  predicate IsNumber(v: Value) {
    IsInteger(v) || v.Float?
  }

  // ---------------------------------------------------------------------
  // Integer arithmetic
  // ---------------------------------------------------------------------

  /** Python `a // b`: the quotient rounded towards negative infinity. */
  function FloorDiv(a: int, b: int): int
    requires b != 0
  {
    if b > 0 || a % b == 0 then a / b else a / b - 1
  }

  /** Python `a % b`: the remainder, which takes the sign of the divisor. */
  function FloorMod(a: int, b: int): int
    requires b != 0
  {
    if b > 0 || a % b == 0 then a % b else a % b + b
  }

  /**
   * Python's defining law of `//` and `%`: quotient and remainder recombine to
   * the dividend, and the remainder lies between zero and the divisor.
   */
  lemma FloorDivision(a: int, b: int)
    requires b != 0
    ensures b * FloorDiv(a, b) + FloorMod(a, b) == a
    ensures b > 0 ==> 0 <= FloorMod(a, b) < b
    ensures b < 0 ==> b < FloorMod(a, b) <= 0
  {
    if b < 0 && a % b != 0 {
      calc {
        b * FloorDiv(a, b) + FloorMod(a, b);
        b * (a / b - 1) + (a % b + b);
        { assert b * (a / b - 1) == b * (a / b) - b; }
        b * (a / b) + a % b;
        a;
      }
    }
  }

  /** The law above fixes the quotient: no other integer satisfies it. */
  lemma FloorDivUnique(a: int, b: int, q: int, r: int)
    requires b != 0 && b * q + r == a
    requires b > 0 ==> 0 <= r < b
    requires b < 0 ==> b < r <= 0
    ensures q == FloorDiv(a, b) && r == FloorMod(a, b)
  {
    FloorDivision(a, b);
    var q0, r0 := FloorDiv(a, b), FloorMod(a, b);
    var d := q - q0;
    assert b * d == r0 - r by {
      assert b * d == b * q - b * q0;
    }
    if d != 0 {
      ProductAtLeastFactor(b, d);
    }
  }

  /** A non-zero multiple of `b` is at least `|b|` away from zero. */
  lemma ProductAtLeastFactor(b: int, d: int)
    requires b != 0 && d != 0
    ensures b * d >= b > 0 || b * d <= b < 0 || b * d >= -b > 0 || b * d <= -b < 0
  {
    var B := if b > 0 then b else -b;
    var D := if d > 0 then d else -d;
    PositiveProduct(B, D);
    assert b * d == B * D || b * d == -(B * D);
  }

  lemma {:induction false} PositiveProduct(b: nat, d: nat)
    requires b > 0 && d > 0
    ensures b * d >= b
    decreases d
  {
    if d > 1 {
      PositiveProduct(b, d - 1);
      assert b * d == b * (d - 1) + b;
    }
  }

  /** Python `x ** y` for a non-negative exponent. */
  function Power(x: int, y: nat): int {
    if y == 0 then 1 else x * Power(x, y - 1)
  }

  /** `math.factorial` on a non-negative integer. */
  function Factorial(n: nat): (r: nat)
    ensures r >= 1
  {
    if n == 0 then 1 else n * Factorial(n - 1)
  }

  /** The integers Python's `range(start, stop, step)` produces. */
  function RangeSeq(start: int, stop: int, step: int): seq<int>
    requires step != 0
    decreases if step > 0 then stop - start else start - stop
  {
    if (step > 0 && start < stop) || (step < 0 && start > stop) then
      [start] + RangeSeq(start + step, stop, step)
    else
      []
  }

  /**
   * What Python documents for `range`: element `i` is `start + i * step`,
   * every element lies before `stop` in the direction of the step, and the
   * element that would come next does not.
   */
  lemma {:induction false} RangeSeqElements(start: int, stop: int, step: int)
    requires step != 0
    ensures var r := RangeSeq(start, stop, step);
      && (forall i :: 0 <= i < |r| ==> r[i] == start + i * step)
      && (forall i :: 0 <= i < |r| ==> if step > 0 then r[i] < stop else r[i] > stop)
      && (var next := start + |r| * step; if step > 0 then next >= stop else next <= stop)
    decreases if step > 0 then stop - start else start - stop
  {
    var r := RangeSeq(start, stop, step);
    if |r| > 0 {
      var rest := RangeSeq(start + step, stop, step);
      RangeSeqElements(start + step, stop, step);
      assert r == [start] + rest;
      forall i | 0 <= i < |r|
        ensures r[i] == start + i * step
      {
        if i > 0 {
          assert r[i] == rest[i - 1] == start + step + (i - 1) * step;
        }
      }
      assert start + |r| * step == start + step + |rest| * step;
    }
  }

  /** With a unit step the range holds exactly the integers in `[start, stop)`. */
  lemma RangeSeqMembers(start: int, stop: int)
    ensures forall x :: x in RangeSeq(start, stop, 1) <==> start <= x < stop
  {
    var r := RangeSeq(start, stop, 1);
    RangeSeqElements(start, stop, 1);
    forall x | start <= x < stop
      ensures x in r
    {
      assert r[x - start] == x;
    }
  }

  /** With a positive step the range is strictly increasing. */
  lemma RangeSeqIncreasing(start: int, stop: int, step: int)
    requires step > 0
    ensures var r := RangeSeq(start, stop, step);
      forall i, j :: 0 <= i < j < |r| ==> r[i] < r[j]
  {
    var r := RangeSeq(start, stop, step);
    RangeSeqElements(start, stop, step);
    forall i, j | 0 <= i < j < |r|
      ensures r[i] < r[j]
    {
      assert r[j] - r[i] == (j - i) * step;
    }
  }

  function IntsToValues(xs: seq<int>): (vs: seq<Value>)
    ensures |vs| == |xs| && forall i :: 0 <= i < |xs| ==> vs[i] == Int(xs[i])
  {
    seq(|xs|, i requires 0 <= i < |xs| => Int(xs[i]))
  }

  // ---------------------------------------------------------------------
  // The operators
  // ---------------------------------------------------------------------

  /** Python truthiness of a value; a float's is not modelled. */
  function Truthy(v: Value): Result<bool, Error> {
    match v
    case Int(i) => Ok(i != 0)
    case Bool(b) => Ok(b)
    case Str(s) => Ok(|s| > 0)
    case Float(_) => Err(Unsupported)
    case Null => Ok(false)
    case Tuple(items) => Ok(|items| > 0)
    case EmptyList => Ok(false)
    case Closure(_, _, _, _) => Ok(true)
  }

  /**
   * Python `==`. Integers and bools compare as numbers, strings and tuples by
   * content (tuples element by element, stopping at the first difference),
   * functions by identity, and values of unrelated types are unequal.
   */
  function Equals(a: Value, b: Value): Result<bool, Error>
    decreases a
  {
    if IsNumber(a) && IsNumber(b) then
      if a.Float? || b.Float? then Err(Unsupported) else Ok(IntOf(a) == IntOf(b))
    else match (a, b)
      case (Str(x), Str(y)) => Ok(x == y)
      case (Null, Null) => Ok(true)
      case (EmptyList, EmptyList) => Ok(true)
      case (Closure(i, _, _, _), Closure(j, _, _, _)) => Ok(i == j)
      case (Tuple(xs), Tuple(ys)) => if |xs| != |ys| then Ok(false) else EqualsItems(xs, ys)
      case _ => Ok(false)
  }

  function EqualsItems(xs: seq<Value>, ys: seq<Value>): Result<bool, Error>
    requires |xs| == |ys|
    decreases xs
  {
    if |xs| == 0 then Ok(true)
    else match Equals(xs[0], ys[0])
      case Err(e) => Err(e)
      case Ok(false) => Ok(false)
      case Ok(true) => EqualsItems(xs[1..], ys[1..])
  }

  /** A value with no float anywhere inside it. */
  predicate NoFloat(v: Value) {
    match v
    case Float(_) => false
    case Tuple(items) => forall i :: 0 <= i < |items| ==> NoFloat(items[i])
    case _ => true
  }

  /** `==` is symmetric. */
  lemma {:induction false} EqualsSymmetric(a: Value, b: Value)
    ensures Equals(a, b) == Equals(b, a)
    decreases a
  {
    if !(IsNumber(a) && IsNumber(b)) && a.Tuple? && b.Tuple? && |a.items| == |b.items| {
      EqualsItemsSymmetric(a.items, b.items);
    }
  }

  lemma {:induction false} EqualsItemsSymmetric(xs: seq<Value>, ys: seq<Value>)
    requires |xs| == |ys|
    ensures EqualsItems(xs, ys) == EqualsItems(ys, xs)
    decreases xs
  {
    if |xs| > 0 {
      EqualsSymmetric(xs[0], ys[0]);
      EqualsItemsSymmetric(xs[1..], ys[1..]);
    }
  }

  /** A value without floats is equal to itself. */
  lemma {:induction false} EqualsReflexive(a: Value)
    requires NoFloat(a)
    ensures Equals(a, a) == Ok(true)
    decreases a
  {
    if a.Tuple? {
      EqualsItemsReflexive(a.items);
    }
  }

  lemma {:induction false} EqualsItemsReflexive(xs: seq<Value>)
    requires forall i :: 0 <= i < |xs| ==> NoFloat(xs[i])
    ensures EqualsItems(xs, xs) == Ok(true)
    decreases xs
  {
    if |xs| > 0 {
      EqualsReflexive(xs[0]);
      EqualsItemsReflexive(xs[1..]);
    }
  }

  /** Python's `<` on strings: lexicographic order of the code points. */
  predicate StrLess(a: string, b: string) {
    if |a| == 0 then |b| > 0
    else if |b| == 0 then false
    else if a[0] != b[0] then a[0] < b[0]
    else StrLess(a[1..], b[1..])
  }

  /** `StrLess` is a strict total order: exactly one of `a < b`, `a == b`, `b < a`. */
  lemma {:induction false} StrLessTrichotomy(a: string, b: string)
    ensures a == b ==> !StrLess(a, b)
    ensures a != b ==> StrLess(a, b) != StrLess(b, a)
  {
    if |a| > 0 && |b| > 0 && a[0] == b[0] {
      StrLessTrichotomy(a[1..], b[1..]);
      if a != b {
        assert a == [a[0]] + a[1..] && b == [b[0]] + b[1..];
      }
    }
  }

  /** `StrLess` is transitive. */
  lemma {:induction false} StrLessTransitive(a: string, b: string, c: string)
    requires StrLess(a, b) && StrLess(b, c)
    ensures StrLess(a, c)
  {
    if |a| > 0 && |b| > 0 && |c| > 0 && a[0] == b[0] && b[0] == c[0] {
      StrLessTransitive(a[1..], b[1..], c[1..]);
    }
  }

  /** Python `<` on integers and on strings. */
  function Less(a: Value, b: Value): Result<bool, Error> {
    if IsInteger(a) && IsInteger(b) then Ok(IntOf(a) < IntOf(b))
    else if a.Str? && b.Str? then Ok(StrLess(a.s, b.s))
    else Err(Unsupported)
  }

  function Not(r: Result<bool, Error>): Result<bool, Error> {
    match r
    case Ok(b) => Ok(!b)
    case Err(e) => Err(e)
  }

  /**
   * The six comparison operators. On integers and strings `>` is `<` with
   * the operands swapped and `<=`, `>=` are the negations of `>`, `<`.
   */
  function Compare(op: CmpOp, a: Value, b: Value): Result<bool, Error> {
    match op
    case Eq => Equals(a, b)
    case Ne => Not(Equals(a, b))
    case Lt => Less(a, b)
    case Gt => Less(b, a)
    case Le => Not(Less(b, a))
    case Ge => Not(Less(a, b))
  }

  /** The arithmetic operators on integers, with Python's error cases. */
  function IntArith(op: ArithOp, x: int, y: int): Result<Value, Error> {
    match op
    case Add => Ok(Int(x + y))
    case Sub => Ok(Int(x - y))
    case Mul => Ok(Int(x * y))
    // a true quotient is a float
    case Div => if y == 0 then Err(ZeroDivision) else Err(Unsupported)
    case IntDiv => if y == 0 then Err(ZeroDivision) else Ok(Int(FloorDiv(x, y)))
    case Mod => if y == 0 then Err(ZeroDivision) else Ok(Int(FloorMod(x, y)))
    // a negative exponent gives a float, or raises for a zero base
    case Pow =>
      if y >= 0 then Ok(Int(Power(x, y)))
      else if x == 0 then Err(ZeroDivision)
      else Err(Unsupported)
  }

  /** A binary operator form applied to its two evaluated operands. */
  function BinaryOp(op: BinOp, a: Value, b: Value): (r: Result<Value, Error>)
    ensures op.Cmp? && r.Ok? ==> r.value.Bool?
    ensures op.Arith? && IsInteger(a) && IsInteger(b) ==> r == IntArith(op.a, IntOf(a), IntOf(b))
    ensures op == Arith(Add) && a.Str? && b.Str? ==> r == Ok(Str(a.s + b.s))
    ensures op == Arith(Add) && a.Tuple? && b.Tuple? ==> r == Ok(Tuple(a.items + b.items))
  {
    match op
    case Cmp(c) =>
      (match Compare(c, a, b)
       case Ok(x) => Ok(Bool(x))
       case Err(e) => Err(e))
    case Arith(o) =>
      if IsInteger(a) && IsInteger(b) then IntArith(o, IntOf(a), IntOf(b))
      else if o == Add then
        match (a, b)
        case (Str(x), Str(y)) => Ok(Str(x + y))
        case (Tuple(xs), Tuple(ys)) => Ok(Tuple(xs + ys))
        case (EmptyList, EmptyList) => Ok(EmptyList)
        case _ => Err(Unsupported)
      else Err(Unsupported)
  }

  /** `math.factorial`: a negative argument raises `ValueError`. */
  function FactorialOf(v: Value): (r: Result<Value, Error>)
    ensures IsInteger(v) && IntOf(v) < 0 ==> r == Err(ValueError)
    ensures IsInteger(v) && IntOf(v) >= 0 ==> r.Ok? && r.value.Int? && r.value.i >= 1
    ensures !IsInteger(v) ==> r.Err?
  {
    if !IsInteger(v) then Err(TypeError)
    else if IntOf(v) < 0 then Err(ValueError)
    else Ok(Int(Factorial(IntOf(v))))
  }

  /** `math.sqrt`: a negative integer raises `ValueError`; the result is a float. */
  function SqrtOf(v: Value): (r: Result<Value, Error>)
    ensures r.Err?
    ensures IsInteger(v) && IntOf(v) < 0 ==> r == Err(ValueError)
  {
    if IsNumber(v) then
      if v.Float? || IntOf(v) >= 0 then Err(Unsupported) else Err(ValueError)
    else Err(TypeError)
  }

  /**
   * `tuple(range(...))` on one, two or three evaluated arguments: `range(end)`,
   * `range(start, end)` or `range(start, end, step)`. Non-integers raise
   * `TypeError` before a zero step raises `ValueError`.
   */
  function RangeOf(args: seq<Value>): (r: Result<Value, Error>)
    requires 1 <= |args| <= 3
    ensures (exists i :: 0 <= i < |args| && !IsInteger(args[i])) ==> r == Err(TypeError)
    ensures |args| == 3 && (forall i :: 0 <= i < 3 ==> IsInteger(args[i])) && IntOf(args[2]) == 0 ==> r == Err(ValueError)
    ensures r.Ok? ==> r.value.Tuple? && forall i :: 0 <= i < |r.value.items| ==> r.value.items[i].Int?
  {
    if exists i :: 0 <= i < |args| && !IsInteger(args[i]) then Err(TypeError)
    else if |args| == 1 then Ok(Tuple(IntsToValues(RangeSeq(0, IntOf(args[0]), 1))))
    else if |args| == 2 then Ok(Tuple(IntsToValues(RangeSeq(IntOf(args[0]), IntOf(args[1]), 1))))
    else if IntOf(args[2]) == 0 then Err(ValueError)
    else Ok(Tuple(IntsToValues(RangeSeq(IntOf(args[0]), IntOf(args[1]), IntOf(args[2])))))
  }

  /** The elements a Python `for` loop visits in a value. */
  function Iterate(v: Value): (r: Result<seq<Value>, Error>)
    ensures v.Tuple? ==> r == Ok(v.items)
    ensures v.Str? ==> r.Ok? && |r.value| == |v.s| && forall i :: 0 <= i < |v.s| ==> r.value[i] == Str([v.s[i]])
    ensures !(v.Tuple? || v.Str? || v.EmptyList?) ==> r == Err(TypeError)
  {
    match v
    case Tuple(items) => Ok(items)
    case Str(s) => Ok(seq(|s|, i requires 0 <= i < |s| => Str([s[i]])))
    case EmptyList => Ok([])
    case _ => Err(TypeError)
  }

  // ---------------------------------------------------------------------
  // References from values into the store
  // ---------------------------------------------------------------------

  /**
   * Every function inside `v` has an identity below `lambdas` and captured a
   * local table numbered below `tables`.
   */
  ghost predicate Within(v: Value, tables: nat, lambdas: nat) {
    match v
    case Closure(id, _, _, env) => id < lambdas && env < tables
    case Tuple(items) => forall i :: 0 <= i < |items| ==> Within(items[i], tables, lambdas)
    case _ => true
  }

  ghost predicate AllWithin(vs: seq<Value>, tables: nat, lambdas: nat) {
    forall i :: 0 <= i < |vs| ==> Within(vs[i], tables, lambdas)
  }

  lemma {:induction false} WithinGrows(v: Value, tables: nat, lambdas: nat, tables2: nat, lambdas2: nat)
    requires Within(v, tables, lambdas) && tables <= tables2 && lambdas <= lambdas2
    ensures Within(v, tables2, lambdas2)
    decreases v
  {
    if v.Tuple? {
      forall i | 0 <= i < |v.items|
        ensures Within(v.items[i], tables2, lambdas2)
      {
        WithinGrows(v.items[i], tables, lambdas, tables2, lambdas2);
      }
    }
  }

  lemma AllWithinGrows(vs: seq<Value>, tables: nat, lambdas: nat, tables2: nat, lambdas2: nat)
    requires AllWithin(vs, tables, lambdas) && tables <= tables2 && lambdas <= lambdas2
    ensures AllWithin(vs, tables2, lambdas2)
  {
    forall i | 0 <= i < |vs|
      ensures Within(vs[i], tables2, lambdas2)
    {
      WithinGrows(vs[i], tables, lambdas, tables2, lambdas2);
    }
  }

  lemma AllWithinCons(v: Value, vs: seq<Value>, tables: nat, lambdas: nat)
    requires Within(v, tables, lambdas) && AllWithin(vs, tables, lambdas)
    ensures AllWithin([v] + vs, tables, lambdas)
  {
    forall i | 0 <= i < |[v] + vs|
      ensures Within(([v] + vs)[i], tables, lambdas)
    {
      if i > 0 {
        assert ([v] + vs)[i] == vs[i - 1];
      }
    }
  }

  /** Operators build their results from their operands and from fresh integers. */
  lemma BinaryOpWithin(op: BinOp, a: Value, b: Value, tables: nat, lambdas: nat)
    requires Within(a, tables, lambdas) && Within(b, tables, lambdas)
    ensures BinaryOp(op, a, b).Ok? ==> Within(BinaryOp(op, a, b).value, tables, lambdas)
  {
    if BinaryOp(op, a, b).Ok? && a.Tuple? && b.Tuple? && op == Arith(Add) {
      var r := a.items + b.items;
      forall i | 0 <= i < |r|
        ensures Within(r[i], tables, lambdas)
      {
        if i < |a.items| {
          assert r[i] == a.items[i];
        } else {
          assert r[i] == b.items[i - |a.items|];
        }
      }
    }
  }

  lemma IterateWithin(v: Value, tables: nat, lambdas: nat)
    requires Within(v, tables, lambdas)
    ensures Iterate(v).Ok? ==> AllWithin(Iterate(v).value, tables, lambdas)
  {
  }
}
