/** The primitive library (pyscm.py:138-194): arithmetic folds, comparisons,
    equality and pairs. Results that Python would produce by float arithmetic,
    sequence repetition or object identity of numbers are outside the model. */
module Primitives {
  import opened Base
  import opened Interner
  import opened Values

  // ---------------------------------------------------------------------
  // Reference definitions the folds are proved against.

  predicate AllNums(vs: seq<Value>)
  {
    forall i :: 0 <= i < |vs| ==> vs[i].Num?
  }

  function Sum(vs: seq<Value>): int
    requires AllNums(vs)
  {
    if vs == [] then 0 else vs[0].n + Sum(vs[1..])
  }

  function Product(vs: seq<Value>): int
    requires AllNums(vs)
  {
    if vs == [] then 1 else vs[0].n * Product(vs[1..])
  }

  /** Python 2 integer division: rounds toward minus infinity. */
  function FloorDiv(a: int, b: int): (q: int)
    requires b != 0
    ensures b > 0 ==> b * q <= a < b * q + b
    ensures b < 0 ==> b * q >= a > b * q + b
  {
    if b > 0 then a / b else (-a) / (-b)
  }

  // ---------------------------------------------------------------------
  // The folds, step by step as reduce() performs them.

  /** The rest of reduce(lambda x,y: x+y, args, 0) from accumulator `acc`. */
  function AddFrom(acc: int, args: seq<Value>): (r: Result<Value>)
    ensures r.Ok? ==> r.value.Num?
    decreases |args|
  {
    if args == [] then Ok(Num(acc))
    else if args[0].Num? then AddFrom(acc + args[0].n, args[1..])
    else Err(Fault)
  }

  /** add (pyscm.py:142-144). */
  function Add(args: seq<Value>): Result<Value>
  {
    AddFrom(0, args)
  }

  lemma {:induction false} AddFromSum(acc: int, args: seq<Value>)
    ensures AddFrom(acc, args) == if AllNums(args) then Ok(Num(acc + Sum(args))) else Err(Fault)
    decreases |args|
  {
    if args != [] {
      AddFromSum(acc + (if args[0].Num? then args[0].n else 0), args[1..]);
      if args[0].Num? && AllNums(args[1..]) {
        assert AllNums(args);
      }
    }
  }

  /** `+` adds numbers, starting from 0; any other operand is a TypeError. */
  lemma AddIsSum(args: seq<Value>)
    ensures Add(args) == if AllNums(args) then Ok(Num(Sum(args))) else Err(Fault)
  {
    AddFromSum(0, args);
  }

  /** Operands that Python's `*` would repeat rather than multiply. */
  predicate IsSequence(v: Value) { v.Str? || v.Nil? || v.Pair? }

  function MulFrom(acc: int, args: seq<Value>): (r: Result<Value>)
    ensures r.Ok? ==> r.value.Num?
    decreases |args|
  {
    if args == [] then Ok(Num(acc))
    else if args[0].Num? then MulFrom(acc * args[0].n, args[1..])
    else if IsSequence(args[0]) then Err(Unmodelled)
    else Err(Fault)
  }

  /** mul (pyscm.py:150-152). */
  function Mul(args: seq<Value>): Result<Value>
  {
    MulFrom(1, args)
  }

  lemma {:induction false} MulFromProduct(acc: int, args: seq<Value>)
    requires AllNums(args)
    ensures MulFrom(acc, args) == Ok(Num(acc * Product(args)))
    decreases |args|
  {
    if args != [] {
      MulFromProduct(acc * args[0].n, args[1..]);
      assert acc * args[0].n * Product(args[1..]) == acc * (args[0].n * Product(args[1..]));
    }
  }

  /** `*` multiplies numbers, starting from 1. */
  lemma MulIsProduct(args: seq<Value>)
    requires AllNums(args)
    ensures Mul(args) == Ok(Num(Product(args)))
  {
    MulFromProduct(1, args);
  }

  /** The rest of reduce(lambda x,y: x-y, args) once `acc` holds the first argument. */
  function SubFrom(acc: Value, rest: seq<Value>): (r: Result<Value>)
    ensures r.Ok? ==> r.value == acc || r.value.Num?
    decreases |rest|
  {
    if rest == [] then Ok(acc)
    else if acc.Num? && rest[0].Num? then SubFrom(Num(acc.n - rest[0].n), rest[1..])
    else Err(Fault)
  }

  /** sub (pyscm.py:146-148): reduce without a seed fails on no arguments. */
  function Sub(args: seq<Value>): Result<Value>
  {
    if args == [] then Err(Fault) else SubFrom(args[0], args[1..])
  }

  lemma {:induction false} SubFromSum(a: int, rest: seq<Value>)
    requires AllNums(rest)
    ensures SubFrom(Num(a), rest) == Ok(Num(a - Sum(rest)))
    decreases |rest|
  {
    if rest != [] {
      SubFromSum(a - rest[0].n, rest[1..]);
    }
  }

  /** `-` subtracts every later number from the first; one argument comes back
      unchanged, whatever it is; none is an error. */
  lemma SubIsDifference(args: seq<Value>)
    ensures args == [] ==> Sub(args) == Err(Fault)
    ensures |args| == 1 ==> Sub(args) == Ok(args[0])
    ensures |args| >= 1 && AllNums(args) ==> Sub(args) == Ok(Num(args[0].n - Sum(args[1..])))
  {
    if |args| >= 1 && AllNums(args) {
      SubFromSum(args[0].n, args[1..]);
    }
  }

  function DivFrom(acc: Value, rest: seq<Value>): (r: Result<Value>)
    ensures r.Ok? ==> r.value == acc || r.value.Num?
    decreases |rest|
  {
    if rest == [] then Ok(acc)
    else if acc.Num? && rest[0].Num? then
      if rest[0].n == 0 then Err(Fault) else DivFrom(Num(FloorDiv(acc.n, rest[0].n)), rest[1..])
    else Err(Fault)
  }

  /** div (pyscm.py:154-156), with Python 2's flooring integer division. */
  function Div(args: seq<Value>): Result<Value>
  {
    if args == [] then Err(Fault) else DivFrom(args[0], args[1..])
  }

  // ---------------------------------------------------------------------
  // Comparisons and equality.

  /** Python's `<` where the model decides it: numbers, and strings lexicographically. */
  function Less(a: Value, b: Value): Result<bool>
  {
    if a.Num? && b.Num? then Ok(a.n < b.n)
    else if a.Str? && b.Str? then Ok(StrLess(a.s, b.s))
    else Err(Unmodelled)
  }

  predicate StrLess(a: string, b: string)
  {
    if a == [] then b != []
    else if b == [] then false
    else if a[0] != b[0] then a[0] < b[0]
    else StrLess(a[1..], b[1..])
  }

  datatype Relation = LessThan | GreaterThan | AtMost | AtLeast

  function Holds(rel: Relation, a: Value, b: Value): Result<bool>
  {
    var r := match rel
      case LessThan => Less(a, b)
      case GreaterThan => Less(b, a)
      case AtMost => Less(b, a)
      case AtLeast => Less(a, b);
    match r
    case Err(e) => Err(e)
    case Ok(x) => Ok(if rel.AtMost? || rel.AtLeast? then !x else x)
  }

  /** lt, gt, le, ge (pyscm.py:158-172): only the first two arguments are read,
      and the answer is the interned #t or #f. */
  function Compare(rel: Relation, args: seq<Value>, t: Table): (r: (Result<Value>, Table))
    ensures Extends(t, r.1) && (t.Valid() ==> r.1.Valid())
    ensures |args| < 2 ==> r == (Err(Fault), t)
    ensures r.0.Ok? <==> |args| >= 2 && Holds(rel, args[0], args[1]).Ok?
    ensures r.0.Ok? ==>
      var name := if Holds(rel, args[0], args[1]).value then "#t" else "#f";
      name in r.1.symbols && r.0.value == Sym(r.1.symbols[name])
  {
    if |args| < 2 then (Err(Fault), t)
    else match Holds(rel, args[0], args[1])
      case Err(e) => (Err(e), t)
      case Ok(b) => var made := MakeBoolean(t, b); (Ok(Sym(made.0)), made.1)
  }

  /** Python's `==` (pyscm.py:174-176): structural on numbers, strings and
      lists, identity on symbols; closures and primitives compare by object
      identity, which the model does not decide. */
  function PyEquals(a: Value, b: Value): Result<bool>
  {
    match (a, b)
    case (Num(x), Num(y)) => Ok(x == y)
    case (Str(x), Str(y)) => Ok(x == y)
    case (Sym(x), Sym(y)) => Ok(x.id == y.id)
    case (Nil, Nil) => Ok(true)
    case (Unit, Unit) => Ok(true)
    case (Pair(h1, t1), Pair(h2, t2)) =>
      (match PyEquals(h1, h2)
       case Err(e) => Err(e)
       case Ok(false) => Ok(false)
       case Ok(true) => PyEquals(t1, t2))
    case (Closure(_, _, _), Closure(_, _, _)) => Err(Unmodelled)
    case (Primitive(_), Primitive(_)) => Err(Unmodelled)
    case _ => Ok(false)
  }

  /** eq? (pyscm.py:178-182): two empty lists are eq?; otherwise Python's `is`.
      Symbols are the same object exactly when they have the same identity,
      None is one object, and values of different kinds are different objects;
      whether two numbers, strings, pairs or procedures are one object is not
      decided by the model. */
  function IsSame(a: Value, b: Value): Result<bool>
  {
    if a.Nil? && b.Nil? then Ok(true)
    else if a.Sym? && b.Sym? then Ok(a.sym.id == b.sym.id)
    else if a.Unit? && b.Unit? then Ok(true)
    else if a.Nil? || b.Nil? || a.Sym? || b.Sym? || a.Unit? || b.Unit? then Ok(false)
    else if KindOf(a) != KindOf(b) then Ok(false)
    else Err(Unmodelled)
  }

  function KindOf(v: Value): nat
  {
    match v
    case Num(_) => 0
    case Str(_) => 1
    case Sym(_) => 2
    case Nil => 3
    case Pair(_, _) => 4
    case Unit => 5
    case Closure(_, _, _) => 6
    case Primitive(_) => 7
  }

  function Decide(r: Result<bool>, t: Table): (Result<Value>, Table)
  {
    match r
    case Err(e) => (Err(e), t)
    case Ok(b) => var (s, t1) := MakeBoolean(t, b); (Ok(Sym(s)), t1)
  }

  // ---------------------------------------------------------------------
  // Pairs.

  /** car (pyscm.py:192-194): `args[0][0]`. */
  function Car(args: seq<Value>): Result<Value>
  {
    if args == [] then Err(Fault)
    else match args[0]
      case Pair(h, _) => Ok(h)
      case Str(s) => if |s| >= 1 then Ok(Str([s[0]])) else Err(Fault)
      case _ => Err(Fault)
  }

  /** cdr (pyscm.py:188-190): `args[0][1]`. */
  function Cdr(args: seq<Value>): Result<Value>
  {
    if args == [] then Err(Fault)
    else match args[0]
      case Pair(_, t) => Ok(t)
      case Str(s) => if |s| >= 2 then Ok(Str([s[1]])) else Err(Fault)
      case _ => Err(Fault)
  }

  /** cons (pyscm.py:184-186). */
  function Cons(args: seq<Value>): Result<Value>
  {
    if |args| < 2 then Err(Fault) else Ok(Pair(args[0], args[1]))
  }

  /** PrimitiveFunction.apply (pyscm.py:231-233) for each library function.
      display's write to standard output is not modelled; it returns None. */
  function Apply(op: PrimOp, args: seq<Value>, t: Table): (r: (Result<Value>, Table))
    ensures r.0.Ok? ==> Refs(r.0.value) <= MaxRefs(args)
    ensures Extends(t, r.1) && (t.Valid() ==> r.1.Valid())
  {
    match op
    case Display => (if args == [] then Err(Fault) else Ok(Unit), t)
    case Cons => (Cons(args), t)
    case Car => (Car(args), t)
    case Cdr => (Cdr(args), t)
    case Add => (Add(args), t)
    case Sub => (Sub(args), t)
    case Mul => (Mul(args), t)
    case Div => (Div(args), t)
    case Gt => Compare(GreaterThan, args, t)
    case Lt => Compare(LessThan, args, t)
    case Le => Compare(AtMost, args, t)
    case NumEq => if |args| < 2 then (Err(Fault), t) else Decide(PyEquals(args[0], args[1]), t)
    case IsEq => if |args| < 2 then (Err(Fault), t) else Decide(IsSame(args[0], args[1]), t)
  }

  // ---------------------------------------------------------------------
  // Consequences of folding with and without a seed.

  /** `(+)` is 0 and `(*)` is 1: the seeds; `(-)` and `(/)` have none and fail. */
  lemma EmptyFolds()
    ensures Add([]) == Ok(Num(0)) && Mul([]) == Ok(Num(1))
    ensures Sub([]) == Err(Fault) && Div([]) == Err(Fault)
  {
  }

  /** `(- 5)` is 5 and `(/ 4 2 2)` is 1; `(/ 7 -2)` floors to -4. */
  lemma FoldExamples()
    ensures Sub([Num(5)]) == Ok(Num(5))
    ensures Div([Num(4), Num(2), Num(2)]) == Ok(Num(1))
    ensures Div([Num(7), Num(-2)]) == Ok(Num(-4))
    ensures Div([Num(1), Num(0)]) == Err(Fault)
  {
    assert FloorDiv(4, 2) == 2;
    assert FloorDiv(2, 2) == 1;
    assert FloorDiv(7, -2) == -4;
  }

  /** Dividing in turn by positive numbers is dividing once by their product. */
  lemma {:induction false} DivByProduct(a: int, rest: seq<Value>)
    requires AllNums(rest) && forall i :: 0 <= i < |rest| ==> rest[i].n > 0
    ensures Product(rest) > 0
    ensures DivFrom(Num(a), rest) == Ok(Num(FloorDiv(a, Product(rest))))
    decreases |rest|
  {
    if rest != [] {
      var b := rest[0].n;
      var q := FloorDiv(a, b);
      DivByProduct(q, rest[1..]);
      var p := Product(rest[1..]);
      NestedFloorDiv(a, b, p);
    }
  }

  lemma NestedFloorDiv(a: int, b: int, p: int)
    requires b > 0 && p > 0
    ensures FloorDiv(FloorDiv(a, b), p) == FloorDiv(a, b * p)
  {
    var q := FloorDiv(a, b);
    var q2 := FloorDiv(q, p);
    ScaleLe(b, p * q2, q);
    ScaleLe(b, q + 1, p * q2 + p);
    assert b * (q + 1) == b * q + b;
    assert b * (p * q2 + p) == (b * p) * q2 + b * p;
    assert b * (p * q2) == (b * p) * q2;
    FloorDivUnique(a, b * p, q2);
  }

  lemma ScaleLe(k: int, x: int, y: int)
    requires k > 0 && x <= y
    ensures k * x <= k * y
  {
  }

  /** The quotient is the only `q` with d*q <= a < d*q + d. */
  lemma FloorDivUnique(a: int, d: int, q: int)
    requires d > 0 && d * q <= a < d * q + d
    ensures FloorDiv(a, d) == q
  {
    var r := FloorDiv(a, d);
    if r < q {
      ScaleLe(d, r + 1, q);
    } else if r > q {
      ScaleLe(d, q + 1, r);
    }
  }

  /** The comparisons read the first two operands only. */
  lemma CompareFirstTwo(rel: Relation, args: seq<Value>, t: Table)
    requires |args| >= 2
    ensures Compare(rel, args, t) == Compare(rel, args[..2], t)
  {
  }

  /** On numbers the four comparisons are the usual ones, and each answers
      with the interned #t or #f. */
  lemma CompareNumbers(rel: Relation, a: int, b: int, t: Table)
    ensures var (r, t1) := Compare(rel, [Num(a), Num(b)], t);
      var expected := match rel
        case LessThan => a < b
        case GreaterThan => a > b
        case AtMost => a <= b
        case AtLeast => a >= b;
      r == Ok(Sym(MakeBoolean(t, expected).0)) && t1 == MakeBoolean(t, expected).1
  {
  }

  /** On strings, `<` is the lexicographic order: it is irreflexive and total. */
  lemma {:induction false} StrLessTotal(a: string, b: string)
    ensures !StrLess(a, a)
    ensures a != b ==> StrLess(a, b) != StrLess(b, a)
    decreases |a|
  {
    if a != [] {
      StrLessTotal(a[1..], a[1..]);
      if b != [] && a[0] == b[0] {
        StrLessTotal(a[1..], b[1..]);
        assert a[1..] != b[1..] || a == b by {
          if a[1..] == b[1..] { assert a == [a[0]] + a[1..] && b == [b[0]] + b[1..]; }
        }
      }
    }
  }

  /** `=` on numbers and strings is equality of the values; on symbols it is
      identity; a number never equals a non-number. */
  lemma PyEqualsScalars(a: Value, b: Value)
    ensures a.Num? && b.Num? ==> (PyEquals(a, b) == Ok(true) <==> a.n == b.n)
    ensures a.Str? && b.Str? ==> (PyEquals(a, b) == Ok(true) <==> a.s == b.s)
    ensures a.Sym? && b.Sym? ==> (PyEquals(a, b) == Ok(true) <==> a.sym.id == b.sym.id)
    ensures a.Num? && !b.Num? ==> PyEquals(a, b) == Ok(false)
  {
  }

  /** `=` is reflexive on values built from numbers, strings, symbols and lists. */
  lemma {:induction false} PyEqualsReflexive(v: Value)
    requires Plain(v)
    ensures PyEquals(v, v) == Ok(true)
  {
    if v.Pair? {
      PyEqualsReflexive(v.head);
      PyEqualsReflexive(v.tail);
    }
  }

  /** A value with no procedure inside. */
  predicate Plain(v: Value)
  {
    match v
    case Closure(_, _, _) => false
    case Primitive(_) => false
    case Pair(h, t) => Plain(h) && Plain(t)
    case _ => true
  }

  /** eq? on two empty lists, on symbols, and on values of different kinds. */
  lemma IsSameCases(a: Value, b: Value)
    ensures a.Nil? && b.Nil? ==> IsSame(a, b) == Ok(true)
    ensures a.Sym? && b.Sym? ==> (IsSame(a, b) == Ok(true) <==> a.sym.id == b.sym.id)
    ensures KindOf(a) != KindOf(b) ==> IsSame(a, b) == Ok(false)
  {
  }

  /** car and cdr take back apart what cons built. */
  lemma CarCdrCons(a: Value, b: Value, extra: seq<Value>)
    ensures Cons([a, b] + extra) == Ok(Pair(a, b))
    ensures Car([Pair(a, b)] + extra) == Ok(a)
    ensures Cdr([Pair(a, b)] + extra) == Ok(b)
  {
  }
}
