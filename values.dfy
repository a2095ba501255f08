/** Run-time values of the interpreter: what `evaluate` can return. */
module Values {
  import opened Syntax
  import opened Interner

  /** The Python functions bound in the base environment (pyscm.py:138-194). */
  datatype PrimOp = Display | Cons | Car | Cdr | Add | Sub | Mul | Div | Gt | Lt | Le | NumEq | IsEq

  datatype Value =
    | Num(n: int)
    | Str(s: string)
    | Sym(sym: Symbol)
    | Nil                                              // the empty Python list
    | Pair(head: Value, tail: Value)                   // a two-element Python list, from quote or cons
    | Unit                                             // Python's None
    | Closure(params: Sexp, body: seq<Sexp>, env: nat) // a Lambda object and the frame it captured
    | Primitive(op: PrimOp)                            // a PrimitiveFunction object

  /** One more than the largest frame a closure inside `v` captured (0 if none):
      `v` refers only to frames below Refs(v). */
  function Refs(v: Value): nat
  {
    match v
    case Closure(_, _, env) => env + 1
    case Pair(h, t) => var a := Refs(h); var b := Refs(t); if a < b then b else a
    case _ => 0
  }

  /** Data as quotation builds it: numbers, strings, symbols and lists of
      them, with no procedure and no None inside. */
  predicate IsDatum(v: Value)
  {
    match v
    case Num(_) => true
    case Str(_) => true
    case Sym(_) => true
    case Nil => true
    case Pair(h, t) => IsDatum(h) && IsDatum(t)
    case _ => false
  }

  function MaxRefs(vs: seq<Value>): (m: nat)
    ensures forall i :: 0 <= i < |vs| ==> Refs(vs[i]) <= m
  {
    if vs == [] then 0
    else var a := Refs(vs[0]); var b := MaxRefs(vs[1..]); if a < b then b else a
  }

  lemma MaxRefsBelow(vs: seq<Value>, n: nat)
    requires forall i :: 0 <= i < |vs| ==> Refs(vs[i]) <= n
    ensures MaxRefs(vs) <= n
  {
    if vs != [] {
      MaxRefsBelow(vs[1..], n);
    }
  }

  /** A chain of pairs ending in the empty list, and the values along it. */
  predicate IsProperList(v: Value)
  {
    v.Nil? || (v.Pair? && IsProperList(v.tail))
  }

  function ListItems(v: Value): seq<Value>
    requires IsProperList(v)
  {
    if v.Nil? then [] else [v.head] + ListItems(v.tail)
  }

  /** map_recursively (pyscm.py:56-65): applies `f` to every value that is not
      a Python list, keeping the list structure. */
  function MapRecursively(v: Value, f: Value -> Value): Value
  {
    match v
    case Nil => Nil
    case Pair(h, t) => Pair(MapRecursively(h, f), MapRecursively(t, f))
    case _ => f(v)
  }

  predicate IsLeaf(v: Value) { !v.Nil? && !v.Pair? }

  /** The non-list values inside `v`, left to right. */
  function Leaves(v: Value): seq<Value>
  {
    match v
    case Nil => []
    case Pair(h, t) => Leaves(h) + Leaves(t)
    case _ => [v]
  }

  /** Mapping the identity changes nothing. */
  lemma {:induction false} MapIdentity(v: Value)
    ensures MapRecursively(v, x => x) == v
  {
    match v
    case Pair(h, t) =>
      MapIdentity(h);
      MapIdentity(t);
    case _ =>
  }

  /** When `f` turns leaves into leaves, the leaves of the result are the
      images of the leaves, in order. */
  lemma {:induction false} MapLeaves(v: Value, f: Value -> Value)
    requires forall x :: IsLeaf(f(x))
    ensures |Leaves(MapRecursively(v, f))| == |Leaves(v)|
    ensures forall i :: 0 <= i < |Leaves(v)| ==> Leaves(MapRecursively(v, f))[i] == f(Leaves(v)[i])
  {
    match v
    case Pair(h, t) =>
      MapLeaves(h, f);
      MapLeaves(t, f);
      var lh, lt := Leaves(h), Leaves(t);
      var mh, mt := Leaves(MapRecursively(h, f)), Leaves(MapRecursively(t, f));
      forall i | 0 <= i < |Leaves(v)|
        ensures Leaves(MapRecursively(v, f))[i] == f(Leaves(v)[i])
      {
        if i < |lh| {
          assert (mh + mt)[i] == mh[i] && (lh + lt)[i] == lh[i];
        } else {
          assert (mh + mt)[i] == mt[i - |lh|] && (lh + lt)[i] == lt[i - |lh|];
        }
      }
    case Nil =>
    case _ =>
      assert IsLeaf(f(v));
  }

  /** When `f` turns leaves into leaves, mapping keeps a proper list a proper
      list and anything else not one. */
  lemma {:induction false} MapKeepsShape(v: Value, f: Value -> Value)
    requires forall x :: IsLeaf(f(x))
    ensures IsProperList(v) <==> IsProperList(MapRecursively(v, f))
  {
    match v
    case Pair(h, t) =>
      MapKeepsShape(t, f);
    case Nil =>
    case _ =>
      assert IsLeaf(f(v));
  }
}
