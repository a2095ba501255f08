/** The meaning of `evaluate` (pyscm.py:328-389) and its helpers, as functions
    of an explicit state. `fuel` bounds the number of passes through the
    evaluation loop; running out of it stands for an evaluation that may not
    end. */
module Evaluator {
  import opened Base
  import opened Syntax
  import opened Interner
  import opened Values
  import opened Primitives
  import opened Environment

  /** Everything evaluation can change: the frames and the symbol table. */
  datatype State = State(frames: Store, symbols: Table)

  /** Every frame's parent is older and every captured frame exists. */
  predicate Wf(st: State)
  {
    StoreOk(st.frames)
  }

  /** Frames are never removed and no frame loses a name (the symbol table's
      growth is proved apart, in TableGrowth). */
  predicate Grows(a: State, b: State)
  {
    && |a.frames| <= |b.frames|
    && forall i :: 0 <= i < |a.frames| ==> a.frames[i].bindings.Keys <= b.frames[i].bindings.Keys
  }

  /** What one pass of the loop decides: return a result, or go round again
      with a new `exp` and `env`. */
  datatype Next = Return(result: Result<Value>) | Continue(exp: Sexp, env: nat)

  // ---------------------------------------------------------------------
  // Literals and quotation.

  /** eval_primitive (pyscm.py:264-269). */
  function PrimitiveValue(s: string): (r: Result<Value>)
    requires s != [] && IsPrimitive(s)
    ensures r.Ok? ==> r.value.Num? || r.value.Str?
    ensures IsNumber(s) ==> r == (if NumeralValue(s).Ok? then Ok(Num(NumeralValue(s).value)) else Err(NumeralValue(s).error))
    ensures !IsNumber(s) ==> IsString(s) && r == Ok(Str(StripQuotes(s)))
  {
    if IsNumber(s) then
      match NumeralValue(s)
      case Ok(n) => Ok(Num(n))
      case Err(e) => Err(e)
    else Ok(Str(StripQuotes(s)))
  }

  /** pylist_to_pairs (pyscm.py:43-54) on one form. The empty token is never
      produced by the reader; Python would fail on it in is_string. */
  function Quote(e: Sexp, t: Table): (r: (Result<Value>, Table))
    ensures Extends(t, r.1) && (t.Valid() ==> r.1.Valid())
    ensures r.0.Ok? ==> Refs(r.0.value) == 0 && IsDatum(r.0.value)
    ensures r.0.Ok? && e.SList? ==> IsProperList(r.0.value)
    ensures e.Atom? && e.name == [] ==> r == (Err(Fault), t)
    ensures e.Atom? && e.name != [] && IsPrimitive(e.name) ==> r == (PrimitiveValue(e.name), t)
    ensures e.Atom? && e.name != [] && !IsPrimitive(e.name) ==>
      && e.name in r.1.symbols
      && r.0 == Ok(Sym(r.1.symbols[e.name]))
      && r.1 == Intern(t, e.name).1
    decreases Size(e), 1
  {
    match e
    case Atom(s) =>
      if s == [] then (Err(Fault), t)
      else if IsPrimitive(s) then (PrimitiveValue(s), t)
      else var interned := Intern(t, s); (Ok(Sym(interned.0)), interned.1)
    case SList(xs) => QuoteList(xs, t)
  }

  /** pylist_to_pairs on the list `xs`: the head first, then the rest. */
  function QuoteList(xs: seq<Sexp>, t: Table): (r: (Result<Value>, Table))
    ensures Extends(t, r.1) && (t.Valid() ==> r.1.Valid())
    ensures r.0.Ok? ==> Refs(r.0.value) == 0 && IsDatum(r.0.value) && IsProperList(r.0.value)
    ensures r.0.Ok? ==> |ListItems(r.0.value)| == |xs|
    decreases SizeAll(xs), 2
  {
    if xs == [] then (Ok(Nil), t)
    else
      SizeAllAt(xs, 0);
      var first := Quote(xs[0], t); var h, t1 := first.0, first.1;
      if h.Err? then (h, t1)
      else
        var rest := QuoteList(xs[1..], t1); var tl, t2 := rest.0, rest.1;
        if tl.Err? then (tl, t2)
        else (Ok(Pair(h.value, tl.value)), t2)
  }

  // ---------------------------------------------------------------------
  // let (pyscm.py:318-326).

  function MinLength(rows: seq<seq<Sexp>>): (n: nat)
    requires rows != []
    ensures forall i :: 0 <= i < |rows| ==> n <= |rows[i]|
    ensures exists i :: 0 <= i < |rows| && n == |rows[i]|
  {
    if |rows| == 1 then |rows[0]|
    else
      var m := MinLength(rows[1..]);
      assert forall i :: 1 <= i < |rows| ==> rows[1..][i - 1] == rows[i];
      if |rows[0]| < m then |rows[0]| else m
  }

  /** The `j`th tuple zip(*rows) produces. */
  function Column(rows: seq<seq<Sexp>>, j: nat): (c: seq<Sexp>)
    requires forall i :: 0 <= i < |rows| ==> j < |rows[i]|
    ensures |c| == |rows| && forall i :: 0 <= i < |rows| ==> c[i] == rows[i][j]
  {
    seq(|rows|, i requires 0 <= i < |rows| => rows[i][j])
  }

  /** let_to_lambda: the first column of the bindings becomes the parameter
      list and the second column the operands; fewer than two columns (no
      bindings at all, or a binding of one element) is an IndexError. */
  function LetToLambda(items: seq<Sexp>): (r: Result<Sexp>)
    ensures r.Ok? <==> WellFormedLet(items)
  {
    if |items| < 2 then Err(Fault)
    else
      var rows := Rows(Elems(items[1]));
      if rows == [] then Err(Fault)
      else if MinLength(rows) < 2 then
        assert !WellFormedLet(items) by {
          var i :| 0 <= i < |rows| && MinLength(rows) == |rows[i]|;
        }
        Err(Fault)
      else
        Ok(SList([SList([Atom("lambda"), SList(Column(rows, 0))] + items[2..])] + Column(rows, 1)))
  }

  /** A let form whose bindings each have a name and a value: a list of at
      least one binding, every binding of two elements or more. */
  predicate WellFormedLet(items: seq<Sexp>)
  {
    && |items| >= 2 && Elems(items[1]) != []
    && forall i :: 0 <= i < |Elems(items[1])| ==> |Elems(Elems(items[1])[i])| >= 2
  }

  /** The elements of each binding. */
  function Rows(bindings: seq<Sexp>): (rows: seq<seq<Sexp>>)
    ensures |rows| == |bindings| && forall i :: 0 <= i < |bindings| ==> rows[i] == Elems(bindings[i])
  {
    seq(|bindings|, i requires 0 <= i < |bindings| => Elems(bindings[i]))
  }

  // ---------------------------------------------------------------------
  // Truth.

  /** `condition is make_boolean(True)`: only the #t symbol itself is true. */
  predicate IsTrue(v: Value, tr: Symbol)
  {
    v.Sym? && v.sym.id == tr.id
  }

  // ---------------------------------------------------------------------
  // The evaluation loop.

  /** evaluate(e, env): at most `fuel` passes through the loop. */
  function Eval(fuel: nat, e: Sexp, env: nat, st: State): (r: (Result<Value>, State))
    requires Wf(st) && env < |st.frames|
    ensures Wf(r.1) && Grows(st, r.1)
    ensures r.0.Ok? ==> Refs(r.0.value) <= |r.1.frames|
    decreases fuel, 0, 0
  {
    if fuel == 0 then (Err(OutOfFuel), st)
    else Resume(fuel - 1, Step(fuel - 1, e, env, st))
  }

  /** What a pass leaves behind is sound: the value it returns and the
      frame it continues in exist in its state. */
  predicate Sound(n: (Next, State))
  {
    && Wf(n.1)
    && (n.0.Return? && n.0.result.Ok? ==> Refs(n.0.result.value) <= |n.1.frames|)
    && (n.0.Continue? ==> n.0.env < |n.1.frames|)
  }

  /** After a pass: its value, or the rest of the loop with `fuel` passes. */
  function Resume(fuel: nat, n: (Next, State)): (r: (Result<Value>, State))
    requires Sound(n)
    ensures Wf(r.1) && Grows(n.1, r.1)
    ensures r.0.Ok? ==> Refs(r.0.value) <= |r.1.frames|
    decreases fuel, 1, 0
  {
    match n.0
    case Return(result) => (result, n.1)
    case Continue(e, env) => Eval(fuel, e, env, n.1)
  }

  /** One pass of the loop: the dispatch of pyscm.py:332-389, in its order.
      Nested evaluations get `fuel` passes each. */
  function Step(fuel: nat, e: Sexp, env: nat, st: State): (r: (Next, State))
    requires Wf(st) && env < |st.frames|
    ensures Wf(r.1) && Grows(st, r.1)
    ensures r.0.Return? && r.0.result.Ok? ==> Refs(r.0.result.value) <= |r.1.frames|
    ensures r.0.Continue? ==> r.0.env < |r.1.frames|
    decreases fuel, 3, 0
  {
    match e
    case Atom(s) =>
      if s == [] then (Return(Err(Fault)), st)
      else if IsPrimitive(s) then (Return(PrimitiveValue(s)), st)
      else (Return(Lookup(st.frames, env, s)), st)
    case SList(items) =>
      if IsTagged(e, "quote") then
        if |items| < 2 then (Return(Err(Fault)), st)
        else var out := Quote(items[1], st.symbols); var v, t1 := out.0, out.1; (Return(v), State(st.frames, t1))
      else if IsTagged(e, "lambda") then
        if |items| < 2 then (Return(Err(Fault)), st)
        else (Return(Ok(Closure(items[1], items[2..], env))), st)
      else if IsTagged(e, "define") then
        var out := EvalDefine(fuel, items, env, st); var v, st1 := out.0, out.1; (Return(v), st1)
      else if IsTagged(e, "set!") then
        var out := EvalSet(fuel, items, env, st); var v, st1 := out.0, out.1; (Return(v), st1)
      else if IsTagged(e, "begin") then
        var middle := if |items| >= 2 then items[1..|items| - 1] else [];
        var out := EvalSeq(fuel, middle, env, st, Unit); var v, st1 := out.0, out.1;
        if v.Err? then (Return(v), st1) else (Continue(items[|items| - 1], env), st1)
      else if IsTagged(e, "if") then
        StepIf(fuel, items, env, st)
      else if IsTagged(e, "cond") then
        EvalCond(fuel, items[1..], env, st)
      else if IsTagged(e, "let") then
        match LetToLambda(items)
        case Ok(f) => (Continue(f, env), st)
        case Err(err) => (Return(Err(err)), st)
      else if items != [] then
        StepApply(fuel, e, env, st)
      else (Return(Ok(Unit)), st)
  }

  /** The `if` branch (pyscm.py:347-359). With any length other than 3 or 4
      the loop goes round again on the same expression. */
  function StepIf(fuel: nat, items: seq<Sexp>, env: nat, st: State): (r: (Next, State))
    requires Wf(st) && env < |st.frames|
    ensures Wf(r.1) && Grows(st, r.1)
    ensures r.0.Return? && r.0.result.Ok? ==> Refs(r.0.result.value) <= |r.1.frames|
    ensures r.0.Continue? ==> r.0.env < |r.1.frames|
    decreases fuel, 2, 0
  {
    if |items| < 2 then (Return(Err(Fault)), st)
    else
      var out := Eval(fuel, items[1], env, st); var c, st1 := out.0, out.1;
      if c.Err? then (Return(c), st1)
      else if |items| != 3 && |items| != 4 then (Continue(SList(items), env), st1)
      else
        var truth := MakeBoolean(st1.symbols, true); var tr, t2 := truth.0, truth.1;
        var st2 := State(st1.frames, t2);
        if |items| == 4 then (Continue(if IsTrue(c.value, tr) then items[2] else items[3], env), st2)
        else (if IsTrue(c.value, tr) then Continue(items[2], env) else Return(Ok(Unit)), st2)
  }

  /** The application branch (pyscm.py:376-387): every element evaluated in
      order; a primitive is applied, a closure continues with its body in a
      fresh frame, and anything else makes the loop go round again. */
  function StepApply(fuel: nat, e: Sexp, env: nat, st: State): (r: (Next, State))
    requires Wf(st) && env < |st.frames| && e.SList? && e.items != []
    ensures Wf(r.1) && Grows(st, r.1)
    ensures r.0.Return? && r.0.result.Ok? ==> Refs(r.0.result.value) <= |r.1.frames|
    ensures r.0.Continue? ==> r.0.env < |r.1.frames|
    decreases fuel, 2, 0
  {
    var out := EvalOperands(fuel, e.items, env, st, []); var vs, st1 := out.0, out.1;
    match vs
    case Err(err) => (Return(Err(err)), st1)
    case Ok(vals) =>
      var proc, args := vals[0], vals[1..];
      MaxRefsBelow(args, |st1.frames|);
      match proc
      case Primitive(op) =>
        var applied := Apply(op, args, st1.symbols); var v, t := applied.0, applied.1;
        (Return(v), State(st1.frames, t))
      case Closure(params, body, penv) =>
        (match Bind(Elems(params), args)
         case Err(err) => (Return(Err(err)), st1)
         case Ok(m) =>
           (Continue(SList([Atom("begin")] + body), |st1.frames|),
            State(Push(st1.frames, m, penv), st1.symbols)))
      case _ => (Continue(e, env), st1)
  }

  /** eval_sequence (pyscm.py:309-314): the value of the last form, None if there is none. */
  function EvalSeq(fuel: nat, es: seq<Sexp>, env: nat, st: State, last: Value): (r: (Result<Value>, State))
    requires Wf(st) && env < |st.frames| && Refs(last) <= |st.frames|
    ensures Wf(r.1) && Grows(st, r.1)
    ensures r.0.Ok? ==> Refs(r.0.value) <= |r.1.frames|
    decreases fuel, 1, |es|
  {
    if es == [] then (Ok(last), st)
    else
      var out := Eval(fuel, es[0], env, st); var v, st1 := out.0, out.1;
      if v.Err? then (v, st1) else EvalSeq(fuel, es[1..], env, st1, v.value)
  }

  /** `[evaluate(arg, env) for arg in exp]`, appending to `done`. */
  function EvalOperands(fuel: nat, es: seq<Sexp>, env: nat, st: State, done: seq<Value>): (r: (Result<seq<Value>>, State))
    requires Wf(st) && env < |st.frames|
    requires forall i :: 0 <= i < |done| ==> Refs(done[i]) <= |st.frames|
    ensures Wf(r.1) && Grows(st, r.1)
    ensures r.0.Ok? ==> |r.0.value| == |done| + |es| && r.0.value[..|done|] == done
    ensures r.0.Ok? ==> forall i :: 0 <= i < |r.0.value| ==> Refs(r.0.value[i]) <= |r.1.frames|
    decreases fuel, 1, |es|
  {
    if es == [] then (Ok(done), st)
    else
      var out := Eval(fuel, es[0], env, st); var v, st1 := out.0, out.1;
      match v
      case Err(err) => (Err(err), st1)
      case Ok(x) =>
        var r := EvalOperands(fuel, es[1..], env, st1, done + [x]);
        assert r.0.Ok? ==> r.0.value[..|done|] == (done + [x])[..|done|];
        r
  }

  /** The `cond` branch (pyscm.py:360-372) over the remaining clauses. */
  function EvalCond(fuel: nat, clauses: seq<Sexp>, env: nat, st: State): (r: (Next, State))
    requires Wf(st) && env < |st.frames|
    ensures Wf(r.1) && Grows(st, r.1)
    ensures r.0.Return? && r.0.result.Ok? ==> Refs(r.0.result.value) <= |r.1.frames|
    ensures r.0.Continue? ==> r.0.env < |r.1.frames|
    decreases fuel, 1, |clauses|
  {
    if clauses == [] then (Return(Ok(Unit)), st)
    else
      var c := clauses[0];
      var test := Nth(c, 0);
      if test.Err? then (Return(Err(test.error)), st)
      else if test.value == Atom("else") then (Chosen(c, env), st)
      else
        var v := Eval(fuel, test.value, env, st);
        if v.0.Err? then (Return(v.0), v.1)
        else
          var tr := MakeBoolean(v.1.symbols, true);
          var st2 := State(v.1.frames, tr.1);
          if IsTrue(v.0.value, tr.0) then (Chosen(c, env), st2)
          else EvalCond(fuel, clauses[1..], env, st2)
  }

  /** `exp = c[1]` for the chosen clause. */
  function Chosen(c: Sexp, env: nat): (r: Next)
    ensures r.Continue? <==> |Elems(c)| >= 2
    ensures r.Continue? ==> r == Continue(Elems(c)[1], env)
    ensures !r.Continue? ==> r == Return(Err(Fault))
  {
    match Nth(c, 1)
    case Ok(x) => Continue(x, env)
    case Err(err) => Return(Err(err))
  }

  /** eval_definition (pyscm.py:280-287): `(define name exp)` stores the value
      of `exp`; any other target `t` stores a closure under `t[0]` with
      parameters `t[1:]`. Both write only the current frame. */
  function EvalDefine(fuel: nat, items: seq<Sexp>, env: nat, st: State): (r: (Result<Value>, State))
    requires Wf(st) && env < |st.frames|
    ensures Wf(r.1) && Grows(st, r.1)
    ensures r.0.Ok? ==> r.0.value == Unit
    decreases fuel, 1, 0
  {
    if |items| < 2 then (Err(Fault), st)
    else
      var target := items[1];
      if target.Atom? && target.name == [] then (Err(Fault), st)
      else if target.Atom? && IsVariable(target.name) then
        if |items| < 3 then (Err(Fault), st)
        else
          var out := Eval(fuel, items[2], env, st); var v, st1 := out.0, out.1;
          if v.Err? then (v, st1)
          else (Ok(Unit), State(Write(st1.frames, env, target.name, v.value), st1.symbols))
      else
        var f := Closure(DropFirst(target, 1), items[2..], env);
        match Nth(target, 0)
        case Ok(Atom(name)) => (Ok(Unit), State(Write(st.frames, env, name, f), st.symbols))
        case _ => (Err(Fault), st)
  }

  /** eval_set (pyscm.py:289-294): finds the nearest frame binding the name
      (a KeyError on '**parent**' when there is none), then evaluates the value
      in the calling environment and overwrites that frame's binding. */
  function EvalSet(fuel: nat, items: seq<Sexp>, env: nat, st: State): (r: (Result<Value>, State))
    requires Wf(st) && env < |st.frames|
    ensures Wf(r.1) && Grows(st, r.1)
    ensures r.0.Ok? ==> r.0.value == Unit
    decreases fuel, 1, 0
  {
    if |items| < 2 || items[1].SList? then (Err(Fault), st)
    else
      var name := items[1].name;
      match Nearest(st.frames, env, name)
      case None => (Err(Fault), st)
      case Some(k) =>
        if |items| < 3 then (Err(Fault), st)
        else
          var out := Eval(fuel, items[2], env, st); var v, st1 := out.0, out.1;
          if v.Err? then (v, st1)
          else (Ok(Unit), State(Write(st1.frames, k, name, v.value), st1.symbols))
  }
}
