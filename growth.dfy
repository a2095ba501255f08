/** Evaluation only adds symbols: every entry of the table survives with the
    same identity, and a table in which distinct names have distinct
    identities stays that way (make_symbol's dictionary, pyscm.py:246-253,
    is never cleared or overwritten). */
module TableGrowth {
  import opened Base
  import opened Syntax
  import opened Interner
  import opened Values
  import opened Primitives
  import opened Evaluator

  ghost predicate Kept(t1: Table, t2: Table)
  {
    Extends(t1, t2) && (t1.Valid() ==> t2.Valid())
  }

  lemma KeptTransitive(t1: Table, t2: Table, t3: Table)
    requires Kept(t1, t2) && Kept(t2, t3)
    ensures Kept(t1, t3)
  {
    ExtendsTransitive(t1, t2, t3);
  }

  lemma {:induction false} EvalKeeps(fuel: nat, e: Sexp, env: nat, st: State)
    requires Wf(st) && env < |st.frames|
    ensures Kept(st.symbols, Eval(fuel, e, env, st).1.symbols)
    decreases fuel, 0, 0
  {
    if fuel > 0 {
      var r := Step(fuel - 1, e, env, st);
      StepKeeps(fuel - 1, e, env, st);
      if r.0.Continue? {
        EvalKeeps(fuel - 1, r.0.exp, r.0.env, r.1);
        KeptTransitive(st.symbols, r.1.symbols, Eval(fuel - 1, r.0.exp, r.0.env, r.1).1.symbols);
      }
    }
  }

  lemma {:induction false} StepKeeps(fuel: nat, e: Sexp, env: nat, st: State)
    requires Wf(st) && env < |st.frames|
    ensures Kept(st.symbols, Step(fuel, e, env, st).1.symbols)
    decreases fuel, 3, 0
  {
    match e
    case Atom(_) =>
    case SList(items) =>
      if IsTagged(e, "quote") || IsTagged(e, "lambda") {
      } else if IsTagged(e, "define") {
        DefineKeeps(fuel, items, env, st);
      } else if IsTagged(e, "set!") {
        SetKeeps(fuel, items, env, st);
      } else if IsTagged(e, "begin") {
        var middle := if |items| >= 2 then items[1..|items| - 1] else [];
        SeqKeeps(fuel, middle, env, st, Unit);
      } else if IsTagged(e, "if") {
        IfKeeps(fuel, items, env, st);
      } else if IsTagged(e, "cond") {
        CondKeeps(fuel, items[1..], env, st);
      } else if IsTagged(e, "let") {
      } else if items != [] {
        ApplyKeeps(fuel, e, env, st);
      }
  }

  lemma {:induction false} IfKeeps(fuel: nat, items: seq<Sexp>, env: nat, st: State)
    requires Wf(st) && env < |st.frames|
    ensures Kept(st.symbols, StepIf(fuel, items, env, st).1.symbols)
    decreases fuel, 2, 0
  {
    if |items| >= 2 {
      var c := Eval(fuel, items[1], env, st);
      EvalKeeps(fuel, items[1], env, st);
      if |items| == 3 || |items| == 4 {
        KeptTransitive(st.symbols, c.1.symbols, MakeBoolean(c.1.symbols, true).1);
      }
    }
  }

  lemma {:induction false} ApplyKeeps(fuel: nat, e: Sexp, env: nat, st: State)
    requires Wf(st) && env < |st.frames| && e.SList? && e.items != []
    ensures Kept(st.symbols, StepApply(fuel, e, env, st).1.symbols)
    decreases fuel, 2, 0
  {
    OperandsKeeps(fuel, e.items, env, st, []);
    var vs := EvalOperands(fuel, e.items, env, st, []);
    if vs.0.Ok? && vs.0.value[0].Primitive? {
      var t := Apply(vs.0.value[0].op, vs.0.value[1..], vs.1.symbols).1;
      KeptTransitive(st.symbols, vs.1.symbols, t);
    }
  }

  lemma {:induction false} SeqKeeps(fuel: nat, es: seq<Sexp>, env: nat, st: State, last: Value)
    requires Wf(st) && env < |st.frames| && Refs(last) <= |st.frames|
    ensures Kept(st.symbols, EvalSeq(fuel, es, env, st, last).1.symbols)
    decreases fuel, 1, |es|
  {
    if es != [] {
      var v := Eval(fuel, es[0], env, st);
      EvalKeeps(fuel, es[0], env, st);
      if v.0.Ok? {
        SeqKeeps(fuel, es[1..], env, v.1, v.0.value);
        KeptTransitive(st.symbols, v.1.symbols, EvalSeq(fuel, es[1..], env, v.1, v.0.value).1.symbols);
      }
    }
  }

  lemma {:induction false} OperandsKeeps(fuel: nat, es: seq<Sexp>, env: nat, st: State, done: seq<Value>)
    requires Wf(st) && env < |st.frames|
    requires forall i :: 0 <= i < |done| ==> Refs(done[i]) <= |st.frames|
    ensures Kept(st.symbols, EvalOperands(fuel, es, env, st, done).1.symbols)
    decreases fuel, 1, |es|
  {
    if es != [] {
      var v := Eval(fuel, es[0], env, st);
      EvalKeeps(fuel, es[0], env, st);
      if v.0.Ok? {
        OperandsKeeps(fuel, es[1..], env, v.1, done + [v.0.value]);
        KeptTransitive(st.symbols, v.1.symbols, EvalOperands(fuel, es[1..], env, v.1, done + [v.0.value]).1.symbols);
      }
    }
  }

  lemma {:induction false} CondKeeps(fuel: nat, clauses: seq<Sexp>, env: nat, st: State)
    requires Wf(st) && env < |st.frames|
    ensures Kept(st.symbols, EvalCond(fuel, clauses, env, st).1.symbols)
    decreases fuel, 1, |clauses|
  {
    if clauses != [] {
      var test := Nth(clauses[0], 0);
      if test.Ok? && test.value != Atom("else") {
        var v := Eval(fuel, test.value, env, st);
        EvalKeeps(fuel, test.value, env, st);
        if v.0.Ok? {
          var t2 := MakeBoolean(v.1.symbols, true).1;
          KeptTransitive(st.symbols, v.1.symbols, t2);
          var st2 := State(v.1.frames, t2);
          CondKeeps(fuel, clauses[1..], env, st2);
          KeptTransitive(st.symbols, t2, EvalCond(fuel, clauses[1..], env, st2).1.symbols);
        }
      }
    }
  }

  lemma {:induction false} DefineKeeps(fuel: nat, items: seq<Sexp>, env: nat, st: State)
    requires Wf(st) && env < |st.frames|
    ensures Kept(st.symbols, EvalDefine(fuel, items, env, st).1.symbols)
    decreases fuel, 1, 0
  {
    if |items| >= 3 {
      EvalKeeps(fuel, items[2], env, st);
    }
  }

  lemma {:induction false} SetKeeps(fuel: nat, items: seq<Sexp>, env: nat, st: State)
    requires Wf(st) && env < |st.frames|
    ensures Kept(st.symbols, EvalSet(fuel, items, env, st).1.symbols)
    decreases fuel, 1, 0
  {
    if |items| >= 3 {
      EvalKeeps(fuel, items[2], env, st);
    }
  }
}
