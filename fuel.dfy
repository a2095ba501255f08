/** Fuel only bounds the loop: an evaluation that finishes within some fuel
    gives the same result and the same state with any larger amount. So an
    answer other than OutOfFuel is the answer of the unbounded loop. */
module Fuel {
  import opened Base
  import opened Syntax
  import opened Interner
  import opened Values
  import Environment
  import opened Evaluator

  /** A result that is not the fuel running out. */
  predicate Completed<T>(r: Result<T>)
  {
    !(r.Err? && r.error.OutOfFuel?)
  }

  /** A pass that did not stop for lack of fuel. */
  predicate Finished(n: Next)
  {
    !(n.Return? && n.result.Err? && n.result.error.OutOfFuel?)
  }

  lemma {:induction false} EvalMonotone(fuel: nat, more: nat, e: Sexp, env: nat, st: State)
    requires Wf(st) && env < |st.frames| && fuel <= more
    requires Completed(Eval(fuel, e, env, st).0)
    ensures Eval(more, e, env, st) == Eval(fuel, e, env, st)
    decreases fuel, 0, 0
  {
    EvalUnfold(fuel, e, env, st);
    assert fuel > 0;
    var n := Step(fuel - 1, e, env, st);
    EvalUnfold(more, e, env, st);
    ResumeFinished(fuel - 1, n);
    StepMonotone(fuel - 1, more - 1, e, env, st);
    ResumeMonotone(fuel - 1, more - 1, n);
  }

  /** One pass of the loop costs one unit of fuel; without fuel the loop stops. */
  lemma EvalUnfold(fuel: nat, e: Sexp, env: nat, st: State)
    requires Wf(st) && env < |st.frames|
    ensures fuel == 0 ==> Eval(fuel, e, env, st).0 == Err(OutOfFuel)
    ensures fuel > 0 ==> Eval(fuel, e, env, st) == Resume(fuel - 1, Step(fuel - 1, e, env, st))
  {
  }

  /** A loop that completed did not start from a pass that ran out of fuel. */
  lemma ResumeFinished(fuel: nat, n: (Next, State))
    requires Sound(n) && Completed(Resume(fuel, n).0)
    ensures Finished(n.0)
  {
    if n.0.Return? {
      assert Resume(fuel, n).0 == n.0.result;
    }
  }

  /** The rest of the loop after a pass does not depend on the fuel either. */
  lemma {:induction false} ResumeMonotone(fuel: nat, more: nat, n: (Next, State))
    requires Sound(n) && fuel <= more
    requires Completed(Resume(fuel, n).0)
    ensures Resume(more, n) == Resume(fuel, n)
    decreases fuel, 1, 0
  {
    match n.0
    case Return(_) =>
    case Continue(e, env) =>
      EvalMonotone(fuel, more, e, env, n.1);
  }

  lemma {:induction false} StepMonotone(fuel: nat, more: nat, e: Sexp, env: nat, st: State)
    requires Wf(st) && env < |st.frames| && fuel <= more
    requires Finished(Step(fuel, e, env, st).0)
    ensures Step(more, e, env, st) == Step(fuel, e, env, st)
    decreases fuel, 3, 0
  {
    match e
    case Atom(_) =>
    case SList(items) =>
      if IsTagged(e, "quote") || IsTagged(e, "lambda") {
      } else if IsTagged(e, "define") {
        DefineMonotone(fuel, more, items, env, st);
      } else if IsTagged(e, "set!") {
        SetMonotone(fuel, more, items, env, st);
      } else if IsTagged(e, "begin") {
        var middle := if |items| >= 2 then items[1..|items| - 1] else [];
        SeqMonotone(fuel, more, middle, env, st, Unit);
      } else if IsTagged(e, "if") {
        IfMonotone(fuel, more, items, env, st);
      } else if IsTagged(e, "cond") {
        CondMonotone(fuel, more, items[1..], env, st);
      } else if IsTagged(e, "let") {
      } else if items != [] {
        ApplyMonotone(fuel, more, e, env, st);
      }
  }

  lemma {:induction false} IfMonotone(fuel: nat, more: nat, items: seq<Sexp>, env: nat, st: State)
    requires Wf(st) && env < |st.frames| && fuel <= more
    requires Finished(StepIf(fuel, items, env, st).0)
    ensures StepIf(more, items, env, st) == StepIf(fuel, items, env, st)
    decreases fuel, 2, 0
  {
    if |items| >= 2 {
      EvalMonotone(fuel, more, items[1], env, st);
    }
  }

  lemma {:induction false} ApplyMonotone(fuel: nat, more: nat, e: Sexp, env: nat, st: State)
    requires Wf(st) && env < |st.frames| && e.SList? && e.items != [] && fuel <= more
    requires Finished(StepApply(fuel, e, env, st).0)
    ensures StepApply(more, e, env, st) == StepApply(fuel, e, env, st)
    decreases fuel, 2, 0
  {
    OperandsMonotone(fuel, more, e.items, env, st, []);
  }

  lemma {:induction false} SeqMonotone(fuel: nat, more: nat, es: seq<Sexp>, env: nat, st: State, last: Value)
    requires Wf(st) && env < |st.frames| && Refs(last) <= |st.frames| && fuel <= more
    requires Completed(EvalSeq(fuel, es, env, st, last).0)
    ensures EvalSeq(more, es, env, st, last) == EvalSeq(fuel, es, env, st, last)
    decreases fuel, 1, |es|
  {
    if es != [] {
      EvalMonotone(fuel, more, es[0], env, st);
      var out := Eval(fuel, es[0], env, st); var v, st1 := out.0, out.1;
      if v.Ok? {
        SeqMonotone(fuel, more, es[1..], env, st1, v.value);
      }
    }
  }

  lemma {:induction false} OperandsMonotone(fuel: nat, more: nat, es: seq<Sexp>, env: nat, st: State, done: seq<Value>)
    requires Wf(st) && env < |st.frames| && fuel <= more
    requires forall i :: 0 <= i < |done| ==> Refs(done[i]) <= |st.frames|
    requires Completed(EvalOperands(fuel, es, env, st, done).0)
    ensures EvalOperands(more, es, env, st, done) == EvalOperands(fuel, es, env, st, done)
    decreases fuel, 1, |es|
  {
    if es != [] {
      EvalMonotone(fuel, more, es[0], env, st);
      var out := Eval(fuel, es[0], env, st); var v, st1 := out.0, out.1;
      if v.Ok? {
        OperandsMonotone(fuel, more, es[1..], env, st1, done + [v.value]);
      }
    }
  }

  lemma {:induction false} CondMonotone(fuel: nat, more: nat, clauses: seq<Sexp>, env: nat, st: State)
    requires Wf(st) && env < |st.frames| && fuel <= more
    requires Finished(EvalCond(fuel, clauses, env, st).0)
    ensures EvalCond(more, clauses, env, st) == EvalCond(fuel, clauses, env, st)
    decreases fuel, 1, |clauses|
  {
    if clauses != [] {
      var c := clauses[0];
      var test := Nth(c, 0);
      if test.Ok? && test.value != Atom("else") {
        EvalMonotone(fuel, more, test.value, env, st);
        var v := Eval(fuel, test.value, env, st);
        var tr := MakeBoolean(v.1.symbols, true);
        if v.0.Ok? && !IsTrue(v.0.value, tr.0) {
          CondMonotone(fuel, more, clauses[1..], env, State(v.1.frames, tr.1));
        }
      }
    }
  }

  lemma {:induction false} DefineMonotone(fuel: nat, more: nat, items: seq<Sexp>, env: nat, st: State)
    requires Wf(st) && env < |st.frames| && fuel <= more
    requires Completed(EvalDefine(fuel, items, env, st).0)
    ensures EvalDefine(more, items, env, st) == EvalDefine(fuel, items, env, st)
    decreases fuel, 1, 0
  {
    if |items| >= 3 && items[1].Atom? && items[1].name != [] && IsVariable(items[1].name) {
      EvalMonotone(fuel, more, items[2], env, st);
    }
  }

  lemma {:induction false} SetMonotone(fuel: nat, more: nat, items: seq<Sexp>, env: nat, st: State)
    requires Wf(st) && env < |st.frames| && fuel <= more
    requires Completed(EvalSet(fuel, items, env, st).0)
    ensures EvalSet(more, items, env, st) == EvalSet(fuel, items, env, st)
    decreases fuel, 1, 0
  {
    if |items| >= 3 && items[1].Atom? && Environment.Nearest(st.frames, env, items[1].name).Some? {
      EvalMonotone(fuel, more, items[2], env, st);
    }
  }
}
