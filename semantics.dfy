/** What the evaluator promises, proved about the functions of Evaluator:
    quotation, let, truth, begin, define and set!, the two forms that loop forever,
    and the base environment (pyscm.py:392-416). */
module Semantics {
  import opened Base
  import opened Syntax
  import opened Interner
  import opened Values
  import opened Primitives
  import opened Environment
  import opened Evaluator

  // ---------------------------------------------------------------------
  // Quotation.

  /** Every token of `e` is a name: no numbers, no strings, no empty token. */
  predicate Symbolic(e: Sexp)
    decreases Size(e), 1
  {
    match e
    case Atom(s) => s != [] && IsVariable(s)
    case SList(xs) => AllSymbolic(xs)
  }

  predicate AllSymbolic(xs: seq<Sexp>)
    decreases SizeAll(xs), 2
  {
    xs == [] || (SizeAllAt(xs, 0); Symbolic(xs[0]) && AllSymbolic(xs[1..]))
  }

  /** The form a value made of symbols and pairs was quoted from: a symbol
      gives its name, a chain of pairs the list of its elements. */
  function Unquote(v: Value): Sexp
    decreases v, 1
  {
    match v
    case Sym(s) => Atom(s.name)
    case _ => SList(UnquoteItems(v))
  }

  function UnquoteItems(v: Value): seq<Sexp>
    decreases v, 0
  {
    match v
    case Pair(h, t) => [Unquote(h)] + UnquoteItems(t)
    case _ => []
  }

  /** Quoting a form made of names and reading it back gives the form again:
      each list became a chain of pairs, one per element, in order. */
  lemma {:induction false} QuoteRoundTrip(e: Sexp, t: Table)
    requires Symbolic(e) && t.Valid()
    ensures Quote(e, t).0.Ok?
    ensures Unquote(Quote(e, t).0.value) == e
    decreases Size(e), 1
  {
    match e
    case Atom(s) =>
    case SList(xs) => QuoteListRoundTrip(xs, t);
  }

  lemma {:induction false} QuoteListRoundTrip(xs: seq<Sexp>, t: Table)
    requires AllSymbolic(xs) && t.Valid()
    ensures QuoteList(xs, t).0.Ok?
    ensures Unquote(QuoteList(xs, t).0.value) == SList(xs)
    decreases SizeAll(xs), 2
  {
    if xs != [] {
      SizeAllAt(xs, 0);
      QuoteRoundTrip(xs[0], t);
      var t1 := Quote(xs[0], t).1;
      QuoteListRoundTrip(xs[1..], t1);
      assert [xs[0]] + xs[1..] == xs;
    }
  }

  /** A number token quotes to its value. */
  lemma QuoteDecimal(t: Table)
    ensures Quote(Atom("42"), t) == (Ok(Num(42)), t)
  {
    IntegerToken("42");
    assert DigitsValue("42", 10) == 42 by {
      assert "42"[..1] == "4" && "4"[..0] == "";
    }
  }

  /** Python 2 reads a number token with a leading zero in octal. */
  lemma QuoteOctal(t: Table)
    ensures Quote(Atom("-017"), t) == (Ok(Num(-15)), t)
  {
    IntegerToken("-017");
    assert Unsigned("-017") == "017" && IsOctalLiteral("017");
    assert !exists i :: 0 <= i < 3 && ("017"[i] == '8' || "017"[i] == '9');
    assert DigitsValue("017", 8) == 15 by {
      assert "017"[..2] == "01" && "01"[..1] == "0" && "0"[..0] == "";
    }
  }

  /** A string token quotes to its text without the quotes. */
  lemma QuoteString(t: Table)
    ensures Quote(Atom("\"hi\""), t) == (Ok(Str("hi")), t)
  {
    QuotedIsNotNumber();
    StripHi();
  }

  lemma StripHi()
    ensures StripQuotes("\"hi\"") == "hi"
  {
    assert "\"hi\""[1..] == "hi\"";
    assert "hi\""[..2] == "hi";
  }

  lemma QuotedIsNotNumber()
    ensures !IsNumber("\"hi\"")
  {
    assert Unsigned("\"hi\"") == "\"hi\"";
    assert ExponentAt("\"hi\"") == 4;
    assert DotAt("\"hi\"") == 4;
    assert !AllDigits("\"hi\"");
    assert LowerAll("\"hi\"") != "inf";
  }

  // ---------------------------------------------------------------------
  // let.

  function Names(ns: seq<string>): seq<Sexp>
  {
    seq(|ns|, i requires 0 <= i < |ns| => Atom(ns[i]))
  }

  /** The binding list ((v1 e1) ... (vn en)). */
  function Bindings(ns: seq<string>, inits: seq<Sexp>): Sexp
    requires |ns| == |inits|
  {
    SList(seq(|ns|, i requires 0 <= i < |ns| => SList([Atom(ns[i]), inits[i]])))
  }

  /** (let ((v1 e1) ... (vn en)) body...) is ((lambda (v1 ... vn) body...) e1 ... en). */
  lemma LetDesugars(ns: seq<string>, inits: seq<Sexp>, body: seq<Sexp>)
    requires |ns| == |inits| >= 1
    ensures LetToLambda([Atom("let"), Bindings(ns, inits)] + body) ==
      Ok(SList([SList([Atom("lambda"), SList(Names(ns))] + body)] + inits))
  {
    var items := [Atom("let"), Bindings(ns, inits)] + body;
    var bindings := Elems(items[1]);
    var rows := seq(|bindings|, i requires 0 <= i < |bindings| => Elems(bindings[i]));
    assert forall i :: 0 <= i < |rows| ==> rows[i] == [Atom(ns[i]), inits[i]];
    assert MinLength(rows) == 2;
    assert Column(rows, 0) == Names(ns);
    assert Column(rows, 1) == inits;
    assert items[2..] == body;
  }

  /** For any well-formed let: the operator is a lambda whose parameters are the
      bindings' first elements, in order, and whose body is the let's body; the
      operands are the bindings' second elements, in order. */
  lemma LetToLambdaShape(items: seq<Sexp>)
    requires WellFormedLet(items)
    ensures LetToLambda(items).Ok?
    ensures var r := LetToLambda(items).value; var bindings := Elems(items[1]);
      && r.SList? && |r.items| == 1 + |bindings|
      && var lambda := r.items[0];
      && lambda.SList? && |lambda.items| == |items|
      && lambda.items[0] == Atom("lambda") && lambda.items[2..] == items[2..]
      && lambda.items[1].SList? && |lambda.items[1].items| == |bindings|
      && (forall i :: 0 <= i < |bindings| ==>
            && lambda.items[1].items[i] == Elems(bindings[i])[0]
            && r.items[1 + i] == Elems(bindings[i])[1])
  {
    var bindings := Elems(items[1]);
    var rows := Rows(bindings);
    assert MinLength(rows) >= 2 by {
      var i :| 0 <= i < |rows| && MinLength(rows) == |rows[i]|;
      assert rows[i] == Elems(bindings[i]);
    }
    var params, args := Column(rows, 0), Column(rows, 1);
    var lambda := SList([Atom("lambda"), SList(params)] + items[2..]);
    var app := SList([lambda] + args);
    assert LetToLambda(items) == Ok(app);
    assert lambda.items[2..] == items[2..];
    forall i | 0 <= i < |bindings|
      ensures lambda.items[1].items[i] == Elems(bindings[i])[0] && app.items[1 + i] == Elems(bindings[i])[1]
    {
      assert rows[i] == Elems(bindings[i]);
      assert app.items[1 + i] == args[i];
    }
  }

  /** An empty binding list has no columns: zip() is empty and indexing it fails. */
  lemma LetWithoutBindings(body: seq<Sexp>)
    ensures LetToLambda([Atom("let"), SList([])] + body) == Err(Fault)
  {
  }

  /** A binding of a name alone has only one column: an IndexError. */
  lemma LetBindingWithoutValue(x: string, body: seq<Sexp>)
    ensures LetToLambda([Atom("let"), SList([SList([Atom(x)])])] + body) == Err(Fault)
  {
    var rows := [[Atom(x)]];
    assert MinLength(rows) == 1;
  }

  // ---------------------------------------------------------------------
  // Truth.

  /** Among values whose symbols come from the table, only the #t symbol is
      true: numbers, strings, lists, None and procedures all count as false. */
  lemma OnlyTrueIsTrue(v: Value, t: Table)
    requires t.Valid()
    requires v.Sym? ==> v.sym.name in t.symbols && t.symbols[v.sym.name] == v.sym
    ensures IsTrue(v, MakeBoolean(t, true).0) <==> v.Sym? && v.sym.name == "#t"
  {
    var (tr, t1) := MakeBoolean(t, true);
    if v.Sym? {
      assert t1.symbols[v.sym.name] == v.sym;
      assert t1.Valid();
    }
  }

  // ---------------------------------------------------------------------
  // define and set!.

  /** `(define name exp)` evaluates `exp`, then stores its value in the current
      frame only: every other frame is the one `exp` left behind. */
  lemma DefineWritesCurrentFrame(fuel: nat, name: string, x: Sexp, env: nat, st: State)
    requires Wf(st) && env < |st.frames| && name != [] && IsVariable(name)
    ensures var v := Eval(fuel, x, env, st);
      var r := EvalDefine(fuel, [Atom("define"), Atom(name), x], env, st);
      && (v.0.Err? ==> r == v)
      && (v.0.Ok? ==>
            && r.0 == Ok(Unit)
            && |r.1.frames| == |v.1.frames|
            && Lookup(r.1.frames, env, name) == Ok(v.0.value)
            && (forall i :: 0 <= i < |v.1.frames| && i != env ==> r.1.frames[i] == v.1.frames[i]))
  {
    var v := Eval(fuel, x, env, st);
    if v.0.Ok? {
      DefineVisible(v.1.frames, env, name, v.0.value);
    }
  }

  /** `(define (f p...) body...)` stores a closure over the current frame under
      `f` without evaluating anything. */
  lemma DefineProcedure(fuel: nat, f: string, params: seq<Sexp>, body: seq<Sexp>, env: nat, st: State)
    requires Wf(st) && env < |st.frames|
    ensures var r := EvalDefine(fuel, [Atom("define"), SList([Atom(f)] + params)] + body, env, st);
      r.0 == Ok(Unit) && r.1.symbols == st.symbols
      && Lookup(r.1.frames, env, f) == Ok(Closure(SList(params), body, env))
  {
    var items := [Atom("define"), SList([Atom(f)] + params)] + body;
    assert items[2..] == body;
    assert (SList([Atom(f)] + params)).items[1..] == params;
    DefineVisible(st.frames, env, f, Closure(SList(params), body, env));
  }

  /** set! of a name no frame binds fails before evaluating anything. */
  lemma SetUnbound(fuel: nat, name: string, x: Sexp, env: nat, st: State)
    requires Wf(st) && env < |st.frames| && Nearest(st.frames, env, name).None?
    ensures EvalSet(fuel, [Atom("set!"), Atom(name), x], env, st) == (Err(Fault), st)
  {
  }

  /** set! evaluates the value in the calling frame, then overwrites the
      binding in the nearest frame that had one when it started. Every frame
      whose nearest binder of the name is that frame sees the new value, so do
      all closures sharing it; other names read as before. */
  lemma SetOverwritesNearest(fuel: nat, name: string, x: Sexp, env: nat, st: State)
    requires Wf(st) && env < |st.frames| && Nearest(st.frames, env, name).Some?
    ensures var k := Nearest(st.frames, env, name).value;
      var v := Eval(fuel, x, env, st);
      var r := EvalSet(fuel, [Atom("set!"), Atom(name), x], env, st);
      && (v.0.Err? ==> r == v)
      && (v.0.Ok? ==>
            && r.0 == Ok(Unit)
            && r.1 == State(Write(v.1.frames, k, name, v.0.value), v.1.symbols)
            && (forall j :: 0 <= j < |v.1.frames| && Nearest(v.1.frames, j, name) == Some(k) ==>
                  Lookup(r.1.frames, j, name) == Ok(v.0.value))
            && (forall j ::
                  0 <= j < |v.1.frames| && Nearest(v.1.frames, j, name).Some? && Nearest(v.1.frames, j, name) != Some(k) ==>
                  Lookup(r.1.frames, j, name) == Lookup(v.1.frames, j, name))
            && (forall j, other :: 0 <= j < |v.1.frames| && other != name ==>
                  Lookup(r.1.frames, j, other) == Lookup(v.1.frames, j, other)))
  {
    var k := Nearest(st.frames, env, name).value;
    var v := Eval(fuel, x, env, st);
    if v.0.Ok? {
      forall j, other | 0 <= j < |v.1.frames|
        ensures Nearest(v.1.frames, j, name) == Some(k) ==> Lookup(Write(v.1.frames, k, name, v.0.value), j, name) == Ok(v.0.value)
        ensures Nearest(v.1.frames, j, name).Some? && Nearest(v.1.frames, j, name) != Some(k) ==>
          Lookup(Write(v.1.frames, k, name, v.0.value), j, name) == Lookup(v.1.frames, j, name)
        ensures other != name ==> Lookup(Write(v.1.frames, k, name, v.0.value), j, other) == Lookup(v.1.frames, j, other)
      {
        WriteVisible(v.1.frames, k, name, v.0.value, j, other);
      }
    }
  }

  // ---------------------------------------------------------------------
  // Operands, left to right.

  /** Evaluating a prefix of the operands and then the rest, from the state the
      prefix leaves, is evaluating them all; an error in the prefix is final. */
  lemma {:induction false} OperandsSplit(fuel: nat, es: seq<Sexp>, k: nat, env: nat, st: State, done: seq<Value>)
    requires Wf(st) && env < |st.frames| && k <= |es|
    requires forall i :: 0 <= i < |done| ==> Refs(done[i]) <= |st.frames|
    ensures var a := EvalOperands(fuel, es[..k], env, st, done);
      && (a.0.Err? ==> EvalOperands(fuel, es, env, st, done) == a)
      && (a.0.Ok? ==> EvalOperands(fuel, es, env, st, done) == EvalOperands(fuel, es[k..], env, a.1, a.0.value))
    decreases k
  {
    if k == 0 {
      assert es[..0] == [] && es[0..] == es;
    } else {
      var out := Eval(fuel, es[0], env, st);
      assert es[..k][0] == es[0] && es[..k][1..] == es[1..][..k - 1];
      if out.0.Ok? {
        var done' := done + [out.0.value];
        assert forall i :: 0 <= i < |done'| ==> Refs(done'[i]) <= |out.1.frames|;
        OperandsSplit(fuel, es[1..], k - 1, env, out.1, done');
        assert es[1..][k - 1..] == es[k..];
      }
    }
  }

  /** The operand at position `i` is evaluated in the state the operands before
      it leave: its value is the list's entry `|done| + i`, and its error is the
      whole evaluation's. */
  lemma OperandsAt(fuel: nat, es: seq<Sexp>, i: nat, env: nat, st: State, done: seq<Value>)
    requires Wf(st) && env < |st.frames| && i < |es|
    requires forall j :: 0 <= j < |done| ==> Refs(done[j]) <= |st.frames|
    requires EvalOperands(fuel, es[..i], env, st, done).0.Ok?
    ensures var a := EvalOperands(fuel, es[..i], env, st, done);
      var x := Eval(fuel, es[i], env, a.1);
      var r := EvalOperands(fuel, es, env, st, done);
      && (x.0.Err? ==> r == (Err(x.0.error), x.1))
      && (r.0.Ok? ==> x.0.Ok? && r.0.value[|done| + i] == x.0.value)
  {
    var a := EvalOperands(fuel, es[..i], env, st, done);
    OperandsSplit(fuel, es, i, env, st, done);
    var rest := es[i..];
    assert rest[0] == es[i];
    var x := Eval(fuel, es[i], env, a.1);
    if x.0.Ok? {
      var r := EvalOperands(fuel, rest[1..], env, x.1, a.0.value + [x.0.value]);
      if r.0.Ok? {
        assert r.0.value[..|a.0.value| + 1] == a.0.value + [x.0.value];
        assert r.0.value[|done| + i] == r.0.value[..|a.0.value| + 1][|a.0.value|];
      }
    }
  }

  // ---------------------------------------------------------------------
  // Sequences and begin.

  /** A non-empty sequence gives the value of its last form: the forms before
      it are evaluated first, and an error among them is the result. */
  lemma {:induction false} EvalSeqLast(fuel: nat, es: seq<Sexp>, env: nat, st: State, last: Value)
    requires Wf(st) && env < |st.frames| && Refs(last) <= |st.frames| && es != []
    ensures var p := EvalSeq(fuel, es[..|es| - 1], env, st, last);
      EvalSeq(fuel, es, env, st, last) ==
        if p.0.Err? then p else Eval(fuel, es[|es| - 1], env, p.1)
    decreases |es|
  {
    var out := Eval(fuel, es[0], env, st);
    if |es| == 1 {
      assert es[..0] == [];
      if out.0.Ok? {
        assert es[1..] == [];
      }
    } else {
      assert es[..|es| - 1][0] == es[0];
      assert es[..|es| - 1][1..] == es[1..][..|es[1..]| - 1];
      if out.0.Ok? {
        EvalSeqLast(fuel, es[1..], env, out.1, out.0.value);
      }
    }
  }

  /** `(begin f... x)` evaluates the forms `f` in order; unless one of them
      fails, the loop goes on with `x` in the same frame, so `x`'s value is
      the value of the `begin`. */
  lemma BeginContinuesWithLast(fuel: nat, es: seq<Sexp>, x: Sexp, env: nat, st: State)
    requires Wf(st) && env < |st.frames|
    ensures var s := EvalSeq(fuel, es, env, st, Unit);
      Eval(fuel + 1, SList([Atom("begin")] + es + [x]), env, st) ==
        if s.0.Err? then s else Eval(fuel, x, env, s.1)
  {
    var items := [Atom("begin")] + es + [x];
    assert items[1..|items| - 1] == es;
    assert items[|items| - 1] == x;
  }

  /** `(begin)`, which is what the empty program parses to, goes on with
      the name `begin` itself, so its value is whatever `begin` names. */
  lemma EmptyBegin(fuel: nat, env: nat, st: State)
    requires Wf(st) && env < |st.frames|
    ensures Eval(fuel + 1, SList([Atom("begin")]), env, st) == Eval(fuel, Atom("begin"), env, st)
  {
    var e := SList([Atom("begin")]);
    assert IsTagged(e, "begin") && !IsTagged(e, "quote") && !IsTagged(e, "lambda");
    assert !IsTagged(e, "define") && !IsTagged(e, "set!");
    assert EvalSeq(fuel, [], env, st, Unit) == (Ok(Unit), st);
    assert Step(fuel, e, env, st) == (Continue(Atom("begin"), env), st);
  }

  // ---------------------------------------------------------------------
  // Forms on which the loop never ends.

  /** A one-digit number token evaluates to its value in one pass. */
  lemma EvalDigit(fuel: nat, d: char, env: nat, st: State)
    requires Wf(st) && env < |st.frames| && fuel > 0 && IsDigit(d)
    ensures Eval(fuel, Atom([d]), env, st) == (Ok(Num(DigitValue(d))), st)
  {
    IntegerToken([d]);
    assert DigitsValue([d], 10) == DigitValue(d) by { assert [d][..0] == ""; }
    assert PrimitiveValue([d]) == Ok(Num(DigitValue(d)));
  }

  /** `(if 1)` takes one pass to come back to itself. */
  lemma IfOfTwoStep(fuel: nat, env: nat, st: State)
    requires Wf(st) && env < |st.frames| && fuel > 0
    ensures var e := SList([Atom("if"), Atom("1")]);
      Step(fuel, e, env, st) == (Continue(e, env), st)
  {
    EvalDigit(fuel, '1', env, st);
  }

  /** `(if 1)`: an `if` of two elements evaluates its test and goes round
      again on itself; it runs out of any amount of fuel. */
  lemma {:induction false} IfOfTwoLoops(fuel: nat, env: nat, st: State)
    requires Wf(st) && env < |st.frames|
    ensures Eval(fuel, SList([Atom("if"), Atom("1")]), env, st).0 == Err(OutOfFuel)
  {
    var e := SList([Atom("if"), Atom("1")]);
    if fuel >= 2 {
      IfOfTwoStep(fuel - 1, env, st);
      IfOfTwoLoops(fuel - 1, env, st);
    } else if fuel == 1 {
      assert Eval(0, Atom("1"), env, st) == (Err(OutOfFuel), st);
    }
  }

  /** `(5)` takes one pass to come back to itself. */
  lemma ApplyNumberStep(fuel: nat, env: nat, st: State)
    requires Wf(st) && env < |st.frames| && fuel > 0
    ensures Step(fuel, SList([Atom("5")]), env, st) == (Continue(SList([Atom("5")]), env), st)
  {
    var e := SList([Atom("5")]);
    OperandsFive(fuel, env, st);
    assert StepApply(fuel, e, env, st) == (Continue(e, env), st);
    assert !IsTagged(e, "quote") && !IsTagged(e, "lambda") && !IsTagged(e, "define");
    assert !IsTagged(e, "set!") && !IsTagged(e, "begin") && !IsTagged(e, "if");
    assert !IsTagged(e, "cond") && !IsTagged(e, "let");
  }

  lemma OperandsFive(fuel: nat, env: nat, st: State)
    requires Wf(st) && env < |st.frames| && fuel > 0
    ensures EvalOperands(fuel, [Atom("5")], env, st, []) == (Ok([Num(5)]), st)
  {
    EvalDigit(fuel, '5', env, st);
    assert [Atom("5")][1..] == [];
    assert [] + [Num(5)] == [Num(5)];
  }

  /** `(5)`: applying a number neither fails nor returns; the loop evaluates
      the same elements again and again. */
  lemma {:induction false} ApplyNumberLoops(fuel: nat, env: nat, st: State)
    requires Wf(st) && env < |st.frames|
    ensures Eval(fuel, SList([Atom("5")]), env, st).0 == Err(OutOfFuel)
  {
    if fuel >= 2 {
      ApplyNumberStep(fuel - 1, env, st);
      ApplyNumberLoops(fuel - 1, env, st);
    } else if fuel == 1 {
      assert Eval(0, Atom("5"), env, st) == (Err(OutOfFuel), st);
      assert EvalOperands(0, [Atom("5")], env, st, []) == (Err(OutOfFuel), st);
    }
  }

  // ---------------------------------------------------------------------
  // Tail positions: the chosen form is the loop's next expression.

  /** The heads the dispatch tests before it treats a list as an application. */
  predicate IsKeyword(x: Sexp)
  {
    x in {Atom("quote"), Atom("lambda"), Atom("define"), Atom("set!"),
          Atom("begin"), Atom("if"), Atom("cond"), Atom("let")}
  }

  /** `(if c a b)`: the test is evaluated in `env`; if that succeeds, the
      branch it selects (`a` exactly when the test gave the #t symbol) is
      evaluated next, in the same `env`, with the remaining passes. */
  lemma IfChoosesBranch(fuel: nat, c: Sexp, a: Sexp, b: Sexp, env: nat, st: State)
    requires Wf(st) && env < |st.frames|
    ensures var v := Eval(fuel, c, env, st);
      var truth := MakeBoolean(v.1.symbols, true);
      Eval(fuel + 1, SList([Atom("if"), c, a, b]), env, st) ==
        if v.0.Err? then v
        else Eval(fuel, if IsTrue(v.0.value, truth.0) then a else b, env, State(v.1.frames, truth.1))
  {
    var e := SList([Atom("if"), c, a, b]);
    assert Step(fuel, e, env, st) == StepIf(fuel, e.items, env, st);
  }

  /** `(if c a)`: a test that gives anything but #t makes the `if` give None. */
  lemma IfWithoutAlternative(fuel: nat, c: Sexp, a: Sexp, env: nat, st: State)
    requires Wf(st) && env < |st.frames|
    ensures var v := Eval(fuel, c, env, st);
      var truth := MakeBoolean(v.1.symbols, true);
      Eval(fuel + 1, SList([Atom("if"), c, a]), env, st) ==
        if v.0.Err? then v
        else if IsTrue(v.0.value, truth.0) then Eval(fuel, a, env, State(v.1.frames, truth.1))
        else (Ok(Unit), State(v.1.frames, truth.1))
  {
    var e := SList([Atom("if"), c, a]);
    assert Step(fuel, e, env, st) == StepIf(fuel, e.items, env, st);
  }

  /** A `cond` with no clauses gives None. */
  lemma CondWithoutClauses(fuel: nat, env: nat, st: State)
    requires Wf(st) && env < |st.frames|
    ensures Eval(fuel + 1, SList([Atom("cond")]), env, st) == (Ok(Unit), st)
  {
    var e := SList([Atom("cond")]);
    assert e.items[1..] == [];
    assert Step(fuel, e, env, st) == (Return(Ok(Unit)), st);
  }

  /** A leading `else` clause is taken without evaluating anything: its
      form is evaluated next in the same `env`. */
  lemma CondElse(fuel: nat, x: Sexp, more: seq<Sexp>, rest: seq<Sexp>, env: nat, st: State)
    requires Wf(st) && env < |st.frames|
    ensures Eval(fuel + 1, SList([Atom("cond"), SList([Atom("else"), x] + more)] + rest), env, st) ==
      Eval(fuel, x, env, st)
  {
    var c := SList([Atom("else"), x] + more);
    var e := SList([Atom("cond"), c] + rest);
    assert e.items[1..] == [c] + rest;
    assert EvalCond(fuel, [c] + rest, env, st) == (Continue(x, env), st);
  }

  /** Any other clause evaluates its test: the clause is taken when the test
      gives #t, and otherwise the remaining clauses are tried in order. */
  lemma CondClause(fuel: nat, test: Sexp, x: Sexp, more: seq<Sexp>, rest: seq<Sexp>, env: nat, st: State)
    requires Wf(st) && env < |st.frames| && test != Atom("else")
    ensures var v := Eval(fuel, test, env, st);
      var truth := MakeBoolean(v.1.symbols, true);
      EvalCond(fuel, [SList([test, x] + more)] + rest, env, st) ==
        if v.0.Err? then (Return(v.0), v.1)
        else if IsTrue(v.0.value, truth.0) then (Continue(x, env), State(v.1.frames, truth.1))
        else EvalCond(fuel, rest, env, State(v.1.frames, truth.1))
  {
    assert ([SList([test, x] + more)] + rest)[1..] == rest;
  }

  /** A list whose head is no keyword is an application: all of its
      elements are evaluated first, in order, in `env`. */
  lemma StepOfApplication(fuel: nat, items: seq<Sexp>, env: nat, st: State)
    requires Wf(st) && env < |st.frames| && items != [] && !IsKeyword(items[0])
    ensures Step(fuel, SList(items), env, st) == StepApply(fuel, SList(items), env, st)
  {
    var e := SList(items);
    assert !IsTagged(e, "quote") && !IsTagged(e, "lambda") && !IsTagged(e, "define");
    assert !IsTagged(e, "set!") && !IsTagged(e, "begin") && !IsTagged(e, "if");
    assert !IsTagged(e, "cond") && !IsTagged(e, "let");
  }

  /** Applying a primitive: its result, on the values of the other
      elements, is the result of the application. */
  lemma ApplyPrimitive(fuel: nat, items: seq<Sexp>, env: nat, st: State, op: PrimOp)
    requires Wf(st) && env < |st.frames| && items != [] && !IsKeyword(items[0])
    requires var ops := EvalOperands(fuel, items, env, st, []);
      ops.0.Ok? && ops.0.value[0] == Primitive(op)
    ensures var ops := EvalOperands(fuel, items, env, st, []);
      var applied := Apply(op, ops.0.value[1..], ops.1.symbols);
      Eval(fuel + 1, SList(items), env, st) == (applied.0, State(ops.1.frames, applied.1))
  {
    StepOfApplication(fuel, items, env, st);
  }

  /** Applying a closure: the loop goes on with `begin` and the closure's
      body, in a new frame after all existing ones whose parent is the frame
      the closure captured and whose bindings zip its parameters with the
      other elements' values. */
  lemma ApplyClosure(fuel: nat, items: seq<Sexp>, env: nat, st: State, params: Sexp, body: seq<Sexp>, penv: nat)
    requires Wf(st) && env < |st.frames| && items != [] && !IsKeyword(items[0])
    requires var ops := EvalOperands(fuel, items, env, st, []);
      ops.0.Ok? && ops.0.value[0] == Closure(params, body, penv)
    ensures var ops := EvalOperands(fuel, items, env, st, []);
      var n := |ops.1.frames|;
      penv < n &&
      Step(fuel, SList(items), env, st) ==
        match Bind(Elems(params), ops.0.value[1..])
        case Err(err) => (Return(Err(err)), ops.1)
        case Ok(m) => (Continue(SList([Atom("begin")] + body), n), State(Push(ops.1.frames, m, penv), ops.1.symbols))
  {
    StepOfApplication(fuel, items, env, st);
    var ops := EvalOperands(fuel, items, env, st, []);
    assert Refs(ops.0.value[0]) <= |ops.1.frames|;
  }
}
