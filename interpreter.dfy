/** The interpreter as the Python program runs it: the symbol table and the
    environment dicts are state that the evaluation loop updates in place.
    Each method is proved to compute what the functions of Evaluator say. */
module Interpreter {
  import opened Base
  import opened Syntax
  import opened Interner
  import opened Values
  import opened Primitives
  import opened Environment
  import Reader
  import E = Evaluator

  /** The procedures make_base (pyscm.py:392-416) binds, '>=' to the same
      function as '>'. */
  function Library(): map<string, Value>
  {
    map[
      "display" := Primitive(Display), "cons" := Primitive(Cons),
      "car" := Primitive(Car), "cdr" := Primitive(Cdr),
      "+" := Primitive(Add), "-" := Primitive(Sub),
      "*" := Primitive(Mul), "/" := Primitive(Div),
      ">" := Primitive(Gt), ">=" := Primitive(Gt),
      "<" := Primitive(Lt), "<=" := Primitive(Le),
      "=" := Primitive(NumEq), "eq?" := Primitive(IsEq)]
  }

  /** make_base (pyscm.py:392-416): the library, then #f and #t interned in
      that order; the frame has no parent. */
  function BaseFrame(t: Table): (r: (Frame, Table))
  {
    var f := Interner.MakeBoolean(t, false);
    var tr := Interner.MakeBoolean(f.1, true);
    (Frame(Library()["#f" := Sym(f.0)]["#t" := Sym(tr.0)], None), tr.1)
  }

  /** The base frame binds exactly the library names and #t and #f; it is a
      root frame. */
  lemma BaseFrameNames(t: Table)
    ensures BaseFrame(t).0.bindings.Keys == Library().Keys + {"#f", "#t"}
    ensures BaseFrame(t).0.parent == None
  {
  }

  /** '>=' is bound in the base frame to a primitive wrapping gt, as '>' is. */
  lemma BaseFrameAtLeast(t: Table)
    ensures BaseFrame(t).0.bindings[">="] == BaseFrame(t).0.bindings[">"] == Primitive(Gt)
  {
    LibraryContents();
    assert ">=" != "#t" && ">=" != "#f" by { assert ">="[0] != '#'; }
    assert ">" != "#t" && ">" != "#f" by { assert ">"[0] != '#'; }
  }

  /** The library binds these fourteen names. */
  lemma LibraryNames()
    ensures Library().Keys == {"display", "cons", "car", "cdr", "+", "-", "*", "/",
                               ">", ">=", "<", "<=", "=", "eq?"}
  {
  }

  /** Every library name is bound to a primitive procedure; '>=' wraps gt, as '>' does. */
  lemma LibraryContents()
    ensures forall x | x in Library() :: Library()[x].Primitive?
    ensures Library()[">="] == Library()[">"] == Primitive(Gt)
  {
  }

  /** The base frame can stand first in a store: it has no parent and
      captures no frame. */
  lemma BaseFrameOk(t: Table)
    ensures FrameOk(BaseFrame(t).0, 0, 0)
  {
    LibraryContents();
  }

  /** In the base frame #t and #f are the table's symbols of those names, and
      they are distinct. */
  lemma BaseFrameBooleans(t: Table)
    requires t.Valid()
    ensures var (fr, t2) := BaseFrame(t);
      && t2.Valid() && Extends(t, t2)
      && fr.bindings["#t"] == Sym(t2.symbols["#t"])
      && fr.bindings["#f"] == Sym(t2.symbols["#f"])
      && fr.bindings["#t"] != fr.bindings["#f"]
  {
    var f := Interner.MakeBoolean(t, false);
    var tr := Interner.MakeBoolean(f.1, true);
    BooleansDistinct(t);
    ExtendsTransitive(t, f.1, tr.1);
  }

  /** run (pyscm.py:418-419): parse the text, then evaluate it in frame `env`. */
  function RunText(fuel: nat, code: string, env: nat, st: E.State): (r: (Result<Value>, E.State))
    requires E.Wf(st) && env < |st.frames|
    ensures E.Wf(r.1) && E.Grows(st, r.1)
    ensures Reader.ParseText(code).Err? ==> r == (Err(Reader.ParseText(code).error), st)
    ensures r.0.Ok? ==> Refs(r.0.value) <= |r.1.frames|
  {
    match Reader.ParseText(code)
    case Err(err) => (Err(err), st)
    case Ok(ast) => E.Eval(fuel, ast, env, st)
  }

  class Interpreter {
    /** Every environment dict created so far, by position. */
    var frames: Store
    /** make_symbol's table (the dict shared through its default argument). */
    var symbols: Table

    function Snapshot(): E.State
      reads this
    {
      E.State(frames, symbols)
    }

    /** The frames refer only to one another, and distinct names in the
        table have distinct identities. */
    ghost predicate Valid()
      reads this
    {
      StoreOk(frames) && symbols.Valid()
    }

    /** A fresh interpreter: no environment yet and an empty symbol table. */
    constructor ()
      ensures Valid() && frames == [] && symbols == EmptyTable
    {
      frames := [];
      symbols := EmptyTable;
    }

    /** make_symbol (pyscm.py:246-253). */
    method MakeSymbol(name: string) returns (s: Symbol)
      modifies this
      ensures (s, symbols) == Intern(old(symbols), name)
      ensures frames == old(frames)
    {
      if name in symbols.symbols {
        s := symbols.symbols[name];
      } else {
        s := Symbol(symbols.count, name);
        symbols := Table(symbols.symbols[name := s], symbols.count + 1);
      }
    }

    /** make_boolean (pyscm.py:255-260). */
    method MakeBoolean(b: bool) returns (s: Symbol)
      modifies this
      ensures (s, symbols) == Interner.MakeBoolean(old(symbols), b)
      ensures frames == old(frames)
    {
      if b {
        s := MakeSymbol("#t");
      } else {
        s := MakeSymbol("#f");
      }
    }

    /** make_base (pyscm.py:392-416): creates the base frame and returns its position. */
    method MakeBase() returns (env: nat)
      requires Valid()
      modifies this
      ensures Valid()
      ensures env == |old(frames)| && env < |frames|
      ensures frames == old(frames) + [BaseFrame(old(symbols)).0]
      ensures symbols == BaseFrame(old(symbols)).1
    {
      var bindings: map<string, Value> := map[];
      bindings := bindings["display" := Primitive(Display)];
      bindings := bindings["cons" := Primitive(Cons)];
      bindings := bindings["car" := Primitive(Car)];
      bindings := bindings["cdr" := Primitive(Cdr)];
      bindings := bindings["+" := Primitive(Add)];
      bindings := bindings["-" := Primitive(Sub)];
      bindings := bindings["*" := Primitive(Mul)];
      bindings := bindings["/" := Primitive(Div)];
      bindings := bindings[">" := Primitive(Gt)];
      bindings := bindings[">=" := Primitive(Gt)];
      bindings := bindings["<" := Primitive(Lt)];
      bindings := bindings["<=" := Primitive(Le)];
      bindings := bindings["=" := Primitive(NumEq)];
      bindings := bindings["eq?" := Primitive(IsEq)];
      var f := MakeBoolean(false);
      bindings := bindings["#f" := Sym(f)];
      var t := MakeBoolean(true);
      bindings := bindings["#t" := Sym(t)];
      env := |frames|;
      frames := frames + [Frame(bindings, None)];
    }

    /** run (pyscm.py:418-419). */
    method Run(code: string, env: nat, fuel: nat) returns (r: Result<Value>)
      requires Valid() && env < |frames|
      modifies this
      ensures Valid()
      ensures (r, Snapshot()) == RunText(fuel, code, env, old(Snapshot()))
    {
      var ast := Reader.Parse(code);
      match ast
      case Err(err) => r := Err(err);
      case Ok(exp) => r := Evaluate(fuel, exp, env);
    }

    /** evaluate (pyscm.py:328-389): the `while True` loop, going round at most
        `fuel` times; a tail position replaces `exp` and `env` and goes round. */
    method Evaluate(fuel: nat, e: Sexp, env: nat) returns (r: Result<Value>)
      requires Valid() && env < |frames|
      modifies this
      ensures Valid()
      ensures (r, Snapshot()) == E.Eval(fuel, e, env, old(Snapshot()))
      decreases fuel, 0, 0
    {
      var exp: Sexp, cur: nat, f: nat := e, env, fuel;
      while true
        invariant Valid() && cur < |frames| && f <= fuel
        invariant E.Eval(fuel, e, env, old(Snapshot())) == E.Eval(f, exp, cur, Snapshot())
        decreases f
      {
        if f == 0 {
          return Err(OutOfFuel);
        }
        f := f - 1;
        var next := Step(f, exp, cur);
        match next
        case Return(res) =>
          return res;
        case Continue(e1, env1) =>
          exp, cur := e1, env1;
      }
    }

    /** One pass of the loop body (pyscm.py:332-389). */
    method Step(fuel: nat, e: Sexp, env: nat) returns (next: E.Next)
      requires Valid() && env < |frames|
      modifies this
      ensures Valid()
      ensures (next, Snapshot()) == E.Step(fuel, e, env, old(Snapshot()))
      decreases fuel, 3, 0
    {
      match e
      case Atom(s) =>
        if s == [] {
          next := E.Return(Err(Fault));
        } else if IsPrimitive(s) {
          next := E.Return(E.PrimitiveValue(s));
        } else {
          next := E.Return(Lookup(frames, env, s));
        }
      case SList(items) =>
        if IsTagged(e, "quote") {
          if |items| < 2 {
            next := E.Return(Err(Fault));
          } else {
            var q := E.Quote(items[1], symbols);
            symbols := q.1;
            next := E.Return(q.0);
          }
        } else if IsTagged(e, "lambda") {
          if |items| < 2 {
            next := E.Return(Err(Fault));
          } else {
            next := E.Return(Ok(Closure(items[1], items[2..], env)));
          }
        } else if IsTagged(e, "define") {
          var v := EvalDefinition(fuel, items, env);
          next := E.Return(v);
        } else if IsTagged(e, "set!") {
          var v := EvalSet(fuel, items, env);
          next := E.Return(v);
        } else if IsTagged(e, "begin") {
          var middle := if |items| >= 2 then items[1..|items| - 1] else [];
          var v := EvalSequence(fuel, middle, env);
          next := if v.Err? then E.Return(v) else E.Continue(items[|items| - 1], env);
        } else if IsTagged(e, "if") {
          next := StepIf(fuel, items, env);
        } else if IsTagged(e, "cond") {
          next := EvalCond(fuel, items[1..], env);
        } else if IsTagged(e, "let") {
          var f := E.LetToLambda(items);
          next := if f.Ok? then E.Continue(f.value, env) else E.Return(Err(f.error));
        } else if items != [] {
          next := StepApply(fuel, e, env);
        } else {
          next := E.Return(Ok(Unit));
        }
    }

    /** The `if` branch (pyscm.py:347-359). */
    method StepIf(fuel: nat, items: seq<Sexp>, env: nat) returns (next: E.Next)
      requires Valid() && env < |frames|
      modifies this
      ensures Valid()
      ensures (next, Snapshot()) == E.StepIf(fuel, items, env, old(Snapshot()))
      decreases fuel, 2, 0
    {
      if |items| < 2 {
        return E.Return(Err(Fault));
      }
      var condition := Evaluate(fuel, items[1], env);
      if condition.Err? {
        return E.Return(condition);
      }
      if |items| == 4 {
        var t := MakeBoolean(true);
        next := E.Continue(if E.IsTrue(condition.value, t) then items[2] else items[3], env);
      } else if |items| == 3 {
        var t := MakeBoolean(true);
        next := if E.IsTrue(condition.value, t) then E.Continue(items[2], env) else E.Return(Ok(Unit));
      } else {
        next := E.Continue(SList(items), env);
      }
    }

    /** The application branch (pyscm.py:376-387). */
    method StepApply(fuel: nat, e: Sexp, env: nat) returns (next: E.Next)
      requires Valid() && env < |frames| && e.SList? && e.items != []
      modifies this
      ensures Valid()
      ensures (next, Snapshot()) == E.StepApply(fuel, e, env, old(Snapshot()))
      decreases fuel, 2, 0
    {
      var vs := EvalOperands(fuel, e.items, env);
      if vs.Err? {
        return E.Return(Err(vs.error));
      }
      var proc, args := vs.value[0], vs.value[1..];
      MaxRefsBelow(args, |frames|);
      match proc
      case Primitive(op) =>
        var a := Apply(op, args, symbols);
        symbols := a.1;
        next := E.Return(a.0);
      case Closure(params, body, penv) =>
        var m := Bind(Elems(params), args);
        if m.Err? {
          next := E.Return(Err(m.error));
        } else {
          next := E.Continue(SList([Atom("begin")] + body), |frames|);
          frames := Push(frames, m.value, penv);
        }
      case _ =>
        next := E.Continue(e, env);
    }

    /** eval_sequence (pyscm.py:309-314). */
    method EvalSequence(fuel: nat, es: seq<Sexp>, env: nat) returns (result: Result<Value>)
      requires Valid() && env < |frames|
      modifies this
      ensures Valid()
      ensures (result, Snapshot()) == E.EvalSeq(fuel, es, env, old(Snapshot()), Unit)
      decreases fuel, 1, 0
    {
      var last := Unit;
      var i := 0;
      while i < |es|
        invariant 0 <= i <= |es| && Valid() && env < |frames| && Refs(last) <= |frames|
        invariant E.EvalSeq(fuel, es, env, old(Snapshot()), Unit) == E.EvalSeq(fuel, es[i..], env, Snapshot(), last)
      {
        assert es[i..][0] == es[i] && es[i..][1..] == es[i + 1..];
        var v := Evaluate(fuel, es[i], env);
        if v.Err? {
          return v;
        }
        last := v.value;
        i := i + 1;
      }
      assert es[i..] == [];
      result := Ok(last);
    }

    /** `[evaluate(arg, env) for arg in exp]` (pyscm.py:377). */
    method EvalOperands(fuel: nat, es: seq<Sexp>, env: nat) returns (result: Result<seq<Value>>)
      requires Valid() && env < |frames|
      modifies this
      ensures Valid()
      ensures (result, Snapshot()) == E.EvalOperands(fuel, es, env, old(Snapshot()), [])
      decreases fuel, 1, 0
    {
      var done: seq<Value> := [];
      var i := 0;
      while i < |es|
        invariant 0 <= i <= |es| && Valid() && env < |frames|
        invariant forall k :: 0 <= k < |done| ==> Refs(done[k]) <= |frames|
        invariant E.EvalOperands(fuel, es, env, old(Snapshot()), []) == E.EvalOperands(fuel, es[i..], env, Snapshot(), done)
      {
        assert es[i..][0] == es[i] && es[i..][1..] == es[i + 1..];
        var v := Evaluate(fuel, es[i], env);
        if v.Err? {
          return Err(v.error);
        }
        done := done + [v.value];
        i := i + 1;
      }
      assert es[i..] == [];
      result := Ok(done);
    }

    /** The `cond` branch (pyscm.py:360-372): the first clause whose test is
        #t, or whose head is `else`, supplies the next expression. */
    method EvalCond(fuel: nat, clauses: seq<Sexp>, env: nat) returns (next: E.Next)
      requires Valid() && env < |frames|
      modifies this
      ensures Valid()
      ensures (next, Snapshot()) == E.EvalCond(fuel, clauses, env, old(Snapshot()))
      decreases fuel, 1, 0
    {
      var i := 0;
      while i < |clauses|
        invariant 0 <= i <= |clauses| && Valid() && env < |frames|
        invariant E.EvalCond(fuel, clauses, env, old(Snapshot())) == E.EvalCond(fuel, clauses[i..], env, Snapshot())
      {
        var c := clauses[i];
        assert clauses[i..][0] == c && clauses[i..][1..] == clauses[i + 1..];
        var test := Nth(c, 0);
        if test.Err? {
          return E.Return(Err(test.error));
        }
        if test.value == Atom("else") {
          return E.Chosen(c, env);
        }
        var v := Evaluate(fuel, test.value, env);
        if v.Err? {
          return E.Return(v);
        }
        var t := MakeBoolean(true);
        if E.IsTrue(v.value, t) {
          return E.Chosen(c, env);
        }
        i := i + 1;
      }
      assert clauses[i..] == [];
      next := E.Return(Ok(Unit));
    }

    /** eval_definition (pyscm.py:280-287). */
    method EvalDefinition(fuel: nat, items: seq<Sexp>, env: nat) returns (result: Result<Value>)
      requires Valid() && env < |frames|
      modifies this
      ensures Valid()
      ensures (result, Snapshot()) == E.EvalDefine(fuel, items, env, old(Snapshot()))
      decreases fuel, 1, 0
    {
      if |items| < 2 {
        return Err(Fault);
      }
      var target := items[1];
      if target.Atom? && target.name == [] {
        return Err(Fault);
      }
      if target.Atom? && IsVariable(target.name) {
        if |items| < 3 {
          return Err(Fault);
        }
        var v := Evaluate(fuel, items[2], env);
        if v.Err? {
          return v;
        }
        frames := Write(frames, env, target.name, v.value);
        return Ok(Unit);
      }
      var f := Closure(DropFirst(target, 1), items[2..], env);
      var key := Nth(target, 0);
      if key.Ok? && key.value.Atom? {
        frames := Write(frames, env, key.value.name, f);
        result := Ok(Unit);
      } else {
        result := Err(Fault);
      }
    }

    /** eval_set (pyscm.py:289-294). */
    method EvalSet(fuel: nat, items: seq<Sexp>, env: nat) returns (result: Result<Value>)
      requires Valid() && env < |frames|
      modifies this
      ensures Valid()
      ensures (result, Snapshot()) == E.EvalSet(fuel, items, env, old(Snapshot()))
      decreases fuel, 1, 0
    {
      if |items| < 2 || items[1].SList? {
        return Err(Fault);
      }
      var name := items[1].name;
      var k := FindBinder(env, name);
      if k.None? {
        return Err(Fault);
      }
      if |items| < 3 {
        return Err(Fault);
      }
      var v := Evaluate(fuel, items[2], env);
      if v.Err? {
        return v;
      }
      frames := Write(frames, k.value, name, v.value);
      result := Ok(Unit);
    }

    /** The walk up the '**parent**' chain of eval_set: the nearest frame that binds `name`. */
    method FindBinder(env: nat, name: string) returns (k: Option<nat>)
      requires Valid() && env < |frames|
      ensures k == Nearest(frames, env, name)
    {
      var cur: nat := env;
      while true
        invariant cur < |frames|
        invariant Nearest(frames, env, name) == Nearest(frames, cur, name)
        decreases cur
      {
        if name in frames[cur].bindings {
          return Some(cur);
        }
        match frames[cur].parent
        case None =>
          return None;
        case Some(p) =>
          cur := p;
      }
    }
  }
}
