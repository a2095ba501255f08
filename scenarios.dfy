/** Concrete runs of the reader and of variable lookup, as the program's own
    unit tests exercise them (tests.py). */
module Scenarios {
  import opened Base
  import opened Syntax
  import opened Values
  import opened Environment
  import opened Reader
  import Evaluator
  import Semantics

  lemma ScanTail2()
    ensures Scan("2)", []) == ["2", ")"]
  {
    assert Scan(")", "2") == ["2", ")"];
    assert "2)"[1..] == ")" && [] + ['2'] == "2";
  }

  lemma ScanTail1()
    ensures Scan("1 2)", []) == ["1", "2", ")"]
  {
    ScanTail2();
    assert Scan(" 2)", "1") == ["1", "2", ")"];
    assert "1 2)"[1..] == " 2)" && [] + ['1'] == "1";
  }

  lemma ScanTail0()
    ensures Scan("+ 1 2)", []) == ["+", "1", "2", ")"]
  {
    ScanTail1();
    assert Scan(" 1 2)", "+") == ["+", "1", "2", ")"];
    assert "+ 1 2)"[1..] == " 1 2)" && [] + ['+'] == "+";
  }

  /** The tokens of `(+ 1 2)`: each parenthesis on its own, spaces dropped. */
  lemma TokensOfSum()
    ensures Tokenize("(+ 1 2)") == ["(", "+", "1", "2", ")"]
  {
    ScanTail0();
    assert "(+ 1 2)"[1..] == "+ 1 2)";
  }

  /** An opening parenthesis starts a new innermost list. */
  lemma ShiftOpen(stack: Stack)
    requires |stack| > 0
    ensures Shift(stack, "(") == Ok(stack + [[]])
  {
  }

  /** A word joins the innermost list. */
  lemma ShiftWord(below: Stack, top: seq<Sexp>, w: string)
    requires IsWord(w) && !EndsWithQuoteMark(top)
    ensures Shift(below + [top], w) == Ok(below + [top + [Atom(w)]])
  {
    assert w != "(" && w != ")" by { assert w[0] != '(' && w[0] != ')'; }
    assert (below + [top])[..|below|] == below;
  }

  /** A closing parenthesis attaches the innermost list to the one around it. */
  lemma ShiftClose(below: Stack, outer: seq<Sexp>, top: seq<Sexp>)
    requires !EndsWithQuoteMark(outer)
    ensures Shift(below + [outer, top], ")") == Ok(below + [outer + [SList(top)]])
  {
    var st := below + [outer, top];
    assert st[..|st| - 1] == below + [outer];
    assert (below + [outer])[..|below|] == below;
  }

  /** Feeding runs the shifts one token at a time. */
  lemma FeedStep(stack: Stack, tok: string, rest: seq<string>, next: Stack)
    requires |stack| > 0 && Shift(stack, tok) == Ok(next)
    ensures Feed(stack, [tok] + rest) == Feed(next, rest)
  {
    assert ([tok] + rest)[0] == tok && ([tok] + rest)[1..] == rest;
  }

  function SumStacks(): seq<Stack>
  {
    var a, b, c := Atom("+"), Atom("1"), Atom("2");
    [[[]], [[], []], [[], [a]], [[], [a, b]], [[], [a, b, c]], [[SList([a, b, c])]]]
  }

  /** Each token of `(+ 1 2)` takes the stack to the next one in SumStacks. */
  lemma SumShifts()
    ensures Shift(SumStacks()[0], "(") == Ok(SumStacks()[1])
    ensures Shift(SumStacks()[1], "+") == Ok(SumStacks()[2])
    ensures Shift(SumStacks()[2], "1") == Ok(SumStacks()[3])
    ensures Shift(SumStacks()[3], "2") == Ok(SumStacks()[4])
    ensures Shift(SumStacks()[4], ")") == Ok(SumStacks()[5])
  {
    var none: seq<Sexp> := [];
    var a, b, c := Atom("+"), Atom("1"), Atom("2");
    var s0: Stack := [none];
    ShiftOpen(s0);
    assert s0 + [[]] == SumStacks()[1];
    ShiftWord(s0, none, "+");
    assert none + [a] == [a];
    assert s0 + [none] == SumStacks()[1] && s0 + [none + [a]] == SumStacks()[2];
    ShiftWord(s0, [a], "1");
    assert [a] + [b] == [a, b];
    assert s0 + [[a]] == SumStacks()[2] && s0 + [[a] + [b]] == SumStacks()[3];
    ShiftWord(s0, [a, b], "2");
    assert [a, b] + [c] == [a, b, c];
    assert s0 + [[a, b]] == SumStacks()[3] && s0 + [[a, b] + [c]] == SumStacks()[4];
    ShiftClose([], none, [a, b, c]);
    assert none + [SList([a, b, c])] == [SList([a, b, c])];
    assert [] + [none, [a, b, c]] == SumStacks()[4] && [] + [none + [SList([a, b, c])]] == SumStacks()[5];
  }

  /** The stack machine turns the tokens of `(+ 1 2)` into one finished list. */
  lemma FeedSum()
    ensures Feed([[]], ["(", "+", "1", "2", ")"]) == Ok([[SList([Atom("+"), Atom("1"), Atom("2")])]])
  {
    var s := SumStacks();
    SumShifts();
    FeedStep(s[4], ")", [], s[5]);
    FeedStep(s[3], "2", [")"], s[4]);
    FeedStep(s[2], "1", ["2", ")"], s[3]);
    FeedStep(s[1], "+", ["1", "2", ")"], s[2]);
    FeedStep(s[0], "(", ["+", "1", "2", ")"], s[1]);
    assert [")"] + [] == [")"];
  }

  /** tests.py:7-8: one list, wrapped in `begin`. */
  lemma ParseSum()
    ensures ParseText("(+ 1 2)") == Ok(SList([Atom("begin"), SList([Atom("+"), Atom("1"), Atom("2")])]))
  {
    TokensOfSum();
    FeedSum();
    assert [Atom("begin")] + [SList([Atom("+"), Atom("1"), Atom("2")])]
        == [Atom("begin"), SList([Atom("+"), Atom("1"), Atom("2")])];
  }

  /** A closing parenthesis with nothing open is an error. */
  lemma ParseUnbalanced()
    ensures ParseText(")") == Err(Fault)
  {
    assert Tokenize(")") == [")"];
  }

  /** A list still open at the end of the text is dropped with what it holds. */
  lemma ParseUnclosed()
    ensures ParseText("(1") == Ok(SList([Atom("begin")]))
  {
    assert Scan("1", []) == ["1"] by { assert "1"[1..] == [] && [] + ['1'] == "1"; }
    assert Tokenize("(1") == ["(", "1"] by { assert "(1"[1..] == "1"; }
    ShiftOpen([[]]);
    ShiftWord([[]], [], "1");
    var none: seq<Sexp> := [];
    assert [none] + [none] == [none, none];
    assert none + [Atom("1")] == [Atom("1")];
    assert [none] + [none + [Atom("1")]] == [none, [Atom("1")]];
    FeedStep([[]], "(", ["1"], [[], []]);
    FeedStep([[], []], "1", [], [[], [Atom("1")]]);
    assert ["(", "1"] == ["("] + ["1"] && ["1"] == ["1"] + [];
    assert [Atom("begin")] + none == [Atom("begin")];
  }

  /** tests.py:58,68: integer spellings are primitives, not variables. */
  lemma IntegersArePrimitive()
    ensures IsPrimitive("12") && !IsVariable("33")
  {
    IntegerToken("12");
    IntegerToken("33");
  }

  /** tests.py:59: a fraction is a primitive. */
  lemma FractionIsPrimitive()
    ensures IsPrimitive("12.2")
  {
    var u := "12.2";
    assert u[0] == '1' && u[1] == '2' && u[2] == '.' && u[3] == '2';
    assert Unsigned(u) == u;
    assert ExponentAt(u) == 4 && u[..4] == u;
    assert DotAt(u) == 2;
    assert u[..2] == "12" && u[3..] == "2";
  }

  /** tests.py:60: a number with an exponent is a primitive. */
  lemma ExponentIsPrimitive()
    ensures IsPrimitive("1.2e20")
  {
    var u := "1.2e20";
    assert u[0] == '1' && u[1] == '.' && u[2] == '2' && u[3] == 'e';
    assert Unsigned(u) == u;
    assert ExponentAt(u) == 3;
    var m := u[..3];
    assert m == "1.2" && m[1] == '.';
    assert DotAt(m) == 1;
    assert m[..1] == "1" && m[2..] == "2";
    assert u[4..] == "20" && Unsigned("20") == "20";
  }

  /** tests.py:61,69: a token in double quotes is a primitive, not a variable. */
  lemma StringsArePrimitive()
    ensures IsPrimitive("\"hello world\"") && !IsVariable("\"foobar\"")
  {
  }

  /** A token that starts with anything but a digit, '.' or an exponent
      marker is not written in decimal float notation. */
  lemma NotDecimal(u: string)
    requires u != [] && !IsDigit(u[0]) && u[0] != '.' && u[0] != 'e' && u[0] != 'E'
    ensures !IsDecimalFloat(u)
  {
    var k := ExponentAt(u);
    assert k > 0;
    var m := u[..k];
    assert m[0] == u[0] && DotAt(m) > 0;
    assert m[..DotAt(m)][0] == u[0];
  }

  /** A token that starts with anything but a sign, a digit, '.', an
      exponent marker or the first letter of inf, infinity or nan is not a
      number. */
  lemma NotNumeric(u: string)
    requires u != [] && !HasSign(u) && !IsDigit(u[0]) && u[0] != '.' && u[0] != 'e' && u[0] != 'E'
    requires u[0] !in "iInN"
    ensures !IsNumber(u)
  {
    assert Unsigned(u) == u;
    assert LowerAll(u)[0] == Lower(u[0]) && Lower(u[0]) != 'i' && Lower(u[0]) != 'n';
    NotDecimal(u);
  }

  /** tests.py:63: a token that is only opened is neither number nor string. */
  lemma UnclosedStringIsNot()
    ensures !IsPrimitive("\"illgal string")
  {
    var u := "\"illgal string";
    assert u[0] == '"' && u[|u| - 1] == 'g' && |u| == 14;
    NotNumeric(u);
  }

  /** tests.py:66-67: names are variables, even one with an exponent marker inside. */
  lemma NamesAreVariables()
    ensures IsVariable("a") && IsVariable("name_name")
  {
    NotNumeric("a");
    var n := "name_name";
    assert n[0] == 'n' && |n| == 9 && !HasSign(n) && Unsigned(n) == n;
    assert |LowerAll(n)| == 9;
    NotDecimal(n);
  }

  /** The names of the pair primitives are variables, so they are looked up. */
  lemma PairNamesAreVariables()
    ensures IsVariable("car") && IsVariable("cdr") && IsVariable("cons")
  {
    NotNumeric("car");
    NotNumeric("cdr");
    NotNumeric("cons");
  }

  /** The empty program parses to `(begin)`, and evaluating that looks up
      the name `begin`: without a binding for it the result is an error. */
  lemma EmptyProgramLooksUpBegin(fuel: nat, env: nat, st: Evaluator.State)
    requires Evaluator.Wf(st) && env < |st.frames|
    ensures ParseText("") == Ok(SList([Atom("begin")]))
    ensures Evaluator.Eval(fuel + 2, SList([Atom("begin")]), env, st) == (Lookup(st.frames, env, "begin"), st)
  {
    assert Tokenize("") == [];
    assert Feed([[]], []) == Ok([[]]);
    assert [Atom("begin")] + [] == [Atom("begin")];
    Semantics.EmptyBegin(fuel + 1, env, st);
    var b := "begin";
    assert b[0] == 'b' && |b| == 5;
    NotNumeric(b);
  }

  /** tests.py:113-115: a name is found in the frame or in its parent, and
      is an error in an empty frame. */
  lemma LookupExamples()
    ensures Lookup([Frame(map["a" := Num(3)], None)], 0, "a") == Ok(Num(3))
    ensures Lookup([Frame(map["a" := Num(3)], None), Frame(map[], Some(0))], 1, "a") == Ok(Num(3))
    ensures Lookup([Frame(map[], None)], 0, "a") == Err(Unbound("a"))
  {
  }
}
