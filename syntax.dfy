/** The abstract syntax tree built by the reader, and the tests the evaluator
    applies to its atoms and lists (pyscm.py lines 67-134). */
module Syntax {
  import opened Base

  /** A parsed form: a token, or a list of forms. */
  datatype Sexp = Atom(name: string) | SList(items: seq<Sexp>)

  function Size(e: Sexp): (n: nat)
    ensures n >= 1
  {
    match e
    case Atom(_) => 1
    case SList(xs) => 1 + SizeAll(xs)
  }

  function SizeAll(es: seq<Sexp>): (n: nat)
    ensures n >= |es|
  {
    if es == [] then 0 else Size(es[0]) + SizeAll(es[1..])
  }

  lemma {:induction false} SizeAllAt(es: seq<Sexp>, i: nat)
    requires i < |es|
    ensures Size(es[i]) < 1 + SizeAll(es)
    decreases i
  {
    if i > 0 {
      SizeAllAt(es[1..], i - 1);
      assert es[1..][i - 1] == es[i];
    }
  }

  /** What Python sees when it iterates over a form: the items of a list, or
      the one-character strings of a token. */
  function Elems(e: Sexp): (r: seq<Sexp>)
    ensures e.SList? ==> r == e.items
    ensures e.Atom? ==> |r| == |e.name| && forall i :: 0 <= i < |r| ==> r[i] == Atom([e.name[i]])
  {
    match e
    case Atom(s) => seq(|s|, i requires 0 <= i < |s| => Atom([s[i]]))
    case SList(xs) => xs
  }

  /** Python's `e[i]`: an IndexError past the end. */
  function Nth(e: Sexp, i: nat): (r: Result<Sexp>)
    ensures r.Ok? <==> i < |Elems(e)|
    ensures r.Ok? ==> r.value == Elems(e)[i]
    ensures r.Err? ==> r == Err(Fault)
  {
    if i < |Elems(e)| then Ok(Elems(e)[i]) else Err(Fault)
  }

  /** Python's `e[i:]` on a list or a token. */
  function DropFirst(e: Sexp, i: nat): Sexp
  {
    match e
    case Atom(s) => Atom(if i <= |s| then s[i..] else [])
    case SList(xs) => SList(if i <= |xs| then xs[i..] else [])
  }

  /** is_tagged_list: a non-empty list whose first element is the token `tag`. */
  predicate IsTagged(e: Sexp, tag: string)
  {
    e.SList? && |e.items| > 0 && e.items[0] == Atom(tag)
  }

  // ---------------------------------------------------------------------
  // Numbers: is_number asks whether Python's float() accepts the token.

  predicate IsDigit(c: char) { '0' <= c <= '9' }

  predicate AllDigits(s: string)
  {
    forall i :: 0 <= i < |s| ==> IsDigit(s[i])
  }

  predicate HasSign(s: string) { |s| > 0 && (s[0] == '+' || s[0] == '-') }

  function Unsigned(s: string): string
  {
    if HasSign(s) then s[1..] else s
  }

  function Lower(c: char): char
  {
    if 'A' <= c <= 'Z' then (c as int + 32) as char else c
  }

  function LowerAll(s: string): (r: string)
    ensures |r| == |s|
  {
    seq(|s|, i requires 0 <= i < |s| => Lower(s[i]))
  }

  /** The spellings of infinity and not-a-number that float() accepts. */
  predicate IsSpecialFloat(u: string)
  {
    var l := LowerAll(u);
    l == "inf" || l == "infinity" || l == "nan"
  }

  /** Index of the first exponent marker, or |s| when there is none. */
  function ExponentAt(s: string): (k: nat)
    ensures k <= |s|
    ensures forall i :: 0 <= i < k ==> s[i] != 'e' && s[i] != 'E'
    ensures k < |s| ==> s[k] == 'e' || s[k] == 'E'
  {
    if s == [] then 0
    else if s[0] == 'e' || s[0] == 'E' then 0
    else 1 + ExponentAt(s[1..])
  }

  /** Index of the first '.', or |s| when there is none. */
  function DotAt(s: string): (k: nat)
    ensures k <= |s|
    ensures forall i :: 0 <= i < k ==> s[i] != '.'
    ensures k < |s| ==> s[k] == '.'
  {
    if s == [] then 0
    else if s[0] == '.' then 0
    else 1 + DotAt(s[1..])
  }

  /** digits, digits '.', digits '.' digits, or '.' digits. */
  predicate IsMantissa(m: string)
  {
    var k := DotAt(m);
    var whole := m[..k];
    var frac := if k < |m| then m[k + 1..] else [];
    AllDigits(whole) && AllDigits(frac) && |whole| + |frac| > 0
  }

  predicate IsExponent(x: string)
  {
    var u := Unsigned(x);
    |u| > 0 && AllDigits(u)
  }

  predicate IsDecimalFloat(u: string)
  {
    var k := ExponentAt(u);
    IsMantissa(u[..k]) && (k == |u| || IsExponent(u[k + 1..]))
  }

  /** is_number (pyscm.py:69-75): float(exp) succeeds. */
  predicate IsNumber(s: string)
  {
    var u := Unsigned(s);
    IsSpecialFloat(u) || IsDecimalFloat(u)
  }

  /** is_string (pyscm.py:77-80): first and last characters are double quotes.
      A token of one '"' qualifies. */
  predicate IsString(s: string)
    requires s != []
  {
    s[0] == '"' && s[|s| - 1] == '"'
  }

  /** is_primitive (pyscm.py:82-90) on a token; on "" the Python code raises
      (is_string indexes into it), so it is asked only of non-empty tokens. */
  predicate IsPrimitive(s: string)
    requires s != []
  {
    IsNumber(s) || IsString(s)
  }

  /** is_variable (pyscm.py:96-98) on a non-empty token. */
  predicate IsVariable(s: string)
    requires s != []
  {
    !IsPrimitive(s)
  }

  function DigitValue(c: char): nat
    requires IsDigit(c)
  {
    c as int - '0' as int
  }

  /** The value of a digit string read in base `radix`. */
  function DigitsValue(ds: string, radix: nat): nat
    requires AllDigits(ds)
  {
    if ds == [] then 0
    else DigitsValue(ds[..|ds| - 1], radix) * radix + DigitValue(ds[|ds| - 1])
  }

  function Pow(b: nat, n: nat): nat
  {
    if n == 0 then 1 else b * Pow(b, n - 1)
  }

  /** Appending a digit shifts the value one place and adds the digit. */
  lemma DigitsValueAppend(ds: string, d: char, radix: nat)
    requires AllDigits(ds) && IsDigit(d)
    ensures AllDigits(ds + [d])
    ensures DigitsValue(ds + [d], radix) == DigitsValue(ds, radix) * radix + DigitValue(d)
  {
    assert (ds + [d])[..|ds|] == ds;
  }

  /** Place value: the digits of `a` count `|b|` places higher in `a + b`. */
  lemma {:induction false} DigitsValueConcat(a: string, b: string, radix: nat)
    requires AllDigits(a) && AllDigits(b)
    ensures AllDigits(a + b)
    ensures DigitsValue(a + b, radix) == DigitsValue(a, radix) * Pow(radix, |b|) + DigitsValue(b, radix)
    decreases |b|
  {
    AllDigitsConcat(a, b);
    if b == [] {
      assert a + b == a;
    } else {
      var front, d := b[..|b| - 1], b[|b| - 1];
      assert AllDigits(front);
      assert a + b == (a + front) + [d] && b == front + [d];
      DigitsValueConcat(a, front, radix);
      DigitsValueAppend(a + front, d, radix);
      DigitsValueAppend(front, d, radix);
      assert Pow(radix, |b|) == radix * Pow(radix, |front|);
      Regroup(DigitsValue(a, radix), Pow(radix, |front|), DigitsValue(front, radix), radix, DigitValue(d));
    }
  }

  lemma AllDigitsConcat(a: string, b: string)
    requires AllDigits(a) && AllDigits(b)
    ensures AllDigits(a + b)
  {
    forall i | 0 <= i < |a + b| ensures IsDigit((a + b)[i]) {
      if i >= |a| {
        assert (a + b)[i] == b[i - |a|];
      }
    }
  }

  lemma Regroup(x: int, p: int, y: int, r: int, d: int)
    ensures (x * p + y) * r + d == x * (r * p) + (y * r + d)
  {
  }

  /** Leading zeros do not change the value, in any base. */
  lemma LeadingZero(ds: string, radix: nat)
    requires AllDigits(ds)
    ensures AllDigits("0" + ds)
    ensures DigitsValue("0" + ds, radix) == DigitsValue(ds, radix)
  {
    assert DigitsValue("0", radix) == 0 by { assert "0"[..0] == ""; }
    DigitsValueConcat("0", ds, radix);
  }

  function Signed(negative: bool, n: nat): int
  {
    if negative then -(n as int) else n
  }

  /** Python 2 reads a multi-digit integer literal with a leading zero as octal. */
  predicate IsOctalLiteral(ds: string) { |ds| > 1 && ds[0] == '0' }

  /** Digits never spell infinity or not-a-number. */
  lemma DigitsNotSpecial(u: string)
    ensures AllDigits(u) ==> !IsSpecialFloat(u)
  {
    if AllDigits(u) && u != [] {
      assert LowerAll(u)[0] == u[0];
    }
  }

  /** eval() of a token that is_number accepts (pyscm.py:266-267), as Python 2
      reads it: integer literals become integers (octal after a leading zero, a
      SyntaxError on 8 or 9 there); a float literal is outside the model; inf
      and nan are not Python names, so eval raises. */
  function NumeralValue(s: string): (r: Result<int>)
    requires IsNumber(s)
    ensures r.Ok? ==> AllDigits(Unsigned(s))
    ensures IsSpecialFloat(Unsigned(s)) ==> r == Err(Fault)
    ensures !IsSpecialFloat(Unsigned(s)) && !AllDigits(Unsigned(s)) ==> r == Err(Unmodelled)
    ensures AllDigits(Unsigned(s)) && IsOctalLiteral(Unsigned(s)) ==>
      (r.Err? <==> exists i :: 0 <= i < |Unsigned(s)| && (Unsigned(s)[i] == '8' || Unsigned(s)[i] == '9'))
    ensures AllDigits(Unsigned(s)) && r.Ok? ==>
      r.value == Signed(HasSign(s) && s[0] == '-', DigitsValue(Unsigned(s), if IsOctalLiteral(Unsigned(s)) then 8 else 10))
    ensures AllDigits(Unsigned(s)) && !IsOctalLiteral(Unsigned(s)) ==> r.Ok?
  {
    var u := Unsigned(s);
    DigitsNotSpecial(u);
    var negative := HasSign(s) && s[0] == '-';
    if IsSpecialFloat(u) then Err(Fault)
    else if !AllDigits(u) then Err(Unmodelled)
    else if IsOctalLiteral(u) then
      if exists i :: 0 <= i < |u| && (u[i] == '8' || u[i] == '9') then Err(Fault)
      else Ok(Signed(negative, DigitsValue(u, 8)))
    else Ok(Signed(negative, DigitsValue(u, 10)))
  }

  /** A token of digits, with or without a sign, is a number and no spelling
      of infinity or not-a-number. */
  lemma IntegerToken(s: string)
    requires Unsigned(s) != [] && AllDigits(Unsigned(s))
    ensures IsNumber(s) && !IsSpecialFloat(Unsigned(s)) && !IsString(s)
  {
    var u := Unsigned(s);
    assert ExponentAt(u) == |u|;
    assert u[..|u|] == u;
    assert DotAt(u) == |u|;
    assert LowerAll(u)[0] == u[0];
  }

  /** Python's str.strip('"'): drops every leading and trailing double quote. */
  function StripQuotes(s: string): (r: string)
    ensures |r| <= |s|
    ensures r != [] ==> r[0] != '"' && r[|r| - 1] != '"'
    ensures forall i :: 0 <= i < |r| ==> r[i] in s
    ensures StrippedFrom(s, r)
    decreases |s|
  {
    if s == [] then
      StrippedWhole(s);
      []
    else if s[0] == '"' then
      var r := StripQuotes(s[1..]);
      StrippedFront(s, r);
      r
    else if s[|s| - 1] == '"' then
      var r := StripQuotes(s[..|s| - 1]);
      StrippedBack(s, r);
      r
    else
      StrippedWhole(s);
      s
  }

  /** `r` is `s` with some double quotes cut from either end. */
  predicate StrippedFrom(s: string, r: string)
  {
    exists i, j :: 0 <= i <= j <= |s| && r == s[i..j] && QuotesOutside(s, i, j)
  }

  /** Every character of `s` before index `i` or from index `j` on is a double quote. */
  predicate QuotesOutside(s: string, i: nat, j: nat)
  {
    forall m :: 0 <= m < |s| && (m < i || j <= m) ==> s[m] == '"'
  }

  lemma StrippedWhole(s: string)
    ensures StrippedFrom(s, s)
  {
    assert s == s[0..|s|] && QuotesOutside(s, 0, |s|);
  }

  lemma StrippedFront(s: string, r: string)
    requires s != [] && s[0] == '"' && StrippedFrom(s[1..], r)
    ensures StrippedFrom(s, r)
  {
    var i, j :| 0 <= i <= j <= |s[1..]| && r == s[1..][i..j] && QuotesOutside(s[1..], i, j);
    assert r == s[i + 1..j + 1];
    forall m | 0 <= m < |s| && (m < i + 1 || j + 1 <= m) ensures s[m] == '"' {
      if m > 0 {
        assert s[m] == s[1..][m - 1];
      }
    }
    assert QuotesOutside(s, i + 1, j + 1);
  }

  lemma StrippedBack(s: string, r: string)
    requires s != [] && s[|s| - 1] == '"' && StrippedFrom(s[..|s| - 1], r)
    ensures StrippedFrom(s, r)
  {
    var p := s[..|s| - 1];
    var i, j :| 0 <= i <= j <= |p| && r == p[i..j] && QuotesOutside(p, i, j);
    assert r == s[i..j];
    forall m | 0 <= m < |s| && (m < i || j <= m) ensures s[m] == '"' {
      if m < |s| - 1 {
        assert s[m] == p[m];
      }
    }
    assert QuotesOutside(s, i, j);
  }
}
