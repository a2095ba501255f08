/** The reader (pyscm.py:16-41): a scanner that splits text into tokens and a
    stack machine that folds the tokens into nested lists, rewriting the quote
    mark and wrapping the top-level forms in `begin`. */
module Reader {
  import opened Base
  import opened Syntax

  // ---------------------------------------------------------------------
  // Scanner: what re.split(r'(\s|\(|\)|\')') followed by dropping the
  // blank pieces produces.

  /** Python's `\s` on byte strings: space, tab, newline, return, vertical tab, form feed. */
  predicate IsSpace(c: char)
  {
    c == ' ' || c == '\t' || c == '\n' || c == '\r' || c == '\U{0B}' || c == '\U{0C}'
  }

  predicate IsDelimiter(c: char) { c == '(' || c == ')' || c == '\'' }

  predicate IsSeparator(c: char) { IsSpace(c) || IsDelimiter(c) }

  /** A token that is neither a delimiter nor contains one or whitespace. */
  predicate IsWord(t: string)
  {
    |t| > 0 && forall i :: 0 <= i < |t| ==> !IsSeparator(t[i])
  }

  predicate IsToken(t: string)
  {
    IsWord(t) || (|t| == 1 && IsDelimiter(t[0]))
  }

  function Flush(word: string): (r: seq<string>)
    ensures |r| <= 1
  {
    if word == [] then [] else [word]
  }

  /** Scans `s` with the characters of an unfinished word in `word`. */
  function Scan(s: string, word: string): (r: seq<string>)
    requires word == [] || IsWord(word)
    ensures forall i :: 0 <= i < |r| ==> IsToken(r[i])
    decreases |s|
  {
    if s == [] then Flush(word)
    else if IsSpace(s[0]) then Flush(word) + Scan(s[1..], [])
    else if IsDelimiter(s[0]) then Flush(word) + [[s[0]]] + Scan(s[1..], [])
    else Scan(s[1..], word + [s[0]])
  }

  function Tokenize(code: string): (r: seq<string>)
    ensures forall i :: 0 <= i < |r| ==> IsToken(r[i])
  {
    Scan(code, [])
  }

  /** A whitespace or delimiter character cuts the text in two: the tokens of
      the whole are those of the left part, the delimiter itself, and those of
      the right part. */
  lemma {:induction false} ScanSplit(a: string, c: char, b: string, word: string)
    requires word == [] || IsWord(word)
    requires IsSeparator(c)
    ensures Scan(a + [c] + b, word) == Scan(a, word) + Scan([c], []) + Scan(b, [])
    decreases |a|, 1
  {
    if a == [] {
      assert a + [c] + b == [c] + b;
      ScanAtSeparator(c, b, word);
    } else if IsSeparator(a[0]) {
      ScanSplitAfterSeparator(a, c, b, word);
    } else {
      var s := a + [c] + b;
      assert s[0] == a[0];
      assert s[1..] == a[1..] + [c] + b;
      assert IsWord(word + [a[0]]);
      ScanSplit(a[1..], c, b, word + [a[0]]);
    }
  }

  lemma {:induction false} ScanSplitAfterSeparator(a: string, c: char, b: string, word: string)
    requires word == [] || IsWord(word)
    requires IsSeparator(c) && a != [] && IsSeparator(a[0])
    ensures Scan(a + [c] + b, word) == Scan(a, word) + Scan([c], []) + Scan(b, [])
    decreases |a|, 0
  {
    var s := a + [c] + b;
    FrontOfJoin(a, c, b);
    ScanSplit(a[1..], c, b, []);
    ScanAtFront(s, word);
    ScanAtFront(a, word);
    Regroup(Flush(word) + (if IsSpace(a[0]) then [] else [[a[0]]]), Scan(a[1..], []), Scan([c], []), Scan(b, []));
  }

  lemma FrontOfJoin(a: string, c: char, b: string)
    requires a != []
    ensures (a + [c] + b)[0] == a[0] && (a + [c] + b)[1..] == a[1..] + [c] + b
  {
  }

  lemma Regroup<T>(h: seq<T>, x: seq<T>, y: seq<T>, z: seq<T>)
    ensures h + (x + y + z) == (h + x) + y + z
  {
  }

  /** Scanning past a leading separator: the word so far, the separator when
      it is a delimiter, then the tokens of the rest. */
  lemma ScanAtFront(s: string, word: string)
    requires word == [] || IsWord(word)
    requires s != [] && IsSeparator(s[0])
    ensures Scan(s, word) == Flush(word) + (if IsSpace(s[0]) then [] else [[s[0]]]) + Scan(s[1..], [])
  {
  }

  /** A separator at the front ends the unfinished word. */
  lemma ScanAtSeparator(c: char, b: string, word: string)
    requires word == [] || IsWord(word)
    requires IsSeparator(c)
    ensures Scan([c] + b, word) == Flush(word) + Scan([c], []) + Scan(b, [])
  {
    assert ([c] + b)[0] == c && ([c] + b)[1..] == b;
    ScanSeparator(c);
  }

  lemma ScanSeparator(c: char)
    requires IsSeparator(c)
    ensures Scan([c], []) == if IsSpace(c) then [] else [[c]]
  {
    assert [c][1..] == [];
    assert Scan([], []) == [];
  }

  /** Whitespace separates tokens and is otherwise invisible. */
  lemma TokenizeAtSpace(a: string, w: char, b: string)
    requires IsSpace(w)
    ensures Tokenize(a + [w] + b) == Tokenize(a) + Tokenize(b)
  {
    ScanSplit(a, w, b, []);
    ScanSeparator(w);
  }

  /** A delimiter is a token of its own whatever surrounds it. */
  lemma TokenizeAtDelimiter(a: string, d: char, b: string)
    requires IsDelimiter(d)
    ensures Tokenize(a + [d] + b) == Tokenize(a) + [[d]] + Tokenize(b)
  {
    ScanSplit(a, d, b, []);
    ScanSeparator(d);
  }

  /** Cutting the text between `a` and `b` falls between tokens: one side is
      empty, or a separator stands next to the cut. */
  predicate Boundary(a: string, b: string)
  {
    a == [] || b == [] || IsSeparator(a[|a| - 1]) || IsSeparator(b[0])
  }

  /** At a token boundary the text tokenizes as its two parts do. */
  lemma TokenizeAtBoundary(a: string, b: string)
    requires Boundary(a, b)
    ensures Tokenize(a + b) == Tokenize(a) + Tokenize(b)
  {
    assert Tokenize([]) == [];
    if a == [] {
      assert a + b == b;
    } else if b == [] {
      assert a + b == a;
    } else if IsSeparator(a[|a| - 1]) {
      var front, c := a[..|a| - 1], a[|a| - 1];
      assert a + b == front + [c] + b && a == front + [c] + [];
      ScanSplit(front, c, b, []);
      ScanSplit(front, c, [], []);
    } else {
      var c, rest := b[0], b[1..];
      assert a + b == a + [c] + rest && b == [] + [c] + rest;
      ScanSplit(a, c, rest, []);
      ScanSplit([], c, rest, []);
    }
  }

  /** The characters of a word accumulate into one token. */
  lemma {:induction false} ScanWord(t: string, word: string)
    requires word == [] || IsWord(word)
    requires forall i :: 0 <= i < |t| ==> !IsSeparator(t[i])
    ensures Scan(t, word) == Flush(word + t)
    decreases |t|
  {
    if t == [] {
      assert word + t == word;
    } else {
      assert IsWord(word + [t[0]]);
      ScanWord(t[1..], word + [t[0]]);
      assert word + [t[0]] + t[1..] == word + t;
    }
  }

  lemma TokenizeToken(t: string)
    requires IsToken(t)
    ensures Tokenize(t) == [t]
  {
    if IsWord(t) {
      ScanWord(t, []);
      assert [] + t == t;
    } else {
      assert t == [t[0]];
      ScanSeparator(t[0]);
    }
  }

  /** Tokens written out with one space between neighbours. */
  function Unwords(toks: seq<string>): string
  {
    if toks == [] then []
    else if |toks| == 1 then toks[0]
    else toks[0] + " " + Unwords(toks[1..])
  }

  /** Scanning undoes writing the tokens out. */
  lemma {:induction false} TokenizeUnwords(toks: seq<string>)
    requires forall i :: 0 <= i < |toks| ==> IsToken(toks[i])
    ensures Tokenize(Unwords(toks)) == toks
  {
    if toks == [] {
    } else if |toks| == 1 {
      TokenizeToken(toks[0]);
    } else {
      TokenizeAtSpace(toks[0], ' ', Unwords(toks[1..]));
      assert toks[0] + " " + Unwords(toks[1..]) == toks[0] + [' '] + Unwords(toks[1..]);
      TokenizeToken(toks[0]);
      TokenizeUnwords(toks[1..]);
    }
  }

  // ---------------------------------------------------------------------
  // The stack of open lists (pyscm.py:20-38).

  type Stack = seq<seq<Sexp>>

  const QuoteMark := Atom("'")

  /** `ast[-1] and ast[-1][-1] == "'"`: the open list ends with a pending quote mark. */
  predicate EndsWithQuoteMark(l: seq<Sexp>)
  {
    |l| > 0 && l[|l| - 1] == QuoteMark
  }

  /** Appends a finished element to the open list; a pending quote mark is
      replaced by `(quote x)` instead. */
  function Attach(top: seq<Sexp>, x: Sexp): (r: seq<Sexp>)
    ensures !EndsWithQuoteMark(top) ==> r == top + [x]
    ensures EndsWithQuoteMark(top) ==>
      |r| == |top| && r[..|r| - 1] == top[..|top| - 1] && r[|r| - 1] == SList([Atom("quote"), x])
  {
    if EndsWithQuoteMark(top) then top[..|top| - 1] + [SList([Atom("quote"), x])]
    else top + [x]
  }

  /** One token's effect on the stack. A `)` with no open list fails when the
      Python code indexes the emptied stack. */
  function Shift(stack: Stack, tok: string): (r: Result<Stack>)
    requires |stack| > 0
    ensures r.Ok? ==> |r.value| > 0
    ensures r.Err? <==> tok == ")" && |stack| == 1
  {
    if tok == "(" then Ok(stack + [[]])
    else if tok == ")" then
      if |stack| == 1 then Err(Fault)
      else
        var lst := stack[|stack| - 1];
        var rest := stack[..|stack| - 1];
        Ok(rest[..|rest| - 1] + [Attach(rest[|rest| - 1], SList(lst))])
    else Ok(stack[..|stack| - 1] + [Attach(stack[|stack| - 1], Atom(tok))])
  }

  /** The stack after all of `toks`, or the failure of the first bad token. */
  function Feed(stack: Stack, toks: seq<string>): (r: Result<Stack>)
    requires |stack| > 0
    ensures r.Ok? ==> |r.value| > 0
    decreases |toks|
  {
    if toks == [] then Ok(stack)
    else match Shift(stack, toks[0])
      case Err(e) => Err(e)
      case Ok(s) => Feed(s, toks[1..])
  }

  /** Lists still open at the end are dropped with everything in them: only
      the bottom of the stack is kept. */
  function ParseTokens(toks: seq<string>): (r: Result<Sexp>)
    ensures r.Ok? ==> r.value.SList? && r.value.items != [] && r.value.items[0] == Atom("begin")
    ensures r.Ok? <==> Feed([[]], toks).Ok?
  {
    match Feed([[]], toks)
    case Err(e) => Err(e)
    case Ok(s) => Ok(SList([Atom("begin")] + s[0]))
  }

  /** The whole program as one (begin ...) form. */
  function ParseText(code: string): (r: Result<Sexp>)
    ensures r.Ok? ==> r.value.SList? && r.value.items != [] && r.value.items[0] == Atom("begin")
  {
    ParseTokens(Tokenize(code))
  }

  /** parse (pyscm.py:16-41). */
  method Parse(code: string) returns (r: Result<Sexp>)
    ensures r == ParseText(code)
  {
    var pieces := Tokenize(code);
    var ast: Stack := [[]];
    var i := 0;
    while i < |pieces|
      invariant 0 <= i <= |pieces| && |ast| > 0
      invariant Feed([[]], pieces) == Feed(ast, pieces[i..])
    {
      var p := pieces[i];
      assert pieces[i..][0] == p && pieces[i..][1..] == pieces[i + 1..];
      if p == "(" {
        ast := ast + [[]];
      } else if p == ")" {
        var lst := ast[|ast| - 1];
        ast := ast[..|ast| - 1];
        if ast == [] {
          return Err(Fault);
        }
        ast := ast[..|ast| - 1] + [Attach(ast[|ast| - 1], SList(lst))];
      } else {
        ast := ast[..|ast| - 1] + [Attach(ast[|ast| - 1], Atom(p))];
      }
      i := i + 1;
    }
    assert pieces[i..] == [];
    r := Ok(SList([Atom("begin")] + ast[0]));
  }

  // ---------------------------------------------------------------------
  // Printing forms back as text, and reading them again.

  /** A form the printer can write: every token is a word. */
  predicate IsDatum(e: Sexp)
    decreases Size(e), 1
  {
    match e
    case Atom(s) => IsWord(s)
    case SList(xs) => AllData(xs)
  }

  predicate AllData(es: seq<Sexp>)
    decreases SizeAll(es), 2
  {
    es == [] || (IsDatum(es[0]) && AllData(es[1..]))
  }

  lemma {:induction false} AllDataAt(es: seq<Sexp>, i: nat)
    requires AllData(es) && i < |es|
    ensures IsDatum(es[i])
    decreases i
  {
    if i > 0 {
      AllDataAt(es[1..], i - 1);
      assert es[1..][i - 1] == es[i];
    }
  }

  predicate IsQuoteForm(e: Sexp)
  {
    e.SList? && |e.items| == 2 && e.items[0] == Atom("quote")
  }

  /** Whether the printer writes `(quote x)` as `'x`; it does so only when x
      is not itself written with a leading quote mark. */
  predicate Sugared(e: Sexp, sugar: bool)
  {
    sugar && IsQuoteForm(e) && !IsQuoteForm(e.items[1])
  }

  function Tokens(e: Sexp, sugar: bool): seq<string>
    decreases Size(e), 1
  {
    match e
    case Atom(s) => [s]
    case SList(xs) =>
      if Sugared(e, sugar) then
        SizeAllAt(xs, 1);
        ["'"] + Tokens(xs[1], sugar)
      else ["("] + TokensAll(xs, sugar) + [")"]
  }

  function TokensAll(es: seq<Sexp>, sugar: bool): seq<string>
    decreases SizeAll(es), 2
  {
    if es == [] then [] else Tokens(es[0], sugar) + TokensAll(es[1..], sugar)
  }

  lemma {:induction false} TokensValid(e: Sexp, sugar: bool)
    requires IsDatum(e)
    ensures forall i :: 0 <= i < |Tokens(e, sugar)| ==> IsToken(Tokens(e, sugar)[i])
    decreases Size(e), 1
  {
    match e
    case Atom(s) =>
    case SList(xs) =>
      if Sugared(e, sugar) {
        AllDataAt(xs, 1);
        SizeAllAt(xs, 1);
        TokensValid(xs[1], sugar);
      } else {
        TokensAllValid(xs, sugar);
      }
  }

  lemma {:induction false} TokensAllValid(es: seq<Sexp>, sugar: bool)
    requires AllData(es)
    ensures forall i :: 0 <= i < |TokensAll(es, sugar)| ==> IsToken(TokensAll(es, sugar)[i])
    decreases SizeAll(es), 2
  {
    if es != [] {
      TokensValid(es[0], sugar);
      TokensAllValid(es[1..], sugar);
    }
  }

  /** A word token is attached to the open list. */
  lemma FeedWord(stack: Stack, cur: seq<Sexp>, w: string, rest: seq<string>)
    requires IsWord(w)
    ensures Feed(stack + [cur], [w] + rest) == Feed(stack + [Attach(cur, Atom(w))], rest)
  {
    assert ([w] + rest)[0] == w && ([w] + rest)[1..] == rest;
    assert w != "(" && w != ")" by { assert w[0] != '(' && w[0] != ')'; }
    assert (stack + [cur])[..|stack + [cur]| - 1] == stack;
  }

  /** A parenthesised run of data is attached to the open list as one list. */
  lemma {:induction false} FeedClosed(stack: Stack, cur: seq<Sexp>, xs: seq<Sexp>, rest: seq<string>, sugar: bool)
    requires AllData(xs)
    ensures Feed(stack + [cur], ["("] + TokensAll(xs, sugar) + [")"] + rest)
         == Feed(stack + [Attach(cur, SList(xs))], rest)
    decreases SizeAll(xs), 3
  {
    var open := stack + [cur];
    assert ["("] + TokensAll(xs, sugar) + [")"] + rest == ["("] + (TokensAll(xs, sugar) + ([")"] + rest));
    assert Feed(open, ["("] + (TokensAll(xs, sugar) + ([")"] + rest)))
        == Feed(open + [[]], TokensAll(xs, sugar) + ([")"] + rest));
    FeedAll(open, [], xs, [")"] + rest, sugar);
    assert [] + xs == xs;
    var st2 := open + [xs];
    assert st2[..|st2| - 1] == open;
    assert open[..|open| - 1] == stack;
  }

  /** The tokens of one datum add exactly that datum to the open list. */
  lemma {:induction false} FeedDatum(stack: Stack, cur: seq<Sexp>, e: Sexp, rest: seq<string>, sugar: bool)
    requires IsDatum(e) && !EndsWithQuoteMark(cur)
    ensures Feed(stack + [cur], Tokens(e, sugar) + rest) == Feed(stack + [cur + [e]], rest)
    decreases Size(e), 1
  {
    match e
    case Atom(s) =>
      FeedWord(stack, cur, s, rest);
    case SList(xs) =>
      if Sugared(e, sugar) {
        var x := xs[1];
        AllDataAt(xs, 1);
        SizeAllAt(xs, 1);
        var marked := cur + [QuoteMark];
        assert Tokens(e, sugar) + rest == ["'"] + (Tokens(x, sugar) + rest);
        assert (stack + [cur])[..|stack + [cur]| - 1] == stack;
        assert Feed(stack + [cur], Tokens(e, sugar) + rest) == Feed(stack + [marked], Tokens(x, sugar) + rest);
        assert xs == [Atom("quote"), x];
        assert Attach(marked, x) == cur + [e];
        match x
        case Atom(w) =>
          FeedWord(stack, marked, w, rest);
        case SList(ys) =>
          FeedClosed(stack, marked, ys, rest, sugar);
      } else {
        FeedClosed(stack, cur, xs, rest, sugar);
      }
  }

  /** The tokens of a run of data add exactly those data to the open list. */
  lemma {:induction false} FeedAll(stack: Stack, cur: seq<Sexp>, es: seq<Sexp>, rest: seq<string>, sugar: bool)
    requires AllData(es) && !EndsWithQuoteMark(cur)
    ensures Feed(stack + [cur], TokensAll(es, sugar) + rest) == Feed(stack + [cur + es], rest)
    decreases SizeAll(es), 2
  {
    if es == [] {
      assert cur + es == cur;
      assert TokensAll(es, sugar) + rest == rest;
    } else {
      assert TokensAll(es, sugar) + rest == Tokens(es[0], sugar) + (TokensAll(es[1..], sugar) + rest);
      FeedDatum(stack, cur, es[0], TokensAll(es[1..], sugar) + rest, sugar);
      FeedAll(stack, cur + [es[0]], es[1..], rest, sugar);
      assert cur + [es[0]] + es[1..] == cur + es;
    }
  }

  /** The text a list of top-level forms is printed as; with `sugar`, quote
      forms are written with the `'` prefix. */
  function Print(forms: seq<Sexp>, sugar: bool): string
  {
    Unwords(TokensAll(forms, sugar))
  }

  /** Parsing printed forms gives `begin` followed by those forms in order,
      whether quote forms were written `(quote x)` or `'x`. */
  lemma ParsePrint(forms: seq<Sexp>, sugar: bool)
    requires AllData(forms)
    ensures ParseText(Print(forms, sugar)) == Ok(SList([Atom("begin")] + forms))
  {
    TokensAllValid(forms, sugar);
    TokenizeUnwords(TokensAll(forms, sugar));
    FeedAll([], [], forms, [], sugar);
    assert TokensAll(forms, sugar) == Tokenize(Print(forms, sugar));
    assert TokensAll(forms, sugar) + [] == TokensAll(forms, sugar);
    var empty: Stack := [];
    assert empty + [[]] == [[]];
    assert [] + forms == forms;
  }

  /** Writing a quote form with the prefix or in full makes no difference. */
  lemma QuoteSugarInvisible(forms: seq<Sexp>)
    requires AllData(forms)
    ensures ParseText(Print(forms, true)) == ParseText(Print(forms, false))
  {
    ParsePrint(forms, true);
    ParsePrint(forms, false);
  }

  /** Whitespace added at a token boundary leaves the parse unchanged. */
  lemma ParseWhitespaceAtBoundary(a: string, w: char, b: string)
    requires IsSpace(w) && Boundary(a, b)
    ensures ParseText(a + [w] + b) == ParseText(a + b)
  {
    TokenizeAtSpace(a, w, b);
    TokenizeAtBoundary(a, b);
  }

  /** A second whitespace character next to one changes nothing: the
      special case of a boundary that ends in whitespace. */
  lemma ParseExtraWhitespace(a: string, w1: char, w2: char, b: string)
    requires IsSpace(w1) && IsSpace(w2)
    ensures ParseText(a + [w1, w2] + b) == ParseText(a + [w1] + b)
  {
    assert a + [w1, w2] + b == (a + [w1]) + [w2] + b;
    ParseWhitespaceAtBoundary(a + [w1], w2, b);
  }
}
