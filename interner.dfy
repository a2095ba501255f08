/** Symbols and booleans (pyscm.py:235-260). A Symbol is an object compared by
    identity; the table hands out one object per name. Identity is modelled by
    the `id` the table assigns when it first creates a symbol. */
module Interner {

  datatype Symbol = Symbol(id: nat, name: string)

  /** The name -> Symbol dictionary of make_symbol, with the next unused identity. */
  datatype Table = Table(symbols: map<string, Symbol>, count: nat)
  {
    /** Each entry carries its own name and an identity no other entry has. */
    ghost predicate Valid()
    {
      && (forall n | n in symbols :: symbols[n].name == n && symbols[n].id < count)
      && (forall a, b | a in symbols && b in symbols && a != b :: symbols[a].id != symbols[b].id)
    }
  }

  const EmptyTable := Table(map[], 0)

  /** `t2` keeps every entry of `t1`: the table only gains entries. */
  ghost predicate Extends(t1: Table, t2: Table)
  {
    && t1.count <= t2.count
    && forall n | n in t1.symbols :: n in t2.symbols && t2.symbols[n] == t1.symbols[n]
  }

  /** make_symbol (pyscm.py:246-253). */
  function Intern(t: Table, name: string): (r: (Symbol, Table))
    ensures name in r.1.symbols && r.1.symbols[name] == r.0
    ensures Extends(t, r.1)
    ensures t.Valid() ==> r.1.Valid() && r.0.name == name
    ensures name in t.symbols ==> r.1 == t
    ensures name !in t.symbols ==> r.1.symbols.Keys == t.symbols.Keys + {name}
  {
    if name in t.symbols then (t.symbols[name], t)
    else
      var s := Symbol(t.count, name);
      (s, Table(t.symbols[name := s], t.count + 1))
  }

  /** make_boolean (pyscm.py:255-260): the symbols named #t and #f. */
  function MakeBoolean(t: Table, b: bool): (r: (Symbol, Table))
    ensures var name := if b then "#t" else "#f";
      && name in r.1.symbols && r.1.symbols[name] == r.0
      && Extends(t, r.1) && (t.Valid() ==> r.1.Valid() && r.0.name == name)
  {
    Intern(t, if b then "#t" else "#f")
  }

  lemma ExtendsTransitive(t1: Table, t2: Table, t3: Table)
    requires Extends(t1, t2) && Extends(t2, t3)
    ensures Extends(t1, t3)
  {
  }

  /** Asking again for a name gives back the identical symbol and leaves the table alone. */
  lemma InternAgain(t: Table, name: string)
    ensures var (s, t1) := Intern(t, name); Intern(t1, name) == (s, t1)
  {
  }

  /** Once a name is interned, later interning of any names keeps its symbol. */
  lemma InternKeeps(t: Table, name: string, later: seq<string>)
    ensures var (s, t1) := Intern(t, name); Intern(InternAll(t1, later), name).0 == s
  {
    var (s, t1) := Intern(t, name);
    InternAllExtends(t1, later);
  }

  /** The table after interning each of `names` in turn. */
  function InternAll(t: Table, names: seq<string>): Table
    decreases |names|
  {
    if names == [] then t else InternAll(Intern(t, names[0]).1, names[1..])
  }

  lemma {:induction false} InternAllExtends(t: Table, names: seq<string>)
    ensures Extends(t, InternAll(t, names))
    decreases |names|
  {
    if names != [] {
      var t1 := Intern(t, names[0]).1;
      InternAllExtends(t1, names[1..]);
      ExtendsTransitive(t, t1, InternAll(t1, names[1..]));
    }
  }

  /** Distinct names never share a symbol: interning two different names, in
      either order and in a valid table, gives symbols with different identities. */
  lemma InternDistinct(t: Table, a: string, b: string)
    requires t.Valid() && a != b
    ensures var (sa, t1) := Intern(t, a); var (sb, t2) := Intern(t1, b); sa.id != sb.id
  {
    var (sa, t1) := Intern(t, a);
    var (sb, t2) := Intern(t1, b);
    assert t2.symbols[a] == sa;
  }

  /** In a valid table, two entries are the same symbol exactly when they are
      entries for the same name. */
  lemma SameSymbolSameName(t: Table, a: string, b: string)
    requires t.Valid() && a in t.symbols && b in t.symbols
    ensures t.symbols[a] == t.symbols[b] <==> a == b
    ensures t.symbols[a].id == t.symbols[b].id <==> a == b
  {
  }

  /** The two booleans are two different symbols. */
  lemma BooleansDistinct(t: Table)
    requires t.Valid()
    ensures var (f, t1) := MakeBoolean(t, false); var (tr, t2) := MakeBoolean(t1, true); f != tr && f.id != tr.id
  {
    InternDistinct(t, "#f", "#t");
  }
}
