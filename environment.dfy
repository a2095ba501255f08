/** Environments (pyscm.py:271-294, 383-384): each Python dict an environment
    uses is a frame in a store, named by its position. A frame's `parent` stands
    for its '**parent**' entry; it always names an older frame, so every chain
    of parents ends. */
module Environment {
  import opened Base
  import opened Syntax
  import opened Values

  datatype Frame = Frame(bindings: map<string, Value>, parent: Option<nat>)

  type Store = seq<Frame>

  /** Frame `i` of a store of `n` frames: its parent is older, and its values
      capture only frames that exist. */
  predicate FrameOk(f: Frame, i: nat, n: nat)
  {
    && (f.parent.Some? ==> f.parent.value < i)
    && forall x | x in f.bindings :: Refs(f.bindings[x]) <= n
  }

  predicate StoreOk(fs: Store)
  {
    forall i | 0 <= i < |fs| :: FrameOk(fs[i], i, |fs|)
  }

  // ---------------------------------------------------------------------
  // Reading.

  /** The frames `id`, its parent, its grandparent, ... up to a frame with no parent. */
  function Chain(fs: Store, id: nat): (c: seq<nat>)
    requires StoreOk(fs) && id < |fs|
    ensures |c| >= 1 && c[0] == id
    ensures forall k :: 0 <= k < |c| ==> c[k] <= id
    decreases id
  {
    match fs[id].parent
    case None => [id]
    case Some(p) => [id] + Chain(fs, p)
  }

  /** eval_variable (pyscm.py:271-278): the innermost binding of `name`. */
  function Lookup(fs: Store, id: nat, name: string): (r: Result<Value>)
    requires StoreOk(fs) && id < |fs|
    ensures r.Ok? ==> Refs(r.value) <= |fs|
    ensures r.Err? ==> r.error == Unbound(name)
    decreases id
  {
    if name in fs[id].bindings then Ok(fs[id].bindings[name])
    else match fs[id].parent
      case None => Err(Unbound(name))
      case Some(p) => Lookup(fs, p, name)
  }

  /** The frame eval_set (pyscm.py:289-294) writes to: the nearest one binding `name`. */
  function Nearest(fs: Store, id: nat, name: string): (r: Option<nat>)
    requires StoreOk(fs) && id < |fs|
    ensures r.Some? ==> r.value <= id && name in fs[r.value].bindings
    decreases id
  {
    if name in fs[id].bindings then Some(id)
    else match fs[id].parent
      case None => None
      case Some(p) => Nearest(fs, p, name)
  }

  /** Looking up `name` reads the frame that set! would write. */
  lemma {:induction false} LookupNearest(fs: Store, id: nat, name: string)
    requires StoreOk(fs) && id < |fs|
    ensures Lookup(fs, id, name).Ok? <==> Nearest(fs, id, name).Some?
    ensures Nearest(fs, id, name).Some? ==>
      Lookup(fs, id, name).value == fs[Nearest(fs, id, name).value].bindings[name]
    decreases id
  {
    if name !in fs[id].bindings && fs[id].parent.Some? {
      LookupNearest(fs, fs[id].parent.value, name);
    }
  }

  /** No frame of `c` binds `name`. */
  predicate NoneBinds(fs: Store, c: seq<nat>, name: string)
  {
    forall k :: 0 <= k < |c| ==> c[k] < |fs| ==> name !in fs[c[k]].bindings
  }

  /** Frame `c[k]` binds `name` and no earlier frame of `c` does. */
  predicate FirstBinder(fs: Store, c: seq<nat>, name: string, k: nat)
    requires k < |c|
  {
    && c[k] < |fs| && name in fs[c[k]].bindings
    && forall j :: 0 <= j < k ==> c[j] < |fs| ==> name !in fs[c[j]].bindings
  }

  /** A lookup fails exactly when no frame on the chain binds the name, and
      otherwise finds the binding in the first frame of the chain that has one. */
  lemma {:induction false} LookupOnChain(fs: Store, id: nat, name: string)
    requires StoreOk(fs) && id < |fs|
    ensures Lookup(fs, id, name).Err? <==> NoneBinds(fs, Chain(fs, id), name)
    ensures forall k :: 0 <= k < |Chain(fs, id)| && FirstBinder(fs, Chain(fs, id), name, k) ==>
      Lookup(fs, id, name) == Ok(fs[Chain(fs, id)[k]].bindings[name])
    decreases id
  {
    var c := Chain(fs, id);
    if name in fs[id].bindings {
      assert c[0] == id && name in fs[c[0]].bindings;
    } else if fs[id].parent.Some? {
      var p := fs[id].parent.value;
      LookupOnChain(fs, p, name);
      assert c == [id] + Chain(fs, p);
      forall k | 0 <= k < |c| && FirstBinder(fs, c, name, k)
        ensures Lookup(fs, id, name) == Ok(fs[c[k]].bindings[name])
      {
        assert k > 0 && c[k] == Chain(fs, p)[k - 1];
        forall j | 0 <= j < k - 1 ensures name !in fs[Chain(fs, p)[j]].bindings {
          assert Chain(fs, p)[j] == c[j + 1];
        }
        assert FirstBinder(fs, Chain(fs, p), name, k - 1);
      }
      if Lookup(fs, id, name).Ok? {
        var k :| 0 <= k < |Chain(fs, p)| && Chain(fs, p)[k] < |fs| && name in fs[Chain(fs, p)[k]].bindings;
        assert c[k + 1] == Chain(fs, p)[k];
      } else {
        forall k | 0 <= k < |c| ensures name !in fs[c[k]].bindings {
          if k > 0 {
            assert c[k] == Chain(fs, p)[k - 1];
          }
        }
      }
    } else {
      assert c == [id];
    }
  }

  // ---------------------------------------------------------------------
  // Writing.

  /** `env[name] = v` on frame `k`: both define and set! store this way. */
  function Write(fs: Store, k: nat, name: string, v: Value): (r: Store)
    requires k < |fs|
    ensures |r| == |fs|
    ensures r[k].bindings == fs[k].bindings[name := v] && r[k].parent == fs[k].parent
    ensures forall i :: 0 <= i < |fs| && i != k ==> r[i] == fs[i]
    ensures StoreOk(fs) && Refs(v) <= |fs| ==> StoreOk(r)
  {
    fs[k := Frame(fs[k].bindings[name := v], fs[k].parent)]
  }

  /** A new frame whose '**parent**' is `parent`, as an application creates. */
  function Push(fs: Store, bindings: map<string, Value>, parent: nat): (r: Store)
    requires parent < |fs|
    ensures |r| == |fs| + 1 && r[..|fs|] == fs
    ensures r[|fs|] == Frame(bindings, Some(parent))
    ensures StoreOk(fs) && (forall x | x in bindings :: Refs(bindings[x]) <= |fs|) ==> StoreOk(r)
  {
    fs + [Frame(bindings, Some(parent))]
  }

  /** Writing `name` in frame `k` changes what every frame sees for `name` when
      `k` is its nearest binder (closures sharing a frame all see a set!), and
      nothing else. */
  lemma {:induction false} WriteVisible(fs: Store, k: nat, name: string, v: Value, id: nat, other: string)
    requires StoreOk(fs) && k < |fs| && Refs(v) <= |fs| && id < |fs|
    ensures Nearest(fs, id, name) == Some(k) ==> Lookup(Write(fs, k, name, v), id, name) == Ok(v)
    ensures name in fs[k].bindings && Nearest(fs, id, name) != Some(k) ==>
      Lookup(Write(fs, k, name, v), id, name) == Lookup(fs, id, name)
    ensures other != name ==> Lookup(Write(fs, k, name, v), id, other) == Lookup(fs, id, other)
    ensures Chain(Write(fs, k, name, v), id) == Chain(fs, id)
    decreases id
  {
    var r := Write(fs, k, name, v);
    if fs[id].parent.Some? {
      WriteVisible(fs, k, name, v, fs[id].parent.value, other);
    }
  }

  /** Defining `name` in frame `id` makes `id` see `v` for it. */
  lemma DefineVisible(fs: Store, id: nat, name: string, v: Value)
    requires StoreOk(fs) && id < |fs| && Refs(v) <= |fs|
    ensures Lookup(Write(fs, id, name, v), id, name) == Ok(v)
    ensures Nearest(Write(fs, id, name, v), id, name) == Some(id)
  {
  }

  /** Adding a frame changes no lookup from an existing one, and the new frame
      answers from its own bindings first and otherwise from its parent. */
  lemma {:induction false} PushLookup(fs: Store, bindings: map<string, Value>, parent: nat, id: nat, name: string)
    requires StoreOk(fs) && parent < |fs| && id < |fs|
    requires forall x | x in bindings :: Refs(bindings[x]) <= |fs|
    ensures Lookup(Push(fs, bindings, parent), id, name) == Lookup(fs, id, name)
    decreases id
  {
    var r := Push(fs, bindings, parent);
    assert r[id] == fs[id];
    if name !in fs[id].bindings && fs[id].parent.Some? {
      PushLookup(fs, bindings, parent, fs[id].parent.value, name);
    }
  }

  lemma PushLookupNew(fs: Store, bindings: map<string, Value>, parent: nat, name: string)
    requires StoreOk(fs) && parent < |fs|
    requires forall x | x in bindings :: Refs(bindings[x]) <= |fs|
    ensures Lookup(Push(fs, bindings, parent), |fs|, name) ==
      if name in bindings then Ok(bindings[name]) else Lookup(fs, parent, name)
  {
    PushLookup(fs, bindings, parent, parent, name);
  }

  // ---------------------------------------------------------------------
  // Parameter binding.

  function Min(a: nat, b: nat): nat { if a < b then a else b }

  /** dict(zip(paras, args)) (pyscm.py:383): pairs up to the shorter of the two,
      a later parameter of the same name wins, and a list as parameter name is
      unhashable (a TypeError). */
  function Bind(params: seq<Sexp>, args: seq<Value>): (r: Result<map<string, Value>>)
    ensures r.Ok? <==> forall i :: 0 <= i < Min(|params|, |args|) ==> params[i].Atom?
    ensures r.Ok? ==> forall x | x in r.value :: Refs(r.value[x]) <= MaxRefs(args)
    decreases |params|
  {
    if params == [] || args == [] then Ok(map[])
    else match params[0]
      case SList(_) => Err(Fault)
      case Atom(x) =>
        match Bind(params[1..], args[1..])
        case Err(e) => Err(e)
        case Ok(m) => Ok(if x in m then m else m[x := args[0]])
  }

  /** The parameter at position `i` is the last one with its name among those paired. */
  predicate LastOfName(params: seq<Sexp>, n: nat, i: nat)
    requires i < n <= |params|
  {
    forall j :: i < j < n ==> params[j] != params[i]
  }

  /** The new frame binds exactly the paired parameter names, each to the
      argument at the last position carrying that name. */
  lemma {:induction false} BindContents(params: seq<Sexp>, args: seq<Value>)
    requires Bind(params, args).Ok?
    ensures var m := Bind(params, args).value; var n := Min(|params|, |args|);
      forall x :: x in m <==> exists i :: 0 <= i < n && params[i] == Atom(x)
    ensures var m := Bind(params, args).value; var n := Min(|params|, |args|);
      forall i :: 0 <= i < n && LastOfName(params, n, i) ==> m[params[i].name] == args[i]
    decreases |params|
  {
    if params != [] && args != [] {
      var m := Bind(params, args).value;
      var n := Min(|params|, |args|);
      var ps, vs := params[1..], args[1..];
      BindContents(ps, vs);
      var m1 := Bind(ps, vs).value;
      assert Min(|ps|, |vs|) == n - 1;
      forall x ensures x in m <==> exists i :: 0 <= i < n && params[i] == Atom(x) {
        if x in m1 {
          var i :| 0 <= i < n - 1 && ps[i] == Atom(x);
          assert params[i + 1] == Atom(x);
        }
        if x in m && x !in m1 {
          assert params[0] == Atom(x);
        }
        if i :| 0 <= i < n && params[i] == Atom(x) {
          if i > 0 {
            assert ps[i - 1] == Atom(x);
          }
        }
      }
      forall i | 0 <= i < n && LastOfName(params, n, i) ensures m[params[i].name] == args[i] {
        if i > 0 {
          assert LastOfName(ps, n - 1, i - 1) by {
            forall j | i - 1 < j < n - 1 ensures ps[j] != ps[i - 1] {
              assert params[j + 1] != params[i];
            }
          }
          assert ps[i - 1] == params[i] == Atom(params[i].name);
          assert params[i].name in m1;
        } else {
          assert forall k :: 0 <= k < n - 1 ==> ps[k] != params[0];
          assert params[0].name !in m1;
        }
      }
    }
  }
}
