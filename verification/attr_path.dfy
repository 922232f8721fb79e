/** Dotted attribute paths (ccp/config/utilities.py): `r_getattr(obj, "disch.p")` follows
    the path one attribute at a time, and `r_setattr` sets the last attribute of the path
    on the object the rest of the path leads to. Python objects are modelled as a heap
    of attribute dictionaries keyed by object identity, so aliasing between objects is
    kept. */
module AttrPath {
  import opened Wrappers
  import opened Text
  import opened Quantities

  /** An attribute value: a reference to an object, or a plain value that has no
      attributes of its own. */
  datatype Attr = Ref(id: nat) | Leaf(v: Value)

  /** The attributes of every object, by identity. */
  type Graph = map<nat, map<string, Attr>>

  const Dot := '.'

  /** The attributes of an object; an identity the graph does not list has none. */
  function Attrs(g: Graph, id: nat): map<string, Attr>
  {
    if id in g then g[id] else map[]
  }

  /** `getattr(o, name)`, or `getattr(o, name, default)` when a default is given. */
  function GetAttr(g: Graph, o: Attr, name: string, default: Option<Attr>): (r: Result<Attr>)
    ensures default.Some? ==> r.Ok?
    ensures o.Ref? && name in Attrs(g, o.id) ==> r == Ok(Attrs(g, o.id)[name])
    ensures !(o.Ref? && name in Attrs(g, o.id)) && default.Some? ==> r == Ok(default.value)
    ensures !(o.Ref? && name in Attrs(g, o.id)) && default.None? ==> r == Fail(AttributeError(name))
    ensures r.Fail? ==> r == Fail(AttributeError(name))
  {
    if o.Ref? && name in Attrs(g, o.id) then Ok(Attrs(g, o.id)[name])
    else if default.Some? then Ok(default.value)
    else Fail(AttributeError(name))
  }

  /** `reduce(_getattr, [o] + names)`: one attribute per name, left to right. With a
      default every step falls back to it and the walk never fails; without one it
      can only fail on a name of the path that is missing. */
  function GetPath(g: Graph, o: Attr, names: seq<string>, default: Option<Attr>): (r: Result<Attr>)
    ensures names == [] ==> r == Ok(o)
    ensures default.Some? ==> r.Ok?
    ensures r.Fail? ==> r.exc.AttributeError? && r.exc.name in names
    decreases |names|
  {
    if names == [] then Ok(o)
    else
      var next :- GetAttr(g, o, names[0], default);
      GetPath(g, next, names[1..], default)
  }

  /** `r_getattr(obj, attr, *args)`: fails only without a default, and then with
      `AttributeError` naming one of the dotted parts of `attr`. */
  function RGetAttr(g: Graph, obj: Attr, attr: string, default: Option<Attr>): (r: Result<Attr>)
    ensures default.Some? ==> r.Ok?
    ensures r.Fail? ==> r.exc.AttributeError? && r.exc.name in Split(attr, Dot)
  {
    GetPath(g, obj, Split(attr, Dot), default)
  }

  /** The index of the last `c` in `s`, or `|s|` when there is none. */
  function LastIndexOf(s: string, c: char): (i: nat)
    ensures i <= |s|
    ensures i < |s| ==> s[i] == c && c !in s[i + 1..]
    ensures i == |s| ==> c !in s
  {
    if s == [] then 0
    else if s[|s| - 1] == c then |s| - 1
    else
      var i := LastIndexOf(s[..|s| - 1], c);
      if i == |s| - 1 then |s|
      else
        assert s[i + 1..] == s[..|s| - 1][i + 1..] + [s[|s| - 1]];
        i
  }

  /** `s.rpartition(c)` without the separator: the text before the last `c` and the
      text after it, or `("", s)` when `s` has no `c`. */
  function RPartition(s: string, c: char): (r: (string, string))
    ensures c !in r.1
    ensures c in s ==> s == r.0 + [c] + r.1
    ensures c !in s ==> r == ("", s)
  {
    var i := LastIndexOf(s, c);
    if i == |s| then ("", s)
    else
      assert s == s[..i] + [c] + s[i + 1..];
      (s[..i], s[i + 1..])
  }

  /** `setattr(target, name, val)`: an object gets the attribute; a plain value has no
      settable attributes. */
  function SetAttr(g: Graph, target: Attr, name: string, val: Attr): (r: Result<Graph>)
    ensures r.Ok? <==> target.Ref?
    ensures r.Ok? ==> r.value == g[target.id := Attrs(g, target.id)[name := val]]
  {
    if target.Ref? then Ok(g[target.id := Attrs(g, target.id)[name := val]])
    else Fail(AttributeError(name))
  }

  /** The object that `r_setattr(obj, attr, val)` writes to: the one the path before
      the last dot leads to, or `obj` itself when the path has no dot. */
  function SetTarget(g: Graph, obj: Attr, attr: string): Result<Attr>
  {
    var (pre, _) := RPartition(attr, Dot);
    if pre != [] then RGetAttr(g, obj, pre, None) else Ok(obj)
  }

  /** The heap of objects that `r_setattr` writes to. */
  class Heap {
    var graph: Graph

    constructor(g: Graph)
      ensures graph == g
    {
      graph := g;
    }

    /** `r_setattr(obj, attr, val)`: only the last attribute of the path changes. */
    method RSetAttr(obj: Attr, attr: string, val: Attr) returns (r: Result<()>)
      modifies this
      ensures var target := SetTarget(old(graph), obj, attr);
        && (r.Ok? <==> target.Ok? && target.value.Ref?)
        && (r.Fail? ==> r.exc.AttributeError? && graph == old(graph))
        && (r.Ok? ==> graph == SetAttr(old(graph), target.value, RPartition(attr, Dot).1, val).value)
    {
      var (pre, post) := RPartition(attr, Dot);
      var target: Attr;
      if pre != [] {
        var t := RGetAttr(graph, obj, pre, None);
        if t.Fail? {
          return Fail(t.exc);
        }
        target := t.value;
      } else {
        target := obj;
      }
      var s := SetAttr(graph, target, post, val);
      if s.Fail? {
        return Fail(s.exc);
      }
      graph := s.value;
      r := Ok(());
    }
  }

  /** A path without dots is a single `getattr`. */
  lemma SingleName(g: Graph, obj: Attr, attr: string, default: Option<Attr>)
    requires Dot !in attr
    ensures RGetAttr(g, obj, attr, default) == GetAttr(g, obj, attr, default)
  {
    SplitNoSeparator(attr, Dot);
    var r := GetAttr(g, obj, attr, default);
    if r.Ok? {
      assert [attr][1..] == [];
      assert GetPath(g, r.value, [], default) == Ok(r.value);
    }
  }

  /** Walking `p + q` is walking `p` and then walking `q` from where `p` ended. */
  lemma {:induction false} GetPathAppend(g: Graph, o: Attr, p: seq<string>, q: seq<string>, default: Option<Attr>)
    ensures GetPath(g, o, p + q, default) ==
            (var mid := GetPath(g, o, p, default); if mid.Fail? then mid else GetPath(g, mid.value, q, default))
    decreases |p|
  {
    if p != [] {
      assert (p + q)[0] == p[0] && (p + q)[1..] == p[1..] + q;
      var next := GetAttr(g, o, p[0], default);
      if next.Ok? {
        GetPathAppend(g, next.value, p[1..], q, default);
      }
    } else {
      assert p + q == q;
    }
  }

  /** `r_getattr(obj, "a.b")` is `r_getattr(r_getattr(obj, "a"), "b")`. */
  lemma DottedPath(g: Graph, obj: Attr, a: string, b: string, default: Option<Attr>)
    ensures RGetAttr(g, obj, a + [Dot] + b, default) ==
            (var mid := RGetAttr(g, obj, a, default); if mid.Fail? then mid else RGetAttr(g, mid.value, b, default))
  {
    SplitAround(a, b, Dot);
    GetPathAppend(g, obj, Split(a, Dot), Split(b, Dot), default);
  }

  /** Whether the walk along `names` reads attribute `name` of object `id`. */
  predicate ReadsAttr(g: Graph, o: Attr, names: seq<string>, default: Option<Attr>, id: nat, name: string)
    decreases |names|
  {
    names != [] &&
    ((o == Ref(id) && names[0] == name) ||
     (GetAttr(g, o, names[0], default).Ok? &&
      ReadsAttr(g, GetAttr(g, o, names[0], default).value, names[1..], default, id, name)))
  }

  /** Setting an attribute that a walk does not read leaves the walk's result as it was. */
  lemma {:induction false} GetPathFrame(g: Graph, o: Attr, names: seq<string>, default: Option<Attr>,
                                        id: nat, name: string, val: Attr)
    requires !ReadsAttr(g, o, names, default, id, name)
    ensures GetPath(g[id := Attrs(g, id)[name := val]], o, names, default) == GetPath(g, o, names, default)
    decreases |names|
  {
    if names != [] {
      var g' := g[id := Attrs(g, id)[name := val]];
      assert GetAttr(g', o, names[0], default) == GetAttr(g, o, names[0], default) by {
        if o.Ref? && o.id == id {
          assert names[0] != name;
        }
      }
      var next := GetAttr(g, o, names[0], default);
      if next.Ok? {
        GetPathFrame(g, next.value, names[1..], default, id, name, val);
      }
    }
  }

  /** After a successful `r_setattr(obj, attr, val)`, `r_getattr(obj, attr)` gives
      `val`, provided the path does not begin with a dot and the walk to the target
      does not itself go through the attribute being set (otherwise the walk after the
      write takes a different route). */
  lemma SetThenGet(g: Graph, obj: Attr, attr: string, val: Attr)
    requires attr == [] || attr[0] != Dot
    requires SetTarget(g, obj, attr).Ok? && SetTarget(g, obj, attr).value.Ref?
    requires var (pre, post) := RPartition(attr, Dot);
      pre == [] || !ReadsAttr(g, obj, Split(pre, Dot), None, SetTarget(g, obj, attr).value.id, post)
    ensures var g' := SetAttr(g, SetTarget(g, obj, attr).value, RPartition(attr, Dot).1, val).value;
      RGetAttr(g', obj, attr, None) == Ok(val)
  {
    var (pre, post) := RPartition(attr, Dot);
    var t := SetTarget(g, obj, attr).value;
    var g' := g[t.id := Attrs(g, t.id)[post := val]];
    if pre == [] {
      assert Dot !in attr;
      SingleName(g', obj, attr, None);
    } else {
      assert attr == pre + [Dot] + post;
      DottedPath(g', obj, pre, post, None);
      GetPathFrame(g, obj, Split(pre, Dot), None, t.id, post, val);
      SingleName(g', t, post, None);
    }
  }

  lemma RPartitionAt(s: string, c: char, i: nat)
    requires i < |s| && s[i] == c && c !in s[i + 1..]
    ensures RPartition(s, c) == (s[..i], s[i + 1..])
  {
  }

  /** The caveat above is real: with `obj.a` referring to `obj` itself, setting
      "a.a" replaces `obj.a`, and reading "a.a" afterwards no longer reaches `val`. */
  lemma SelfReferenceCaveat(val: Value)
    ensures var g := map[0 := map["a" := Ref(0)]];
      var g' := map[0 := map["a" := Leaf(val)]];
      && SetTarget(g, Ref(0), "a.a") == Ok(Ref(0))
      && SetAttr(g, Ref(0), "a", Leaf(val)) == Ok(g')
      && RGetAttr(g', Ref(0), "a.a", None) == Fail(AttributeError("a"))
  {
    var a := "a";
    var g := map[0 := map[a := Ref(0)]];
    var g' := map[0 := map[a := Leaf(val)]];
    var path := a + [Dot] + a;
    assert path == "a.a";
    RPartitionAt(path, Dot, 1);
    assert path[..1] == a && path[2..] == a;
    SingleName(g, Ref(0), a, None);
    assert RGetAttr(g, Ref(0), a, None) == Ok(Ref(0));
    assert SetTarget(g, Ref(0), path) == Ok(Ref(0));
    assert Attrs(g, 0)[a := Leaf(val)] == map[a := Leaf(val)];
    assert g[0 := map[a := Leaf(val)]] == g';
    assert SetAttr(g, Ref(0), a, Leaf(val)) == Ok(g');
    SingleName(g', Ref(0), a, None);
    assert RGetAttr(g', Ref(0), a, None) == Ok(Leaf(val));
    SingleName(g', Leaf(val), a, None);
    assert RGetAttr(g', Leaf(val), a, None) == Fail(AttributeError(a));
    DottedPath(g', Ref(0), a, a, None);
  }
}
