/** Turning the later nodes of a class into uses, and why that changes no meaning. */
module Conversion {
  import opened YNodes
  import opened RoseTree
  import opened Expansion

  /** A class by the id of its first node, the grouping made of it, and the flag every uses of it gets. */
  datatype Class = Class(r: nat, g: nat, flags: set<Flag>)

  predicate InClass(c: Class, id: nat, d: Data) {
    d.ref == c.r && d.typ != Uses && id != c.r
  }

  /** The uses that replaces the inner nodes of a node. */
  function UsesData(c: Class): Data {
    BLANK.(typ := Uses, ref := c.g, flags := c.flags)
  }

  /** The uses that a whole node turns into. */
  function TurnedData(c: Class, d: Data): Data {
    d.(typ := Uses, snode := None, labelLens := None, valueLens := None, flags := c.flags, ref := c.g)
  }

  function ConvT(t: Tree, c: Class, n: nat): (Tree, nat)
    decreases Size(t), 0
  {
    if InClass(c, t.id, t.data) then
      if Split(t.data) then
        var k := InnerIndex(t.kids);
        SizeTake(t.kids, k);
        var x := ConvF(t.kids[..k], c, n + 1);
        (Node(t.id, t.data.(ref := 0), x.0 + [Node(n, UsesData(c), [])]), x.1)
      else (Node(t.id, TurnedData(c, t.data), []), n)
    else
      var x := ConvF(t.kids, c, n);
      (t.(kids := x.0), x.1)
  }

  function ConvF(f: seq<Tree>, c: Class, n: nat): (r: (seq<Tree>, nat))
    ensures |r.0| == |f|
    decreases SizeF(f), 1
  {
    if f == [] then ([], n)
    else
      var a := ConvT(f[0], c, n);
      var b := ConvF(f[1..], c, a.1);
      ([a.0] + b.0, b.1)
  }

  ghost predicate NoMembers(s: seq<Cell>, c: Class) {
    forall i :: 0 <= i < |s| ==> !InClass(c, s[i].id, s[i].data)
  }

  lemma NoMembersConcat(x: seq<Cell>, y: seq<Cell>, c: Class)
    ensures NoMembers(x + y, c) <==> NoMembers(x, c) && NoMembers(y, c)
  {
    if NoMembers(x + y, c) {
      forall i | 0 <= i < |x| ensures !InClass(c, x[i].id, x[i].data) { assert (x + y)[i] == x[i]; }
      forall i | 0 <= i < |y| ensures !InClass(c, y[i].id, y[i].data) { assert (x + y)[|x| + i] == y[i]; }
    }
  }

  lemma {:induction false} ConvNoneT(t: Tree, c: Class, n: nat)
    requires NoMembers(FlatT(t), c)
    ensures ConvT(t, c, n) == (t, n)
    decreases Size(t), 0
  {
    assert !InClass(c, FlatT(t)[0].id, FlatT(t)[0].data);
    NoMembersConcat([Cell(t.id, t.data, SizeF(t.kids))], FlatF(t.kids), c);
    ConvNoneF(t.kids, c, n);
  }

  lemma {:induction false} ConvNoneF(f: seq<Tree>, c: Class, n: nat)
    requires NoMembers(FlatF(f), c)
    ensures ConvF(f, c, n) == (f, n)
    decreases SizeF(f), 1
  {
    if f != [] {
      NoMembersConcat(FlatT(f[0]), FlatF(f[1..]), c);
      ConvNoneT(f[0], c, n);
      ConvNoneF(f[1..], c, n);
      assert [f[0]] + f[1..] == f;
    }
  }

  lemma {:induction false} ConvConcat(f: seq<Tree>, g: seq<Tree>, c: Class, n: nat)
    ensures var a := ConvF(f, c, n);
            var b := ConvF(g, c, a.1);
            ConvF(f + g, c, n) == (a.0 + b.0, b.1)
    decreases |f|
  {
    if f == [] {
      assert f + g == g;
      assert [] + ConvF(g, c, n).0 == ConvF(g, c, n).0;
    } else {
      assert (f + g)[1..] == f[1..] + g;
      ConvConcat(f[1..], g, c, ConvT(f[0], c, n).1);
      var a := ConvT(f[0], c, n);
      var b := ConvF(f[1..], c, a.1);
      assert [a.0] + b.0 + ConvF(g, c, b.1).0 == [a.0] + (b.0 + ConvF(g, c, b.1).0);
    }
  }

  // ----- The same meaning -----

  /** What the class and the grouping stand for is the same, or neither is known. */
  predicate Paired(e: Env, c: Class) {
    && (c.r in e.classes <==> c.g in e.groups)
    && (c.r in e.classes ==> e.classes[c.r] == e.groups[c.g])
  }

  /** The node that defines both the class and the grouping. */
  predicate IsUnit(t: Tree, c: Class) {
    var r := RoleOf(t.id, t.data);
    (r == Group && t.id == c.g) || (r == Leader && t.id == c.r)
  }

  ghost predicate GoodUnit(t: Tree, c: Class) {
    NoMembers(FlatT(t), c) && forall e :: Paired(ExpandT(t, e).env, c)
  }

  ghost predicate UnitsT(t: Tree, c: Class)
    decreases Size(t), 0
  {
    if IsUnit(t, c) then GoodUnit(t, c) else UnitsF(t.kids, c)
  }

  ghost predicate UnitsF(f: seq<Tree>, c: Class)
    decreases SizeF(f), 1
  {
    f == [] || (UnitsT(f[0], c) && UnitsF(f[1..], c))
  }

  /** Members turned into uses are no longer found among the key and the value. */
  lemma InnerStable(f: seq<Tree>, g: seq<Tree>)
    requires |f| == |g|
    requires forall i :: 0 <= i < InnerIndex(f) ==> g[i].data.typ == f[i].data.typ
    requires InnerIndex(f) < |f| ==>
             g[InnerIndex(f)].data.typ == f[InnerIndex(f)].data.typ || g[InnerIndex(f)].data.typ == Uses
    ensures InnerIndex(g) == InnerIndex(f)
  {
  }

  lemma {:induction false} ConvTypes(f: seq<Tree>, c: Class, n: nat, i: nat)
    requires i < |f|
    ensures var g := ConvF(f, c, n).0;
            && (g[i].data.typ == f[i].data.typ
               || (g[i].data.typ == Uses && InClass(c, f[i].id, f[i].data) && !Split(f[i].data)))
    decreases |f|
  {
    if i > 0 {
      ConvTypes(f[1..], c, ConvT(f[0], c, n).1, i - 1);
    }
  }

  /** In an expansion without lost references no whole member is a key or a value. */
  lemma {:induction false} OkKids(f: seq<Tree>, e: Env, i: nat)
    requires i < |f| && ExpandF(f, e).ok
    ensures RoleOf(f[i].id, f[i].data) == Member && !Split(f[i].data) ==> !IsKeyVal(f[i].data)
    decreases |f|
  {
    if i > 0 {
      OkKids(f[1..], ExpandT(f[0], e).env, i - 1);
    }
  }

  /** Only nodes marked for a class are in it. */
  ghost predicate Marked(s: seq<Cell>, c: Class) {
    forall i :: 0 <= i < |s| && InClass(c, s[i].id, s[i].data) ==> RoleOf(s[i].id, s[i].data) == Member
  }

  lemma MarkedConcat(x: seq<Cell>, y: seq<Cell>, c: Class)
    requires Marked(x + y, c)
    ensures Marked(x, c) && Marked(y, c)
  {
    forall i | 0 <= i < |x| && InClass(c, x[i].id, x[i].data) ensures RoleOf(x[i].id, x[i].data) == Member {
      assert (x + y)[i] == x[i];
    }
    forall i | 0 <= i < |y| && InClass(c, y[i].id, y[i].data) ensures RoleOf(y[i].id, y[i].data) == Member {
      assert (x + y)[|x| + i] == y[i];
    }
  }

  lemma ConvInner(f: seq<Tree>, c: Class, n: nat, e: Env)
    requires ExpandF(f[..InnerIndex(f)], e).ok && Marked(FlatF(f), c)
    ensures var k, g := InnerIndex(f), ConvF(f, c, n).0;
            && InnerIndex(g) == k
            && g[..k] == ConvF(f[..k], c, n).0
            && g[k..] == ConvF(f[k..], c, ConvF(f[..k], c, n).1).0
            && ConvF(f, c, n).1 == ConvF(f[k..], c, ConvF(f[..k], c, n).1).1
  {
    var k, g := InnerIndex(f), ConvF(f, c, n).0;
    assert f == f[..k] + f[k..];
    ConvConcat(f[..k], f[k..], c, n);
    FlatConcat(f[..k], f[k..]);
    MarkedConcat(FlatF(f[..k]), FlatF(f[k..]), c);
    forall i | 0 <= i < k ensures g[i].data.typ == f[i].data.typ {
      ConvTypes(f, c, n, i);
      OkKids(f[..k], e, i);
      MarkedAt(f[..k], c, i);
    }
    if k < |f| { ConvTypes(f, c, n, k); }
    InnerStable(f, g);
  }

  lemma {:induction false} MarkedAt(f: seq<Tree>, c: Class, i: nat)
    requires i < |f| && Marked(FlatF(f), c)
    ensures InClass(c, f[i].id, f[i].data) ==> RoleOf(f[i].id, f[i].data) == Member
    decreases |f|
  {
    MarkedConcat(FlatT(f[0]), FlatF(f[1..]), c);
    if i == 0 {
      assert FlatT(f[0])[0].data == f[0].data;
    } else {
      MarkedAt(f[1..], c, i - 1);
    }
  }

  /** What a reference discards may be converted too. */
  lemma {:induction false} DiscardT(t: Tree, c: Class, n: nat, s: set<nat>)
    requires Discardable(FlatT(t), s)
    ensures Discardable(FlatT(ConvT(t, c, n).0), s)
    decreases Size(t), 0
  {
    DiscardParts(t, s);
    var d, k := t.data, InnerIndex(t.kids);
    SizeTake(t.kids, k);
    if InClass(c, t.id, d) {
      if Split(d) {
        DiscardF(t.kids[..k], c, n + 1, s);
        var x := ConvF(t.kids[..k], c, n + 1).0;
        var u := Node(n, UsesData(c), []);
        FlatConcat(x, [u]);
        assert [u][1..] == [] && FlatF([u]) == [Cell(n, UsesData(c), 0)];
        DiscardNode(Node(t.id, d.(ref := 0), x + [u]), FlatF(x), [Cell(n, UsesData(c), 0)], s);
      }
    } else {
      DiscardF(t.kids, c, n, s);
      var x := ConvF(t.kids, c, n).0;
      DiscardNode(t.(kids := x), FlatF(x), [], s);
    }
  }

  lemma DiscardNode(t: Tree, x: seq<Cell>, y: seq<Cell>, s: set<nat>)
    requires FlatF(t.kids) == x + y && Discardable(x, s) && Discardable(y, s)
    requires Discardable([Cell(t.id, t.data, 0)], s)
    ensures Discardable(FlatT(t), s)
  {
    var c := FlatT(t);
    assert c == [Cell(t.id, t.data, SizeF(t.kids))] + (x + y);
    assert [Cell(t.id, t.data, 0)][0].data == t.data;
  }

  lemma DiscardConcat(x: seq<Cell>, y: seq<Cell>, s: set<nat>)
    ensures Discardable(x + y, s) <==> Discardable(x, s) && Discardable(y, s)
  {
    if Discardable(x + y, s) {
      forall i | 0 <= i < |x|
        ensures var r := RoleOf(x[i].id, x[i].data); r != Leader && r != Group && (r == Member ==> x[i].data.ref in s)
      { assert (x + y)[i] == x[i]; }
      forall i | 0 <= i < |y|
        ensures var r := RoleOf(y[i].id, y[i].data); r != Leader && r != Group && (r == Member ==> y[i].data.ref in s)
      { assert (x + y)[|x| + i] == y[i]; }
    }
  }

  lemma DiscardParts(t: Tree, s: set<nat>)
    requires Discardable(FlatT(t), s)
    ensures Discardable([Cell(t.id, t.data, 0)], s) && Discardable(FlatF(t.kids), s)
    ensures var k := InnerIndex(t.kids); Discardable(FlatF(t.kids[..k]), s)
  {
    var k := InnerIndex(t.kids);
    var c := Cell(t.id, t.data, SizeF(t.kids));
    DiscardConcat([c], FlatF(t.kids), s);
    assert [c][0] == c;
    assert t.kids == t.kids[..k] + t.kids[k..];
    FlatConcat(t.kids[..k], t.kids[k..]);
    DiscardConcat(FlatF(t.kids[..k]), FlatF(t.kids[k..]), s);
  }

  lemma {:induction false} DiscardF(f: seq<Tree>, c: Class, n: nat, s: set<nat>)
    requires Discardable(FlatF(f), s)
    ensures Discardable(FlatF(ConvF(f, c, n).0), s)
    decreases SizeF(f), 1
  {
    if f != [] {
      DiscardConcat(FlatT(f[0]), FlatF(f[1..]), s);
      DiscardT(f[0], c, n, s);
      var a := ConvT(f[0], c, n);
      DiscardF(f[1..], c, a.1, s);
      var b := ConvF(f[1..], c, a.1);
      assert ([a.0] + b.0)[1..] == b.0;
      DiscardConcat(FlatT(a.0), FlatF(b.0), s);
    }
  }

  lemma {:induction false} UnitsConcat(f: seq<Tree>, k: nat, c: Class)
    requires k <= |f| && UnitsF(f, c)
    ensures UnitsF(f[..k], c) && UnitsF(f[k..], c)
    decreases |f|
  {
    if f == [] || k == 0 {
      assert f[..k] == [] && f[k..] == f;
    } else {
      UnitsConcat(f[1..], k - 1, c);
      assert f[..k][1..] == f[1..][..k - 1] && f[k..] == f[1..][k - 1..];
    }
  }

  lemma MarkedParts(t: Tree, c: Class)
    requires Marked(FlatT(t), c)
    ensures InClass(c, t.id, t.data) ==> RoleOf(t.id, t.data) == Member
    ensures Marked(FlatF(t.kids), c)
    ensures var k := InnerIndex(t.kids); Marked(FlatF(t.kids[..k]), c) && Marked(FlatF(t.kids[k..]), c)
  {
    var k := InnerIndex(t.kids);
    var n := Cell(t.id, t.data, SizeF(t.kids));
    assert FlatT(t)[0] == n;
    MarkedConcat([n], FlatF(t.kids), c);
    assert t.kids == t.kids[..k] + t.kids[k..];
    FlatConcat(t.kids[..k], t.kids[k..]);
    MarkedConcat(FlatF(t.kids[..k]), FlatF(t.kids[k..]), c);
  }

  /** The converted expansion gives the same, and what was paired stays so. */
  ghost predicate Kept(x: Res, y: Res, c: Class) {
    y.ok && y.out == x.out && y.env == x.env && Paired(x.env, c)
  }

  lemma {:induction false} ConvSameF(f: seq<Tree>, c: Class, n: nat, e: Env)
    requires Paired(e, c) && UnitsF(f, c) && Marked(FlatF(f), c) && ExpandF(f, e).ok
    ensures Kept(ExpandF(f, e), ExpandF(ConvF(f, c, n).0, e), c)
    decreases SizeF(f), 1
  {
    if f != [] {
      MarkedConcat(FlatT(f[0]), FlatF(f[1..]), c);
      ConvSameT(f[0], c, n, e);
      var a := ConvT(f[0], c, n);
      var b := ConvF(f[1..], c, a.1);
      ConvSameF(f[1..], c, a.1, ExpandT(f[0], e).env);
      assert ([a.0] + b.0)[1..] == b.0;
    }
  }

  lemma {:induction false} ConvSameT(t: Tree, c: Class, n: nat, e: Env)
    requires Paired(e, c) && UnitsT(t, c) && Marked(FlatT(t), c) && ExpandT(t, e).ok
    ensures Kept(ExpandT(t, e), ExpandT(ConvT(t, c, n).0, e), c)
    decreases Size(t), 0
  {
    MarkedParts(t, c);
    if IsUnit(t, c) {
      ConvNoneT(t, c, n);
    } else if InClass(c, t.id, t.data) {
      ConvSameMember(t, c, n, e);
    } else {
      ConvSameOther(t, c, n, e);
    }
  }

  lemma {:induction false} ConvSameMember(t: Tree, c: Class, n: nat, e: Env)
    requires Paired(e, c) && UnitsT(t, c) && Marked(FlatT(t), c) && ExpandT(t, e).ok
    requires InClass(c, t.id, t.data) && !IsUnit(t, c)
    ensures Kept(ExpandT(t, e), ExpandT(ConvT(t, c, n).0, e), c)
    decreases Size(t), 0, 0
  {
    MarkedParts(t, c);
    if Split(t.data) {
      var k := InnerIndex(t.kids);
      SizeTake(t.kids, k);
      UnitsConcat(t.kids, k, c);
      ConvSameF(t.kids[..k], c, n + 1, e);
      var x, u := ConvF(t.kids[..k], c, n + 1).0, Node(n, UsesData(c), []);
      ExpandConcat(x, [u], e);
      ExpandOne(u, ExpandF(x, e).env);
    }
  }

  lemma {:induction false} ConvSameOther(t: Tree, c: Class, n: nat, e: Env)
    requires Paired(e, c) && UnitsT(t, c) && Marked(FlatT(t), c) && ExpandT(t, e).ok
    requires !InClass(c, t.id, t.data) && !IsUnit(t, c)
    ensures Kept(ExpandT(t, e), ExpandT(ConvT(t, c, n).0, e), c)
    decreases Size(t), 0, 0
  {
    MarkedParts(t, c);
    var k, d, g := InnerIndex(t.kids), t.data, ConvF(t.kids, c, n).0;
    SizeTake(t.kids, k);
    match RoleOf(t.id, d) {
      case Plain => ConvSameF(t.kids, c, n, e);
      case Group => ConvSameF(t.kids, c, n, e);
      case Use =>
      case Leader =>
        if Split(d) {
          ConvInner(t.kids, c, n, e);
          UnitsConcat(t.kids, k, c);
          ConvSameF(t.kids[..k], c, n, e);
          ConvSameF(t.kids[k..], c, ConvF(t.kids[..k], c, n).1, ExpandF(t.kids[..k], e).env);
        } else {
          ConvSameF(t.kids, c, n, e);
        }
      case Member =>
        DiscardF(t.kids, c, n, e.classes.Keys);
        if Split(d) {
          ConvInner(t.kids, c, n, e);
          UnitsConcat(t.kids, k, c);
          ConvSameF(t.kids[..k], c, n, e);
        }
    }
  }
}
