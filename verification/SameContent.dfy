/** When two subtrees expand to the same, and when one change of a tree is seen in its expansion. */
module SameContent {
  import opened YNodes
  import opened RoseTree
  import opened TreeEdits
  import opened Expansion
  import opened Conversion
  import opened ConversionFacts
  import opened Groupings
  import opened Rewriting

  // ----- Contents once known stay known -----

  ghost predicate Extends(e: Env, e': Env) {
    && (forall k :: k in e.classes ==> k in e'.classes && e'.classes[k] == e.classes[k])
    && (forall k :: k in e.groups ==> k in e'.groups && e'.groups[k] == e.groups[k])
  }

  ghost predicate Fresh(ids: multiset<nat>, e: Env) {
    Distinct(ids) && forall k :: ids[k] > 0 ==> k !in e.classes && k !in e.groups
  }

  /** Only the ids of `ids` are new. */
  ghost predicate Within(e: Env, e': Env, ids: multiset<nat>) {
    && Extends(e, e')
    && (forall k :: k in e'.classes && k !in e.classes ==> ids[k] > 0)
    && (forall k :: k in e'.groups && k !in e.groups ==> ids[k] > 0)
  }

  lemma WithinThen(e: Env, f: Env, g: Env, a: multiset<nat>, b: multiset<nat>)
    requires Within(e, f, a) && Within(f, g, b)
    ensures Within(e, g, a + b)
  {
  }

  lemma WithinMore(e: Env, f: Env, a: multiset<nat>, b: multiset<nat>)
    requires Within(e, f, a) && a <= b
    ensures Within(e, f, b)
  {
    forall k | a[k] > 0 ensures b[k] > 0 { }
  }

  lemma FreshSplit(e: Env, f: Env, a: multiset<nat>, b: multiset<nat>)
    requires Fresh(a + b, e)
    ensures Fresh(a, e) && Fresh(b, e) && (Within(e, f, a) ==> Fresh(b, f))
  {
    forall k ensures a[k] <= (a + b)[k] && b[k] <= (a + b)[k] { }
    assert Distinct(a) && Distinct(b);
    if Within(e, f, a) {
      forall k | b[k] > 0 ensures k !in f.classes && k !in f.groups {
        assert (a + b)[k] <= 1;
      }
    }
  }

  lemma {:induction false} ExtendsF(f: seq<Tree>, e: Env)
    requires Fresh(IdsF(f), e)
    ensures Within(e, ExpandF(f, e).env, IdsF(f))
    decreases SizeF(f), 1
  {
    if f != [] {
      FreshSplit(e, ExpandT(f[0], e).env, IdsT(f[0]), IdsF(f[1..]));
      ExtendsT(f[0], e);
      ExtendsF(f[1..], ExpandT(f[0], e).env);
      WithinThen(e, ExpandT(f[0], e).env, ExpandF(f, e).env, IdsT(f[0]), IdsF(f[1..]));
    }
  }

  lemma WithinOwn(e: Env, id: nat, a: multiset<nat>, x: Env, r: seq<Sem>)
    requires Fresh(multiset{id} + a, e) && Within(e, x, a)
    ensures Within(e, x.(classes := x.classes[id := r]), multiset{id} + a)
    ensures Within(e, x.(groups := x.groups[id := r]), multiset{id} + a)
    ensures Within(e, x, multiset{id} + a)
  {
    assert (multiset{id} + a)[id] > 0;
    forall k | a[k] > 0 ensures (multiset{id} + a)[k] > 0 { }
  }

  lemma {:induction false} ExtendsT(t: Tree, e: Env)
    requires Fresh(IdsT(t), e)
    ensures Within(e, ExpandT(t, e).env, IdsT(t))
    decreases Size(t), 0
  {
    var k := InnerIndex(t.kids);
    var x, y := t.kids[..k], t.kids[k..];
    SizeTake(t.kids, k);
    FreshSplit(e, e, multiset{t.id}, IdsF(t.kids));
    ExtendsF(t.kids, e);
    assert t.kids == x + y;
    IdsConcat(x, y);
    FreshSplit(e, ExpandF(x, e).env, IdsF(x), IdsF(y));
    ExtendsF(x, e);
    ExtendsF(y, ExpandF(x, e).env);
    var b := ExpandF(y, ExpandF(x, e).env).env;
    WithinThen(e, ExpandF(x, e).env, b, IdsF(x), IdsF(y));
    WithinMore(e, ExpandF(x, e).env, IdsF(x), IdsF(t.kids));
    ExtendsOwn(t, e);
  }

  lemma ExtendsOwn(t: Tree, e: Env)
    requires Fresh(IdsT(t), e) && Within(e, ExpandF(t.kids, e).env, IdsF(t.kids))
    requires var x := ExpandF(t.kids[..InnerIndex(t.kids)], e).env;
             Within(e, x, IdsF(t.kids)) && Within(e, ExpandF(t.kids[InnerIndex(t.kids)..], x).env, IdsF(t.kids))
    ensures Within(e, ExpandT(t, e).env, IdsT(t))
  {
    var k := InnerIndex(t.kids);
    var x := ExpandF(t.kids[..k], e);
    var y := ExpandF(t.kids[k..], x.env);
    var z := ExpandF(t.kids, e);
    var a := IdsF(t.kids);
    assert Fresh(multiset{t.id} + a, e);
    assert Within(e, e, a);
    assert IdsT(t) == multiset{t.id} + a;
    match RoleOf(t.id, t.data) {
      case Plain => WithinOwn(e, t.id, a, z.env, []);
      case Group => WithinOwn(e, t.id, a, z.env, z.out);
      case Use => WithinOwn(e, t.id, a, e, []);
      case Leader =>
        if Split(t.data) {
          WithinOwn(e, t.id, a, y.env, y.out);
        } else {
          WithinOwn(e, t.id, a, z.env, [Sem(PayloadOf(t.data), z.out)]);
        }
      case Member =>
        WithinOwn(e, t.id, a, e, []);
        WithinOwn(e, t.id, a, x.env, []);
    }
  }

  // ----- Subtrees that define nothing -----

  predicate QuietNode(id: nat, d: Data) {
    var r := RoleOf(id, d);
    r != Leader && r != Group && r != Use
  }

  ghost predicate Quiet(s: seq<Cell>) {
    forall i :: 0 <= i < |s| ==> QuietNode(s[i].id, s[i].data)
  }

  lemma QuietConcat(x: seq<Cell>, y: seq<Cell>)
    ensures Quiet(x + y) <==> Quiet(x) && Quiet(y)
  {
    if Quiet(x + y) {
      forall i | 0 <= i < |x| ensures QuietNode(x[i].id, x[i].data) { assert (x + y)[i] == x[i]; }
      forall i | 0 <= i < |y| ensures QuietNode(y[i].id, y[i].data) { assert (x + y)[|x| + i] == y[i]; }
    }
  }

  lemma QuietParts(t: Tree)
    requires Quiet(FlatT(t))
    ensures QuietNode(t.id, t.data) && Quiet(FlatF(t.kids))
    ensures var k := InnerIndex(t.kids); Quiet(FlatF(t.kids[..k])) && Quiet(FlatF(t.kids[k..]))
  {
    var k := InnerIndex(t.kids);
    var n := Cell(t.id, t.data, SizeF(t.kids));
    assert FlatT(t)[0] == n;
    QuietConcat([n], FlatF(t.kids));
    assert t.kids == t.kids[..k] + t.kids[k..];
    FlatConcat(t.kids[..k], t.kids[k..]);
    QuietConcat(FlatF(t.kids[..k]), FlatF(t.kids[k..]));
  }

  /** Known contents suffice: a larger environment gives the same and is left as it is. */
  ghost predicate Stable(a: Res, b: Res, e': Env) {
    b.out == a.out && b.ok && b.env == e'
  }

  lemma DiscardMore(s: seq<Cell>, a: set<nat>, b: set<nat>)
    requires Discardable(s, a) && a <= b
    ensures Discardable(s, b)
  {
  }

  lemma {:induction false} QuietF(f: seq<Tree>, e: Env, e': Env)
    requires Quiet(FlatF(f)) && Extends(e, e') && ExpandF(f, e).ok
    ensures ExpandF(f, e).env == e && Stable(ExpandF(f, e), ExpandF(f, e'), e') && Discardable(FlatF(f), e.classes.Keys)
    decreases SizeF(f), 1
  {
    if f != [] {
      QuietConcat(FlatT(f[0]), FlatF(f[1..]));
      QuietT(f[0], e, e');
      QuietF(f[1..], e, e');
      DiscardConcat(FlatT(f[0]), FlatF(f[1..]), e.classes.Keys);
    }
  }

  lemma {:induction false} QuietT(t: Tree, e: Env, e': Env)
    requires Quiet(FlatT(t)) && Extends(e, e') && ExpandT(t, e).ok
    ensures ExpandT(t, e).env == e && Stable(ExpandT(t, e), ExpandT(t, e'), e') && Discardable(FlatT(t), e.classes.Keys)
    decreases Size(t), 0
  {
    var k := InnerIndex(t.kids);
    SizeTake(t.kids, k);
    QuietParts(t);
    var ks := e.classes.Keys;
    if RoleOf(t.id, t.data) == Plain {
      QuietF(t.kids, e, e');
    } else {
      DiscardMore(FlatF(t.kids), ks, e'.classes.Keys);
      if Split(t.data) { QuietF(t.kids[..k], e, e'); }
    }
    assert FlatF(t.kids) == FlatF(t.kids) + [];
    assert [Cell(t.id, t.data, 0)][0].data == t.data;
    DiscardNode(t, FlatF(t.kids), [], ks);
  }

  // ----- Equal subtrees -----

  /** The data of two nodes says the same; leafrefs are equal wherever they refer to. */
  predicate SameData(a: Data, b: Data) {
    PayloadOf(a) == PayloadOf(b) && (a.typ == Leafref || a.ref == b.ref) && Split(a) == Split(b)
  }

  ghost predicate Similar(a: Tree, b: Tree)
    decreases Size(a), 0
  {
    SameData(a.data, b.data) && SimilarF(a.kids, b.kids)
  }

  ghost predicate SimilarF(f: seq<Tree>, g: seq<Tree>)
    decreases SizeF(f), 1
  {
    |f| == |g| && (f == [] || (Similar(f[0], g[0]) && SimilarF(f[1..], g[1..])))
  }

  lemma TakeTail<T>(f: seq<T>, k: nat)
    requires 0 < k <= |f|
    ensures f[..k][1..] == f[1..][..k - 1] && f[k..] == f[1..][k - 1..] && f[..k][0] == f[0]
  {
  }

  lemma {:induction false} SimilarSlices(f: seq<Tree>, g: seq<Tree>, k: nat)
    requires SimilarF(f, g) && k <= |f|
    ensures SimilarF(f[..k], g[..k]) && SimilarF(f[k..], g[k..])
    decreases |f|
  {
    hide Similar, SizeF;
    if k == 0 {
      assert f[..0] == [] && f[0..] == f && g[0..] == g;
    } else {
      SimilarSlices(f[1..], g[1..], k - 1);
      TakeTail(f, k);
      TakeTail(g, k);
    }
  }

  lemma {:induction false} SimilarTypes(f: seq<Tree>, g: seq<Tree>, i: nat)
    requires SimilarF(f, g) && i < |f|
    ensures f[i].data.typ == g[i].data.typ
    decreases |f|
  {
    if i > 0 { SimilarTypes(f[1..], g[1..], i - 1); }
  }

  lemma SimilarInner(f: seq<Tree>, g: seq<Tree>)
    requires SimilarF(f, g)
    ensures InnerIndex(f) == InnerIndex(g)
  {
    if f != [] {
      SimilarTypes(f, g, 0);
      if |f| > 1 { SimilarTypes(f, g, 1); }
    }
  }

  /** Equal subtrees that define nothing expand to the same, whatever their ids. */
  lemma {:induction false} SimilarSameF(f: seq<Tree>, g: seq<Tree>, e: Env)
    requires SimilarF(f, g) && Quiet(FlatF(f)) && Quiet(FlatF(g)) && ExpandF(f, e).ok && ExpandF(g, e).ok
    ensures ExpandF(f, e).out == ExpandF(g, e).out
    decreases SizeF(f), 1
  {
    if f != [] {
      QuietConcat(FlatT(f[0]), FlatF(f[1..]));
      QuietConcat(FlatT(g[0]), FlatF(g[1..]));
      assert Extends(e, e);
      QuietT(f[0], e, e);
      QuietT(g[0], e, e);
      SimilarSameT(f[0], g[0], e);
      SimilarSameF(f[1..], g[1..], e);
    }
  }

  lemma {:induction false} SimilarSameT(a: Tree, b: Tree, e: Env)
    requires Similar(a, b) && Quiet(FlatT(a)) && Quiet(FlatT(b)) && ExpandT(a, e).ok && ExpandT(b, e).ok
    ensures ExpandT(a, e).out == ExpandT(b, e).out
    decreases Size(a), 0
  {
    QuietParts(a);
    QuietParts(b);
    SimilarInner(a.kids, b.kids);
    var k := InnerIndex(a.kids);
    SizeTake(a.kids, k);
    SimilarSlices(a.kids, b.kids, k);
    if RoleOf(a.id, a.data) == Plain {
      SimilarSameF(a.kids, b.kids, e);
    } else if Split(a.data) {
      SimilarSameF(a.kids[..k], b.kids[..k], e);
      assert Extends(e, e);
      QuietF(a.kids[..k], e, e);
      QuietF(b.kids[..k], e, e);
    }
  }

  // ----- From the stored array -----

  /** Nodewise equality, counts included. */
  ghost predicate SameCells(x: seq<Cell>, y: seq<Cell>) {
    |x| == |y| && forall i :: 0 <= i < |x| ==> x[i].desc == y[i].desc && SameData(x[i].data, y[i].data)
  }

  /** Trees that are equal node by node in preorder, with equal counts, are equal. */
  lemma {:induction false} CellsSimilarF(f: seq<Tree>, g: seq<Tree>)
    requires SameCells(FlatF(f), FlatF(g))
    ensures SimilarF(f, g)
    decreases SizeF(f), 1
  {
    SizeZero(f);
    SizeZero(g);
    if f != [] {
      var x, y := FlatT(f[0]), FlatT(g[0]);
      assert FlatF(f)[0] == x[0] && FlatF(g)[0] == y[0];
      assert |x| == |y|;
      CellsParts(x, FlatF(f[1..]), y, FlatF(g[1..]));
      CellsSimilarT(f[0], g[0]);
      CellsSimilarF(f[1..], g[1..]);
    }
  }

  lemma CellsParts(x: seq<Cell>, x': seq<Cell>, y: seq<Cell>, y': seq<Cell>)
    requires SameCells(x + x', y + y') && |x| == |y|
    ensures SameCells(x, y) && SameCells(x', y')
  {
    var s, t := x + x', y + y';
    forall i | 0 <= i < |x| ensures x[i].desc == y[i].desc && SameData(x[i].data, y[i].data) {
      assert s[i] == x[i] && t[i] == y[i];
    }
    forall i | 0 <= i < |x'| ensures x'[i].desc == y'[i].desc && SameData(x'[i].data, y'[i].data) {
      assert s[|x| + i] == x'[i] && t[|x| + i] == y'[i];
    }
  }

  lemma {:induction false} CellsSimilarT(a: Tree, b: Tree)
    requires SameCells(FlatT(a), FlatT(b))
    ensures Similar(a, b)
    decreases Size(a), 0
  {
    var x, y := Cell(a.id, a.data, SizeF(a.kids)), Cell(b.id, b.data, SizeF(b.kids));
    assert FlatT(a)[0] == x && FlatT(b)[0] == y;
    CellsParts([x], FlatF(a.kids), [y], FlatF(b.kids));
    CellsSimilarF(a.kids, b.kids);
  }
}
