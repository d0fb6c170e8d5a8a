/** Trees that differ only in the data of their nodes, not in ids, types or places. */
module TreeForms {
  import opened YNodes
  import opened RoseTree
  import opened TreeEdits
  import opened Expansion

  predicate SameSpot(x: Cell, y: Cell) {
    x.id == y.id && x.desc == y.desc && x.data.typ == y.data.typ
  }

  ghost predicate SameSpots(x: seq<Cell>, y: seq<Cell>) {
    |x| == |y| && forall a :: 0 <= a < |x| ==> SameSpot(x[a], y[a])
  }

  ghost predicate SameForm(t: Tree, u: Tree) {
    SameSpots(FlatT(t), FlatT(u))
  }

  ghost predicate SameForms(f: seq<Tree>, g: seq<Tree>) {
    |f| == |g| && forall k :: 0 <= k < |f| ==> SameForm(f[k], g[k])
  }

  lemma FormTrans(t: Tree, u: Tree, v: Tree)
    requires SameForm(t, u) && SameForm(u, v)
    ensures SameForm(t, v) && SameForm(u, t)
  {
    hide FlatT;
    var x, y, z := FlatT(t), FlatT(u), FlatT(v);
    forall a | 0 <= a < |x| ensures SameSpot(x[a], z[a]) {
      assert SameSpot(x[a], y[a]) && SameSpot(y[a], z[a]);
    }
  }

  lemma FormSet(t: Tree, q: Path, d: Data)
    requires ValidPath(t, q) && d.typ == At(t, q).data.typ
    ensures SameForm(t, SetData(t, q, d))
  {
    SetDataFlat(t, q, d);
    NodeCell(t, q);
  }

  lemma SpotsParts(x: seq<Cell>, x': seq<Cell>, y: seq<Cell>, y': seq<Cell>)
    requires SameSpots(x + x', y + y') && |x| == |y|
    ensures SameSpots(x, y) && SameSpots(x', y')
  {
    var s, t := x + x', y + y';
    forall i | 0 <= i < |x| ensures SameSpot(x[i], y[i]) { assert s[i] == x[i] && t[i] == y[i]; }
    forall i | 0 <= i < |x'| ensures SameSpot(x'[i], y'[i]) { assert s[|x| + i] == x'[i] && t[|x| + i] == y'[i]; }
  }

  lemma {:induction false} FormForest(f: seq<Tree>, g: seq<Tree>)
    requires SameSpots(FlatF(f), FlatF(g))
    ensures SameForms(f, g)
    decreases |f|
  {
    SizeZero(f);
    SizeZero(g);
    if f != [] {
      var x, y := FlatT(f[0]), FlatT(g[0]);
      assert FlatF(f)[0] == x[0] && FlatF(g)[0] == y[0];
      assert SameSpot(FlatF(f)[0], FlatF(g)[0]);
      assert |x| == |y|;
      SpotsParts(x, FlatF(f[1..]), y, FlatF(g[1..]));
      FormForest(f[1..], g[1..]);
      forall k | 0 <= k < |f| ensures SameForm(f[k], g[k]) {
        if k > 0 { assert f[k] == f[1..][k - 1] && g[k] == g[1..][k - 1]; }
      }
    }
  }

  lemma FormParts(t: Tree, u: Tree)
    requires SameForm(t, u)
    ensures t.id == u.id && t.data.typ == u.data.typ && Size(t) == Size(u) && SameForms(t.kids, u.kids)
    ensures InnerIndex(t.kids) == InnerIndex(u.kids)
  {
    var x, y := Cell(t.id, t.data, SizeF(t.kids)), Cell(u.id, u.data, SizeF(u.kids));
    assert FlatT(t)[0] == x && FlatT(u)[0] == y;
    assert SameSpot(FlatT(t)[0], FlatT(u)[0]);
    SpotsParts([x], FlatF(t.kids), [y], FlatF(u.kids));
    FormForest(t.kids, u.kids);
    FormInner(t.kids, u.kids);
  }

  lemma FormTyp(t: Tree, u: Tree)
    requires SameForm(t, u)
    ensures t.data.typ == u.data.typ && Size(t) == Size(u)
  {
    assert SameSpot(FlatT(t)[0], FlatT(u)[0]);
  }

  lemma FormInner(f: seq<Tree>, g: seq<Tree>)
    requires SameForms(f, g)
    ensures InnerIndex(f) == InnerIndex(g)
  {
    hide SameForm;
    if |f| > 0 {
      FormTyp(f[0], g[0]);
      if |f| > 1 { FormTyp(f[1], g[1]); }
    }
  }

  lemma {:induction false} FormSizes(f: seq<Tree>, g: seq<Tree>)
    requires SameForms(f, g)
    ensures SizeF(f) == SizeF(g)
    decreases |f|
  {
    hide SameForm;
    if f != [] {
      FormTyp(f[0], g[0]);
      FormSizes(f[1..], g[1..]);
    }
  }

  lemma FormSlices(f: seq<Tree>, g: seq<Tree>, k: nat)
    requires SameForms(f, g) && k <= |f|
    ensures SameForms(f[..k], g[..k]) && SameForms(f[k..], g[k..])
    ensures SizeF(f[..k]) == SizeF(g[..k]) && SizeF(f[k..]) == SizeF(g[k..])
  {
    hide SameForm, SizeF;
    FormSizes(f[..k], g[..k]);
    FormSizes(f[k..], g[k..]);
  }

  /** Nodes are at the same places. */
  lemma {:induction false} FormPath(t: Tree, u: Tree, q: Path)
    requires SameForm(t, u) && ValidPath(t, q)
    ensures ValidPath(u, q) && Pos(t, q) == Pos(u, q) && SameForm(At(t, q), At(u, q))
    decreases |q|
  {
    hide SameForm;
    if q != [] {
      FormParts(t, u);
      FormSlices(t.kids, u.kids, q[0]);
      FormPath(t.kids[q[0]], u.kids[q[0]], q[1..]);
    }
  }

  lemma FormIndex(t: Tree, u: Tree, i: nat)
    requires SameForm(t, u) && i < Size(t)
    ensures Size(t) == Size(u) && PathTo(t, i) == PathTo(u, i) && SameForm(At(t, PathTo(t, i)), At(u, PathTo(u, i)))
  {
    var q := PathTo(t, i);
    FormTyp(t, u);
    FormPath(t, u, q);
    PathToPos(u, q);
  }

  lemma {:induction false} FormLinksT(t: Tree, u: Tree, base: nat, parent: int, next: int)
    requires SameForm(t, u)
    ensures LinkT(t, base, parent, next) == LinkT(u, base, parent, next)
    decreases Size(t), 0
  {
    hide SameForm;
    FormParts(t, u);
    FormLinksF(t.kids, u.kids, base + 1, base);
  }

  lemma {:induction false} FormLinksF(f: seq<Tree>, g: seq<Tree>, base: nat, parent: int)
    requires SameForms(f, g)
    ensures LinkF(f, base, parent) == LinkF(g, base, parent)
    decreases SizeF(f), 1
  {
    hide SameForm;
    if f != [] {
      FormTyp(f[0], g[0]);
      FormLinksT(f[0], g[0], base, parent, if |f| == 1 then NULL else base + Size(f[0]));
      FormLinksF(f[1..], g[1..], base + Size(f[0]), parent);
    }
  }

  // ----- The numbers of another pass taken out -----

  /** A reference in `tags` is not one of a class. */
  function Untagged(d: Data, tags: set<nat>): Data {
    if d.typ != Leafref && d.ref in tags then d.(ref := 0) else d
  }

  function Untag(t: Tree, tags: set<nat>): Tree
    decreases Size(t), 0
  {
    Node(t.id, Untagged(t.data, tags), UntagF(t.kids, tags))
  }

  function UntagF(f: seq<Tree>, tags: set<nat>): (g: seq<Tree>)
    ensures |g| == |f|
    decreases SizeF(f), 1
  {
    if f == [] then [] else [Untag(f[0], tags)] + UntagF(f[1..], tags)
  }

  function UntagCell(c: Cell, tags: set<nat>): Cell {
    c.(data := Untagged(c.data, tags))
  }

  ghost predicate UntagOf(x: seq<Cell>, y: seq<Cell>, tags: set<nat>) {
    |y| == |x| && forall a :: 0 <= a < |x| ==> y[a] == UntagCell(x[a], tags)
  }

  lemma {:induction false} UntagFlatT(t: Tree, tags: set<nat>)
    ensures Size(Untag(t, tags)) == Size(t) && UntagOf(FlatT(t), FlatT(Untag(t, tags)), tags)
    decreases Size(t), 0
  {
    UntagFlatF(t.kids, tags);
  }

  lemma {:induction false} UntagFlatF(f: seq<Tree>, tags: set<nat>)
    ensures SizeF(UntagF(f, tags)) == SizeF(f) && UntagOf(FlatF(f), FlatF(UntagF(f, tags)), tags)
    decreases SizeF(f), 1
  {
    if f != [] {
      UntagFlatT(f[0], tags);
      UntagFlatF(f[1..], tags);
    }
  }

  lemma UntagForm(t: Tree, tags: set<nat>)
    ensures SameForm(t, Untag(t, tags))
  {
    UntagFlatT(t, tags);
  }

  lemma {:induction false} UntagKid(f: seq<Tree>, tags: set<nat>, k: nat)
    requires k < |f|
    ensures UntagF(f, tags)[k] == Untag(f[k], tags)
    decreases |f|
  {
    if k > 0 { UntagKid(f[1..], tags, k - 1); }
  }

  lemma {:induction false} UntagUpdate(f: seq<Tree>, tags: set<nat>, k: nat, v: Tree)
    requires k < |f|
    ensures UntagF(f[k := v], tags) == UntagF(f, tags)[k := Untag(v, tags)]
    decreases |f|
  {
    if k > 0 {
      UntagUpdate(f[1..], tags, k - 1, v);
      assert f[k := v][1..] == f[1..][k - 1 := v];
    } else {
      assert f[0 := v][1..] == f[1..];
    }
  }

  lemma {:induction false} UntagAt(t: Tree, tags: set<nat>, q: Path)
    requires ValidPath(t, q)
    ensures ValidPath(Untag(t, tags), q) && At(Untag(t, tags), q) == Untag(At(t, q), tags)
    ensures Pos(Untag(t, tags), q) == Pos(t, q)
    decreases |q|
  {
    if q != [] {
      UntagKid(t.kids, tags, q[0]);
      UntagAt(t.kids[q[0]], tags, q[1..]);
    }
    UntagForm(t, tags);
    FormPath(t, Untag(t, tags), q);
  }

  lemma {:induction false} UntagSet(t: Tree, tags: set<nat>, q: Path, d: Data)
    requires ValidPath(t, q)
    ensures ValidPath(Untag(t, tags), q)
    ensures Untag(SetData(t, q, d), tags) == SetData(Untag(t, tags), q, Untagged(d, tags))
    decreases |q|
  {
    UntagAt(t, tags, q);
    if q != [] {
      var k := q[0];
      UntagSet(t.kids[k], tags, q[1..], d);
      UntagKid(t.kids, tags, k);
      UntagUpdate(t.kids, tags, k, SetData(t.kids[k], q[1..], d));
    }
  }

  /** Without numbers to take out nothing changes. */
  lemma {:induction false} UntagNoneT(t: Tree)
    ensures Untag(t, {}) == t
    decreases Size(t), 0
  {
    UntagNoneF(t.kids);
  }

  lemma {:induction false} UntagNoneF(f: seq<Tree>)
    ensures UntagF(f, {}) == f
    decreases SizeF(f), 1
  {
    if f != [] {
      UntagNoneT(f[0]);
      UntagNoneF(f[1..]);
    }
  }
}
