/** Keys and values stay in front of the other children. */
module KeyOrder {
  import opened YNodes
  import opened RoseTree
  import opened TreeEdits
  import opened Expansion
  import opened Conversion
  import opened ConversionFacts
  import opened Groupings

  ghost predicate KeyedF(f: seq<Tree>) {
    forall i :: 0 <= i < |f| ==> Keyed(f[i])
  }

  /** A child that is neither a key nor a value may be replaced by others of the kind. */
  lemma FrontReplace(x: seq<Tree>, l: Tree, z: seq<Tree>, r: seq<Tree>)
    requires FrontOnly(x + [l] + z) && !IsKeyVal(l.data) && r != []
    requires forall i :: 0 <= i < |r| ==> !IsKeyVal(r[i].data)
    ensures FrontOnly(x + r + z) && InnerIndex(x + r + z) == InnerIndex(x + [l] + z) <= |x|
  {
    var f, g := x + [l] + z, x + r + z;
    assert f[|x|] == l && g[|x|] == r[0];
    assert forall i :: 0 <= i < |x| ==> f[i] == x[i] == g[i];
    forall i | InnerIndex(g) <= i < |g| ensures !IsKeyVal(g[i].data) {
      if i < |x| {
        assert g[i] == f[i];
      } else if i < |x| + |r| {
        assert g[i] == r[i - |x|];
      } else {
        assert g[i] == f[i - |r| + 1];
      }
    }
  }

  lemma FrontUpdate(f: seq<Tree>, k: nat, v: Tree)
    requires k < |f| && FrontOnly(f) && v.data == f[k].data
    ensures FrontOnly(f[k := v]) && InnerIndex(f[k := v]) == InnerIndex(f)
  {
  }

  lemma {:induction false} KeyedSplice(t: Tree, p: Path, a: nat, r: seq<Tree>)
    requires ValidPath(t, p) && a < |At(t, p).kids| && Keyed(t) && KeyedF(r) && r != []
    requires !IsKeyVal(At(t, p).kids[a].data) && forall i :: 0 <= i < |r| ==> !IsKeyVal(r[i].data)
    ensures Keyed(Splice(t, p, a, a + 1, r)) && Splice(t, p, a, a + 1, r).data == t.data
    decreases |p|
  {
    if p == [] {
      var x, z := t.kids[..a], t.kids[a + 1..];
      assert t.kids == x + [t.kids[a]] + z;
      FrontReplace(x, t.kids[a], z, r);
      KeyedThree(t.kids, a, r);
    } else {
      var k := p[0];
      var v := Splice(t.kids[k], p[1..], a, a + 1, r);
      KeyedSplice(t.kids[k], p[1..], a, r);
      FrontUpdate(t.kids, k, v);
      var u := t.(kids := t.kids[k := v]);
      assert KeyedF(u.kids);
      assert Keyed(u);
    }
  }

  lemma KeyedThree(f: seq<Tree>, a: nat, r: seq<Tree>)
    requires a < |f| && KeyedF(f) && KeyedF(r)
    ensures KeyedF(f[..a] + r + f[a + 1..])
  {
    var g := f[..a] + r + f[a + 1..];
    forall i | 0 <= i < |g| ensures Keyed(g[i]) {
      if i < a {
        assert g[i] == f[i];
      } else if i < a + |r| {
        assert g[i] == r[i - a];
      } else {
        assert g[i] == f[i - |r| + 1];
      }
    }
  }

  // ----- Conversion -----

  /** Types stay, or another child becomes a uses. */
  predicate Turned(f: seq<Tree>, g: seq<Tree>) {
    |f| == |g| && forall i :: 0 <= i < |f| ==>
      g[i].data.typ == f[i].data.typ || (!IsKeyVal(f[i].data) && g[i].data.typ == Uses)
  }

  lemma FrontTurned(f: seq<Tree>, g: seq<Tree>)
    requires Turned(f, g) && FrontOnly(f)
    ensures FrontOnly(g) && InnerIndex(g) == InnerIndex(f)
  {
  }

  lemma MemberKind(id: nat, d: Data, c: Class, refs: set<nat>, hi: nat)
    requires Fits(refs, hi)(id, d) && InClass(c, id, d) && c.r != 0 && c.r !in refs
    ensures !IsKeyVal(d) && RoleOf(id, d) == Member
  {
    var f := Fits(refs, hi);
    assert f(id, d) && d.typ != Leafref && Pending(d);
  }

  /** Only nodes that are marked, and so no key or value, turn. */
  lemma {:induction false} ConvTurned(f: seq<Tree>, c: Class, n: nat, refs: set<nat>, hi: nat)
    requires All(FlatF(f), Fits(refs, hi)) && c.r != 0 && c.r !in refs
    ensures Turned(f, ConvF(f, c, n).0)
    decreases SizeF(f), 1
  {
    if f != [] {
      AllConcat(FlatT(f[0]), FlatF(f[1..]), Fits(refs, hi));
      AllNode(f[0], Fits(refs, hi));
      if InClass(c, f[0].id, f[0].data) { MemberKind(f[0].id, f[0].data, c, refs, hi); }
      var a := ConvT(f[0], c, n);
      ConvTurned(f[1..], c, a.1, refs, hi);
      TurnedStep(f, a.0, ConvF(f[1..], c, a.1).0);
    }
  }

  lemma TurnedStep(f: seq<Tree>, v: Tree, g: seq<Tree>)
    requires f != [] && Turned(f[1..], g)
    requires v.data.typ == f[0].data.typ || (!IsKeyVal(f[0].data) && v.data.typ == Uses)
    ensures Turned(f, [v] + g)
  {
    var h := [v] + g;
    forall i | 0 <= i < |f|
      ensures h[i].data.typ == f[i].data.typ || (!IsKeyVal(f[i].data) && h[i].data.typ == Uses)
    {
      if i > 0 { assert f[i] == f[1..][i - 1] && h[i] == g[i - 1]; }
    }
  }

  lemma FrontTake(f: seq<Tree>)
    ensures var k := InnerIndex(f); InnerIndex(f[..k]) == k && FrontOnly(f[..k])
  {
  }

  lemma FrontAppend(f: seq<Tree>, u: Tree)
    requires InnerIndex(f) == |f| && !IsKeyVal(u.data)
    ensures FrontOnly(f + [u])
  {
  }

  lemma {:induction false} KeyedConvF(f: seq<Tree>, c: Class, n: nat, refs: set<nat>, hi: nat)
    requires All(FlatF(f), Fits(refs, hi)) && c.r != 0 && c.r !in refs && KeyedF(f)
    ensures KeyedF(ConvF(f, c, n).0)
    decreases SizeF(f), 1
  {
    if f != [] {
      AllConcat(FlatT(f[0]), FlatF(f[1..]), Fits(refs, hi));
      var a := ConvT(f[0], c, n);
      KeyedConvT(f[0], c, n, refs, hi);
      KeyedConvF(f[1..], c, a.1, refs, hi);
    }
  }

  lemma {:induction false} KeyedConvT(t: Tree, c: Class, n: nat, refs: set<nat>, hi: nat)
    requires All(FlatT(t), Fits(refs, hi)) && c.r != 0 && c.r !in refs && Keyed(t)
    ensures Keyed(ConvT(t, c, n).0)
    decreases Size(t), 0
  {
    AllNode(t, Fits(refs, hi));
    assert Fits(refs, hi)(t.id, t.data);
    if InClass(c, t.id, t.data) {
      if Split(t.data) {
        KeyedSplit(t, c, n, refs, hi);
      }
    } else {
      KeyedConvF(t.kids, c, n, refs, hi);
      ConvTurned(t.kids, c, n, refs, hi);
      FrontTurned(t.kids, ConvF(t.kids, c, n).0);
    }
  }

  lemma {:induction false} KeyedSplit(t: Tree, c: Class, n: nat, refs: set<nat>, hi: nat)
    requires All(FlatF(t.kids), Fits(refs, hi)) && c.r != 0 && c.r !in refs && Keyed(t) && t.data.typ != Grouping
    requires InClass(c, t.id, t.data) && Split(t.data)
    ensures Keyed(ConvT(t, c, n).0)
    decreases Size(t), 0, 0
  {
    var k := InnerIndex(t.kids);
    var y := t.kids[..k];
    SizeTake(t.kids, k);
    assert t.kids == y + t.kids[k..];
    AllTwo(y, t.kids[k..], Fits(refs, hi));
    var x := ConvF(y, c, n + 1).0;
    KeyedConvF(y, c, n + 1, refs, hi);
    ConvTurned(y, c, n + 1, refs, hi);
    FrontTake(t.kids);
    FrontTurned(y, x);
    var u := Node(n, UsesData(c), []);
    FrontAppend(x, u);
    assert KeyedF(x + [u]);
  }
}
