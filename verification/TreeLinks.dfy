/** What the parent, child and next links of a stored tree look like around one index. */
module TreeLinks {
  import opened RoseTree

  /** Index `i` of a stored forest whose top nodes have parent `par`, an index below `base`. */
  ghost predicate ForestAt(c: seq<Cell>, l: seq<Link>, base: nat, par: int, i: nat)
    requires |c| == |l| && i < |c|
  {
    && 0 <= c[i].desc && i + c[i].desc < |c|
    && l[i].child == (if c[i].desc == 0 then NULL else base + i + 1)
    && (c[i].desc > 0 ==> l[i + 1].parent == base + i)
    && (if l[i].parent == par then
          if i + c[i].desc + 1 == |c| then l[i].next == NULL
          else l[i].next == base + i + c[i].desc + 1 && l[i + c[i].desc + 1].parent == par
        else UnderAt(c, l, base, i))
  }

  /** Index `i` is a proper descendant of some stored node, its parent. */
  ghost predicate UnderAt(c: seq<Cell>, l: seq<Link>, base: nat, i: nat)
    requires |c| == |l| && i < |c|
  {
    var q := l[i].parent - base;
    && 0 <= q < i
    && i + c[i].desc <= q + c[q].desc
    && q + c[q].desc < |c|
    && 0 <= c[i].desc
    && (if i + c[i].desc == q + c[q].desc then l[i].next == NULL
        else l[i].next == base + i + c[i].desc + 1 && l[i + c[i].desc + 1].parent == base + q)
  }

  /** Index `i` of a stored tree. */
  ghost predicate TreeAt(c: seq<Cell>, l: seq<Link>, base: nat, i: nat)
    requires |c| == |l| && i < |c|
  {
    && 0 <= c[i].desc && i + c[i].desc < |c|
    && l[i].child == (if c[i].desc == 0 then NULL else base + i + 1)
    && (c[i].desc > 0 ==> l[i + 1].parent == base + i)
    && (i > 0 ==> UnderAt(c, l, base, i))
  }

  lemma {:induction false} TreeFacts(t: Tree, base: nat, par: int, next: int, i: nat)
    requires i < Size(t)
    ensures TreeAt(FlatT(t), LinkT(t, base, par, next), base, i)
    decreases t, 1
  {
    var c, l := FlatT(t), LinkT(t, base, par, next);
    if i > 0 {
      ForestFacts(t.kids, base + 1, base, i - 1);
      UnderRoot(FlatF(t.kids), LinkF(t.kids, base + 1, base), c[0], l[0], base, i - 1);
    } else if t.kids != [] {
      assert LinkF(t.kids, base + 1, base)[0].parent == base;
    }
  }

  lemma UnderRoot(c: seq<Cell>, l: seq<Link>, c0: Cell, l0: Link, base: nat, i: nat)
    requires |c| == |l| && i < |c| && c0.desc == |c|
    requires ForestAt(c, l, base + 1, base, i)
    ensures TreeAt([c0] + c, [l0] + l, base, i + 1)
  {
  }

  lemma {:induction false} ForestFacts(f: seq<Tree>, base: nat, par: int, i: nat)
    requires i < SizeF(f) && par < base
    ensures ForestAt(FlatF(f), LinkF(f, base, par), base, par, i)
    decreases f, 0
  {
    hide FlatF, LinkF, FlatT, LinkT, Size, SizeF, ForestAt, TreeAt;
    SizeZero(f);
    var n := Size(f[0]);
    var next := if |f| == 1 then NULL else base + n;
    ForestUnfold(f, base, par);
    SizeZero(f[1..]);
    var c1, l1 := FlatT(f[0]), LinkT(f[0], base, par, next);
    var c2, l2 := FlatF(f[1..]), LinkF(f[1..], base + n, par);
    if i < n {
      TreeFacts(f[0], base, par, next, i);
      HeadDesc(f[0]);
      FirstTree(c1, l1, c2, l2, base, par, i);
    } else {
      ForestFacts(f[1..], base + n, par, i - n);
      LaterTree(c1, l1, c2, l2, base, par, i - n);
    }
  }

  lemma ForestUnfold(f: seq<Tree>, base: nat, par: int)
    requires f != []
    ensures FlatF(f) == FlatT(f[0]) + FlatF(f[1..]) && SizeF(f) == Size(f[0]) + SizeF(f[1..])
    ensures LinkF(f, base, par)
            == LinkT(f[0], base, par, if |f| == 1 then NULL
              else base + Size(f[0])) + LinkF(f[1..], base + Size(f[0]), par)
    ensures |f| > 1 ==>
            LinkF(f[1..], base + Size(f[0]), par) != [] && LinkF(f[1..], base + Size(f[0]), par)[0].parent == par
  {
    if |f| > 1 {
      var g, b := f[1..], base + Size(f[0]);
      assert LinkF(g, b, par) == LinkT(g[0], b, par, if |g| == 1 then NULL
             else b + Size(g[0])) + LinkF(g[1..], b + Size(g[0]), par);
    }
  }

  lemma HeadDesc(t: Tree)
    ensures FlatT(t)[0].desc == Size(t) - 1
  {
  }

  lemma FirstTree(c1: seq<Cell>, l1: seq<Link>, c2: seq<Cell>, l2: seq<Link>, base: nat, par: int, i: nat)
    requires |c1| == |l1| && |c2| == |l2| && i < |c1| && par < base
    requires c1[0].desc == |c1| - 1 && l1[0].parent == par
    requires l1[0].next == if c2 == [] then NULL else base + |c1|
    requires c2 != [] ==> l2[0].parent == par
    requires TreeAt(c1, l1, base, i)
    ensures ForestAt(c1 + c2, l1 + l2, base, par, i)
  {
  }

  lemma LaterTree(c1: seq<Cell>, l1: seq<Link>, c2: seq<Cell>, l2: seq<Link>, base: nat, par: int, i: nat)
    requires |c1| == |l1| && |c2| == |l2| && i < |c2| && par < base
    requires ForestAt(c2, l2, base + |c1|, par, i)
    ensures ForestAt(c1 + c2, l1 + l2, base, par, i + |c1|)
  {
  }

  /** Nothing strictly inside the subtree of `i` is a child of a node before `i`. */
  ghost predicate Inside(c: seq<Cell>, l: seq<Link>, base: nat, i: nat, j: nat)
    requires |c| == |l| && i < |c| && j < |c|
  {
    i < j <= i + c[i].desc ==> l[j].parent >= base + i
  }

  lemma {:induction false} TreeInside(t: Tree, base: nat, par: int, next: int, i: nat, j: nat)
    requires i < Size(t) && j < Size(t)
    ensures Inside(FlatT(t), LinkT(t, base, par, next), base, i, j)
    decreases t, 1
  {
    if i == 0 {
      TreeFacts(t, base, par, next, j);
    } else if j > i {
      ForestInside(t.kids, base + 1, base, i - 1, j - 1);
    }
  }

  lemma {:induction false} ForestInside(f: seq<Tree>, base: nat, par: int, i: nat, j: nat)
    requires i < SizeF(f) && j < SizeF(f) && par < base
    ensures Inside(FlatF(f), LinkF(f, base, par), base, i, j)
    decreases f, 0
  {
    var n := Size(f[0]);
    var next := if |f| == 1 then NULL else base + n;
    ForestUnfold(f, base, par);
    hide FlatF, LinkF, FlatT, LinkT;
    var c1, l1 := FlatT(f[0]), LinkT(f[0], base, par, next);
    var c2, l2 := FlatF(f[1..]), LinkF(f[1..], base + n, par);
    if i < n {
      TreeFacts(f[0], base, par, next, i);
      if j < n {
        TreeInside(f[0], base, par, next, i, j);
      }
    } else if j >= n {
      ForestInside(f[1..], base + n, par, i - n, j - n);
    }
  }

  /** The ancestors-or-self of a node are the nodes whose preorder interval contains it. */
  lemma {:induction false} AncInterval(t: Tree, p: Path, i: nat)
    requires ValidPath(t, p) && i < Size(t)
    ensures IsAnc(t, p, i) <==> i <= Pos(t, p) <= i + FlatT(t)[i].desc
    decreases |p|
  {
    PosBound(t, p);
    if p != [] && i > 0 {
      var k, kid, o := p[0], t.kids[p[0]], Off(t, p[0]);
      KidCells(t, k);
      PosBound(kid, p[1..]);
      if o <= i < o + Size(kid) {
        AncInterval(kid, p[1..], i - o);
      } else {
        if IsAnc(kid, p[1..], i - o) {
          AncBounds(kid, p[1..], i - o);
        }
        if i < o {
          ForestFacts(t.kids[..k], 0, NULL, i - 1);
        }
      }
    }
  }

  lemma KidCells(t: Tree, k: nat)
    requires k < |t.kids|
    ensures Off(t, k) + Size(t.kids[k]) <= Size(t)
    ensures forall i :: 0 < i < Off(t, k) ==> FlatT(t)[i] == FlatF(t.kids[..k])[i - 1]
    ensures forall i :: Off(t, k) <= i < Off(t, k) + Size(t.kids[k]) ==> FlatT(t)[i] == FlatT(t.kids[k])[i - Off(t, k)]
  {
    FlatSplit(t.kids, k);
    assert FlatT(t) == [Cell(t.id, t.data, SizeF(t.kids))] + FlatF(t.kids);
    hide FlatT, FlatF, SizeF, Size;
    MiddleCells(Cell(t.id, t.data, SizeF(t.kids)), FlatF(t.kids[..k]), FlatT(t.kids[k]), FlatF(t.kids[k + 1..]));
  }

  lemma MiddleCells<T>(c: T, x: seq<T>, y: seq<T>, z: seq<T>)
    ensures var s := [c] + (x + y + z);
            && (forall i :: 0 < i < 1 + |x| ==> s[i] == x[i - 1])
            && (forall i :: 1 + |x| <= i < 1 + |x| + |y| ==> s[i] == y[i - 1 - |x|])
  {
  }

  /** The parent link of a proper ancestor-or-self of `p` leads to the next ancestor up. */
  lemma AncParent(t: Tree, p: Path, i: nat, j: int)
    requires ValidPath(t, p) && IsAnc(t, p, i) && 0 < i < Size(t)
    ensures var q := LinkT(t, 0, NULL, NULL)[i].parent;
            0 <= q < i && IsAnc(t, p, q) && (q < j < i ==> !IsAnc(t, p, j))
  {
    var q := LinkT(t, 0, NULL, NULL)[i].parent;
    TreeFacts(t, 0, NULL, NULL, i);
    AncInterval(t, p, i);
    AncInterval(t, p, q);
    if q < j < i {
      AncInterval(t, p, j);
      TreeInside(t, 0, NULL, NULL, j, i);
    }
  }

  /** The first child of `p`. */
  lemma FirstKid(t: Tree, p: nat)
    requires p < Size(t)
    ensures var c, l := FlatT(t), LinkT(t, 0, NULL, NULL);
            && l[p].child == (if c[p].desc != 0 then p + 1 else NULL)
            && 0 <= c[p].desc && p + c[p].desc < Size(t)
            && (c[p].desc != 0 ==> l[p + 1].parent == p)
            && (forall j :: 0 <= j <= p ==> l[j].parent < p)
            && (c[p].desc == 0 ==> forall j :: 0 <= j < Size(t) ==> l[j].parent != p)
  {
    var c, l := FlatT(t), LinkT(t, 0, NULL, NULL);
    TreeFacts(t, 0, NULL, NULL, p);
    forall j | 0 <= j < Size(t) ensures l[j].parent < j && (c[p].desc == 0 ==> l[j].parent != p) {
      TreeFacts(t, 0, NULL, NULL, j);
    }
  }

  /** From one child of `p` to the next: no other child of `p` lies between. */
  lemma NextKid(t: Tree, p: nat, k: nat)
    requires p < k < Size(t) && LinkT(t, 0, NULL, NULL)[k].parent == p
    ensures var c, l := FlatT(t), LinkT(t, 0, NULL, NULL);
            var e := k + c[k].desc;
            && 0 <= c[k].desc
            && e <= p + c[p].desc < Size(t)
            && l[k].child == (if c[k].desc != 0 then k + 1 else NULL)
            && l[k].next == (if e != p + c[p].desc then e + 1 else NULL)
            && (e != p + c[p].desc ==> l[e + 1].parent == p)
            && (forall j :: k < j < Size(t) && (j <= e || e == p + c[p].desc) ==> l[j].parent != p)
  {
    var c, l := FlatT(t), LinkT(t, 0, NULL, NULL);
    TreeFacts(t, 0, NULL, NULL, k);
    forall j | k < j < Size(t) && (j <= k + c[k].desc || k + c[k].desc == p + c[p].desc) ensures l[j].parent != p {
      TreeFacts(t, 0, NULL, NULL, j);
      TreeInside(t, 0, NULL, NULL, k, j);
    }
  }

  lemma RootLinks(t: Tree)
    ensures LinkT(t, 0, NULL, NULL)[0].parent == NULL && LinkT(t, 0, NULL, NULL)[0].next == NULL
  {
  }
}
