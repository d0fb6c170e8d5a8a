/** The edits of the tree editor on rose trees, and what each does to the stored cells. */
module TreeEdits {
  import opened YNodes
  import opened RoseTree
  import opened TreeLinks

  /** Path of the parent, and position among the siblings, of the node at path `q`. */
  function Up(q: Path): Path
    requires q != []
  {
    q[..|q| - 1]
  }

  function Last(q: Path): nat
    requires q != []
  {
    q[|q| - 1]
  }

  /** Children `a..b` of the node at `p` get a new blank parent with the given id. */
  function Wrap(t: Tree, p: Path, a: nat, b: nat, id: nat): Tree
    requires ValidPath(t, p) && a <= b <= |At(t, p).kids|
  {
    Splice(t, p, a, b, [Node(id, BLANK, At(t, p).kids[a..b])])
  }

  function InsertWrapper(t: Tree, q: Path, id: nat): Tree
    requires q != [] && ValidPath(t, q)
  {
    UpValid(t, q);
    Wrap(t, Up(q), Last(q), Last(q) + 1, id)
  }

  function InsertParent(t: Tree, q: Path, id: nat): Tree
    requires q != [] && ValidPath(t, q)
  {
    UpValid(t, q);
    Wrap(t, Up(q), 0, |At(t, Up(q)).kids|, id)
  }

  function InsertParentForRest(t: Tree, q: Path, id: nat): Tree
    requires q != [] && ValidPath(t, q)
  {
    UpValid(t, q);
    Wrap(t, Up(q), Last(q), |At(t, Up(q)).kids|, id)
  }

  function InsertChild(t: Tree, q: Path, id: nat): Tree
    requires ValidPath(t, q)
  {
    Wrap(t, q, 0, 0, id)
  }

  function InsertSibling(t: Tree, q: Path, id: nat): Tree
    requires q != [] && ValidPath(t, q)
  {
    UpValid(t, q);
    Wrap(t, Up(q), Last(q) + 1, Last(q) + 1, id)
  }

  /** The children of the node at `q` take its place. */
  function DeleteNode(t: Tree, q: Path): Tree
    requires q != [] && ValidPath(t, q)
  {
    UpValid(t, q);
    Splice(t, Up(q), Last(q), Last(q) + 1, At(t, q).kids)
  }

  function DeleteSubtree(t: Tree, q: Path): Tree
    requires q != [] && ValidPath(t, q)
  {
    UpValid(t, q);
    Splice(t, Up(q), Last(q), Last(q) + 1, [])
  }

  // ----- Paths to a node and to its parent -----

  lemma {:induction false} UpValid(t: Tree, q: Path)
    requires q != [] && ValidPath(t, q)
    ensures ValidPath(t, Up(q)) && Last(q) < |At(t, Up(q)).kids|
    ensures At(t, q) == At(t, Up(q)).kids[Last(q)]
    ensures Pos(t, q) == RangeStart(t, Up(q), Last(q))
    decreases |q|
  {
    if |q| > 1 {
      UpValid(t.kids[q[0]], q[1..]);
      assert Up(q)[1..] == Up(q[1..]);
    }
  }

  lemma {:induction false} UpAnc(t: Tree, q: Path, i: int)
    requires q != [] && ValidPath(t, q)
    ensures ValidPath(t, Up(q))
    ensures IsAnc(t, q, i) <==> i == Pos(t, q) || IsAnc(t, Up(q), i)
    decreases |q|
  {
    UpValid(t, q);
    if |q| > 1 {
      UpAnc(t.kids[q[0]], q[1..], i - Off(t, q[0]));
      assert Up(q)[1..] == Up(q[1..]);
    } else {
      assert q == [q[0]];
    }
  }

  /** The parent link of the node at `q` is the index of the node at `Up(q)`. */
  lemma ParentLink(t: Tree, q: Path)
    requires q != [] && ValidPath(t, q)
    ensures ValidPath(t, Up(q)) && Pos(t, q) < Size(t)
    ensures LinkT(t, 0, NULL, NULL)[Pos(t, q)].parent == Pos(t, Up(q)) < Pos(t, q)
  {
    UpValid(t, q);
    PosBound(t, q);
    var i, u := Pos(t, q), Pos(t, Up(q));
    AncSelf(t, q);
    AncSelf(t, Up(q));
    UpAnc(t, q, u);
    AncParent(t, q, i, u);
    var j := LinkT(t, 0, NULL, NULL)[i].parent;
    UpAnc(t, q, j);
    AncBounds(t, Up(q), j);
  }

  // ----- Cells of a range of children -----

  /** Children `a..b` of the node at `p` are stored contiguously. */
  lemma {:induction false} RangeCells(t: Tree, p: Path, a: nat, b: nat)
    requires ValidPath(t, p) && a <= b <= |At(t, p).kids|
    ensures var s, e := RangeStart(t, p, a), RangeStart(t, p, b);
            && s <= e <= Pos(t, p) + Size(At(t, p)) <= Size(t)
            && e - s == SizeF(At(t, p).kids[a..b])
            && FlatT(t)[s..e] == FlatF(At(t, p).kids[a..b])
    decreases |p|
  {
    hide FlatT, FlatF, SizeF, Size;
    PosBound(t, p);
    if p == [] {
      RangeCellsHere(t, a, b);
    } else {
      var k, kid := p[0], t.kids[p[0]];
      RangeCells(kid, p[1..], a, b);
      PosBound(kid, p[1..]);
      KidSlice(t, k);
      SliceSlice(FlatT(t), FlatT(kid), Off(t, k), RangeStart(kid, p[1..], a), RangeStart(kid, p[1..], b));
    }
  }

  lemma SliceSlice<T>(f: seq<T>, g: seq<T>, o: nat, s: nat, e: nat)
    requires o + |g| <= |f| && f[o..o + |g|] == g && s <= e <= |g|
    ensures f[o + s..o + e] == g[s..e]
  {
    forall i | s <= i < e ensures f[o + i] == g[i] {
      assert f[o..o + |g|][i] == f[o + i];
    }
  }

  lemma KidSlice(t: Tree, k: nat)
    requires k < |t.kids|
    ensures Off(t, k) + Size(t.kids[k]) <= Size(t)
    ensures FlatT(t)[Off(t, k)..Off(t, k) + Size(t.kids[k])] == FlatT(t.kids[k])
  {
    KidCells(t, k);
  }

  lemma RangeCellsHere(t: Tree, a: nat, b: nat)
    requires a <= b <= |t.kids|
    ensures Off(t, a) <= Off(t, b) <= Size(t) && Off(t, b) - Off(t, a) == SizeF(t.kids[a..b])
    ensures FlatT(t)[Off(t, a)..Off(t, b)] == FlatF(t.kids[a..b])
  {
    assert FlatT(t) == [Cell(t.id, t.data, SizeF(t.kids))] + FlatF(t.kids);
    hide FlatT, FlatF, SizeF;
    FlatRange(t.kids, a, b);
    MiddleSlice([Cell(t.id, t.data, SizeF(t.kids))], FlatF(t.kids[..a]), FlatF(t.kids[a..b]), FlatF(t.kids[b..]));
  }

  lemma MiddleSlice<T>(c: seq<T>, x: seq<T>, y: seq<T>, z: seq<T>)
    ensures (c + (x + y + z))[|c| + |x|..|c| + |x| + |y|] == y
  {
  }

  /** The counts the edit changes all lie before the edited range. */
  lemma BumpTail(t: Tree, p: Path, d: int, s: nat)
    requires ValidPath(t, p) && Pos(t, p) < s <= Size(t)
    ensures Bump(FlatT(t), t, p, d)[s..] == FlatT(t)[s..]
  {
    forall i | s <= i < Size(t) ensures !IsAnc(t, p, i) {
      if IsAnc(t, p, i) { AncBounds(t, p, i); }
    }
  }

  // ----- Each edit as an insertion or a deletion of cells -----

  /** The cells of `t` with the new cell `n` put in at index `i` below the node at `p`. */
  function Gapped(t: Tree, p: Path, i: nat, n: Cell): seq<Cell>
    requires ValidPath(t, p) && i <= Size(t)
  {
    Patch(Bump(FlatT(t), t, p, 1), i, i, [n])
  }

  lemma GapCells(t: Tree, p: Path, i: nat, n: Cell)
    requires ValidPath(t, p) && Pos(t, p) < i <= Size(t)
    ensures var g := Gapped(t, p, i, n);
            && |g| == Size(t) + 1 && g[i] == n
            && (i < Size(t) ==> g[i + 1] == FlatT(t)[i])
            && g[Pos(t, p)].desc == FlatT(t)[Pos(t, p)].desc + 1
    ensures forall m :: Gapped(t, p, i, n)[i := m] == Gapped(t, p, i, m)
  {
    AncSelf(t, p);
    if i < Size(t) && IsAnc(t, p, i) { AncBounds(t, p, i); }
  }

  /** Wrapping children means inserting one cell in front of them. */
  lemma WrapFlat(t: Tree, p: Path, a: nat, b: nat, id: nat)
    requires ValidPath(t, p) && a <= b <= |At(t, p).kids|
    ensures var s, e := RangeStart(t, p, a), RangeStart(t, p, b);
            && s <= e <= Size(t) && Size(Wrap(t, p, a, b, id)) == Size(t) + 1
            && FlatT(Wrap(t, p, a, b, id)) == Gapped(t, p, s, Cell(id, BLANK, e - s))
  {
    var s, e := RangeStart(t, p, a), RangeStart(t, p, b);
    var kids := At(t, p).kids[a..b];
    var r := [Node(id, BLANK, kids)];
    assert r[1..] == [] && FlatF(r) == FlatT(r[0]) + [] && SizeF(r) == 1 + SizeF(kids);
    assert FlatF(r) == [Cell(id, BLANK, SizeF(kids))] + FlatF(kids);
    hide FlatF, FlatT, SizeF, Bump;
    SpliceFlat(t, p, a, b, r);
    RangeCells(t, p, a, b);
    BumpTail(t, p, 1, s);
    PatchWrap(Bump(FlatT(t), t, p, 1), FlatT(t), s, e, Cell(id, BLANK, e - s), FlatF(kids));
  }

  lemma PatchWrap<T>(g: seq<T>, f: seq<T>, s: nat, e: nat, c: T, m: seq<T>)
    requires s <= e <= |g| == |f| && g[s..] == f[s..] && f[s..e] == m
    ensures Patch(g, s, e, [c] + m) == Patch(g, s, s, [c])
  {
    assert g[s..] == m + g[e..];
  }

  lemma DeleteNodeFlat(t: Tree, q: Path)
    requires q != [] && ValidPath(t, q)
    ensures ValidPath(t, Up(q)) && Pos(t, q) < Size(t) && Size(DeleteNode(t, q)) == Size(t) - 1
    ensures FlatT(DeleteNode(t, q)) == Patch(Bump(FlatT(t), t, Up(q), -1), Pos(t, q), Pos(t, q) + 1, [])
  {
    hide FlatF, SizeF, Bump, Patch, Pos, At, Up, Last, ValidPath, DeleteNode;
    UpValid(t, q);
    PosBound(t, q);
    var s, p, a, n := Pos(t, q), Up(q), Last(q), At(t, q);
    assert FlatT(n) == [Cell(n.id, n.data, SizeF(n.kids))] + FlatF(n.kids);
    DeleteNodeParts(t, q);
    PatchUnwrap(Bump(FlatT(t), t, p, -1), FlatT(t), s, s + Size(n), Cell(n.id, n.data, SizeF(n.kids)), FlatF(n.kids));
  }

  lemma DeleteNodeParts(t: Tree, q: Path)
    requires q != [] && ValidPath(t, q)
    ensures var s, n, d := Pos(t, q), At(t, q), DeleteNode(t, q);
            && ValidPath(t, Up(q))
            && s + Size(n) <= Size(t) && Size(d) == Size(t) - 1
            && FlatT(d) == Patch(Bump(FlatT(t), t, Up(q), -1), s, s + Size(n), FlatF(n.kids))
            && FlatT(t)[s..s + Size(n)] == FlatT(n)
            && Bump(FlatT(t), t, Up(q), -1)[s..] == FlatT(t)[s..]
  {
    UpValid(t, q);
    var n := At(t, q);
    KidRange(t, Up(q), Last(q));
    assert SizeF(n.kids) - Size(n) == -1;
    hide FlatF, FlatT, SizeF, Size, Bump, Patch;
    SpliceFlat(t, Up(q), Last(q), Last(q) + 1, n.kids);
    RangeCells(t, Up(q), Last(q), Last(q) + 1);
    BumpTail(t, Up(q), -1, Pos(t, q));
  }

  lemma KidRange(t: Tree, p: Path, a: nat)
    requires ValidPath(t, p) && a < |At(t, p).kids|
    ensures var kid := At(t, p).kids[a];
            && RangeStart(t, p, a + 1) == RangeStart(t, p, a) + Size(kid)
            && FlatF(At(t, p).kids[a..a + 1]) == FlatT(kid)
  {
    var f := At(t, p).kids;
    FlatRange(f, a, a + 1);
    assert f[a..a + 1][1..] == [] && FlatF(f[a..a + 1]) == FlatT(f[a]) + [];
  }

  lemma PatchUnwrap<T>(g: seq<T>, f: seq<T>, s: nat, e: nat, c: T, m: seq<T>)
    requires s < e <= |g| == |f| && g[s..] == f[s..] && f[s..e] == [c] + m
    ensures Patch(g, s, e, m) == Patch(g, s, s + 1, [])
  {
    assert g[s..] == [c] + m + g[e..];
    assert g[s + 1..] == m + g[e..];
  }

  lemma DeleteRangeFlat(t: Tree, p: Path, a: nat, b: nat)
    requires ValidPath(t, p) && a <= b <= |At(t, p).kids|
    ensures var s, e := RangeStart(t, p, a), RangeStart(t, p, b);
            && s <= e <= Size(t) && Size(Splice(t, p, a, b, [])) == Size(t) - (e - s)
            && FlatT(Splice(t, p, a, b, [])) == Patch(Bump(FlatT(t), t, p, -(e - s)), s, e, [])
  {
    assert FlatF([]) == [] && SizeF([]) == 0;
    hide FlatT, FlatF, Size, SizeF, At, RangeStart, Splice, Bump, Patch, ValidPath;
    SpliceFlat(t, p, a, b, []);
  }

  /** The cell of the node at `q`. */
  lemma NodeCell(t: Tree, q: Path)
    requires ValidPath(t, q)
    ensures Pos(t, q) < Size(t)
    ensures FlatT(t)[Pos(t, q)] == Cell(At(t, q).id, At(t, q).data, SizeF(At(t, q).kids))
  {
    PosBound(t, q);
    if q != [] {
      UpValid(t, q);
      KidRange(t, Up(q), Last(q));
      RangeCells(t, Up(q), Last(q), Last(q) + 1);
      assert FlatT(t)[Pos(t, q)..Pos(t, q) + Size(At(t, q))][0] == FlatT(t)[Pos(t, q)];
    }
  }

  lemma NextLink(t: Tree, q: Path)
    requires q != [] && ValidPath(t, q)
    ensures ValidPath(t, Up(q)) && Last(q) < |At(t, Up(q)).kids| && Pos(t, q) < Size(t)
    ensures LinkT(t, 0, NULL, NULL)[Pos(t, q)].next
            == if Last(q) + 1 < |At(t, Up(q)).kids| then RangeStart(t, Up(q), Last(q) + 1) else NULL
  {
    hide FlatT, FlatF, LinkT, SizeF, Pos, At, Up, Last, ValidPath, RangeStart;
    UpValid(t, q);
    ParentLink(t, q);
    NextKid(t, Pos(t, Up(q)), Pos(t, q));
    NodeCell(t, q);
    NodeCell(t, Up(q));
    var f, k := At(t, Up(q)).kids, Last(q);
    KidRange(t, Up(q), k);
    AllKids(t, Up(q));
    RangeCells(t, Up(q), k + 1, |f|);
    SizeZero(f[k + 1..|f|]);
  }

  // ----- Changing data only -----

  function SetData(t: Tree, q: Path, d: Data): Tree
    requires ValidPath(t, q)
    decreases |q|
  {
    if q == [] then t.(data := d)
    else t.(kids := t.kids[q[0] := SetData(t.kids[q[0]], q[1..], d)])
  }

  lemma {:induction false} SetDataFlat(t: Tree, q: Path, d: Data)
    requires ValidPath(t, q)
    ensures Pos(t, q) < Size(t) == Size(SetData(t, q, d))
    ensures FlatT(SetData(t, q, d)) == FlatT(t)[Pos(t, q) := FlatT(t)[Pos(t, q)].(data := d)]
    decreases |q|
  {
    PosBound(t, q);
    if q != [] {
      var k, kid := q[0], t.kids[q[0]];
      SetDataFlat(kid, q[1..], d);
      FlatSplit(t.kids, k);
      FlatReplace(t.kids, k, SetData(kid, q[1..], d));
      var i := Pos(kid, q[1..]);
      hide FlatT, FlatF, Size, SizeF, Pos;
      UpdateInside([Cell(t.id, t.data, SizeF(t.kids))], FlatF(t.kids[..k]), FlatT(kid), FlatF(t.kids[k + 1..]),
                   i, FlatT(kid)[i].(data := d));
      FlatUnfold(t);
      FlatUnfold(SetData(t, q, d));
    }
  }

  lemma FlatUnfold(t: Tree)
    ensures FlatT(t) == [Cell(t.id, t.data, SizeF(t.kids))] + FlatF(t.kids)
  {
  }

  lemma UpdateInside<T>(c: seq<T>, x: seq<T>, y: seq<T>, z: seq<T>, i: nat, v: T)
    requires i < |y| && |c| == 1
    ensures var g := c + (x + y + z);
            g[1 + |x| + i] == y[i] && g[1 + |x| + i := v] == c + (x + y[i := v] + z)
  {
  }

  // ----- The counts determine the shape -----

  ghost predicate SameCounts(c: seq<Cell>, d: seq<Cell>) {
    |c| == |d| && forall i :: 0 <= i < |c| ==> c[i].desc == d[i].desc
  }

  /** Links are a function of the counts. */
  lemma {:induction false} CountsLinks(t: Tree, u: Tree, base: nat, par: int, next: int)
    requires SameCounts(FlatT(t), FlatT(u))
    ensures LinkT(t, base, par, next) == LinkT(u, base, par, next)
    decreases t, 1
  {
    assert FlatT(t)[0].desc == FlatT(u)[0].desc;
    SizeZero(t.kids);
    SizeZero(u.kids);
    forall i | 0 <= i < SizeF(t.kids) ensures FlatF(t.kids)[i].desc == FlatF(u.kids)[i].desc {
      assert FlatT(t)[i + 1].desc == FlatT(u)[i + 1].desc;
    }
    CountsLinksF(t.kids, u.kids, base + 1, base);
  }

  lemma {:induction false} CountsLinksF(f: seq<Tree>, g: seq<Tree>, base: nat, par: int)
    requires SameCounts(FlatF(f), FlatF(g))
    ensures |f| == |g| && LinkF(f, base, par) == LinkF(g, base, par)
    decreases f, 0
  {
    SizeZero(f);
    SizeZero(g);
    if f != [] {
      CountsHead(f, g);
      var next := if |f| == 1 then NULL else base + Size(f[0]);
      CountsLinks(f[0], g[0], base, par, next);
      CountsLinksF(f[1..], g[1..], base + Size(f[0]), par);
    }
  }

  lemma CountsHead(f: seq<Tree>, g: seq<Tree>)
    requires f != [] && g != [] && SameCounts(FlatF(f), FlatF(g))
    ensures SameCounts(FlatT(f[0]), FlatT(g[0])) && SameCounts(FlatF(f[1..]), FlatF(g[1..]))
    ensures Size(f[0]) == Size(g[0])
  {
    var a, b, c, d := FlatT(f[0]), FlatF(f[1..]), FlatT(g[0]), FlatF(g[1..]);
    assert FlatF(f) == a + b && FlatF(g) == c + d;
    assert a[0].desc == Size(f[0]) - 1 && c[0].desc == Size(g[0]) - 1;
    hide FlatT, FlatF, SizeF;
    CountsSplit(a, b, c, d);
  }

  lemma CountsSplit(a: seq<Cell>, b: seq<Cell>, c: seq<Cell>, d: seq<Cell>)
    requires SameCounts(a + b, c + d) && a != [] && c != []
    requires a[0].desc == |a| - 1 && c[0].desc == |c| - 1
    ensures SameCounts(a, c) && SameCounts(b, d)
  {
    assert (a + b)[0].desc == (c + d)[0].desc;
    forall i | 0 <= i < |a| ensures a[i].desc == c[i].desc {
      assert (a + b)[i].desc == (c + d)[i].desc;
    }
    forall i | 0 <= i < |b| ensures b[i].desc == d[i].desc {
      assert (a + b)[|a| + i].desc == (c + d)[|a| + i].desc;
    }
  }

  lemma SetDataLinks(t: Tree, q: Path, d: Data)
    requires ValidPath(t, q)
    ensures LinkT(SetData(t, q, d), 0, NULL, NULL) == LinkT(t, 0, NULL, NULL)
  {
    SetDataFlat(t, q, d);
    CountsLinks(SetData(t, q, d), t, 0, NULL, NULL);
  }

  /** The children of the node at `p` are everything below it. */
  lemma AllKids(t: Tree, p: Path)
    requires ValidPath(t, p)
    ensures var f := At(t, p).kids;
            && RangeStart(t, p, 0) == Pos(t, p) + 1
            && RangeStart(t, p, |f|) == Pos(t, p) + 1 + SizeF(f) <= Size(t)
  {
    var f := At(t, p).kids;
    assert f[..0] == [] && f[..|f|] == f;
    PosBound(t, p);
  }

  /** Count and next link of child `k` of the node at `p`. */
  lemma KidNode(t: Tree, p: Path, k: nat)
    requires ValidPath(t, p) && k < |At(t, p).kids|
    ensures var i := RangeStart(t, p, k);
            && Pos(t, p) < i < Size(t)
            && 0 <= FlatT(t)[i].desc && i + FlatT(t)[i].desc + 1 == RangeStart(t, p, k + 1)
            && LinkT(t, 0, NULL, NULL)[i].next
               == (if k + 1 < |At(t, p).kids| then RangeStart(t, p, k + 1) else NULL)
            && LinkT(t, 0, NULL, NULL)[i].parent == Pos(t, p)
            && (k + 1 < |At(t, p).kids| ==> RangeStart(t, p, k + 1) < Size(t))
  {
    var q := p + [k];
    ExtendPath(t, p, k);
    assert Up(q) == p && Last(q) == k;
    UpValid(t, q);
    NextLink(t, q);
    ParentLink(t, q);
    NodeCell(t, q);
    KidRange(t, p, k);
    NextKid(t, Pos(t, p), Pos(t, q));
  }

  lemma {:induction false} ExtendPath(t: Tree, p: Path, k: nat)
    requires ValidPath(t, p) && k < |At(t, p).kids|
    ensures ValidPath(t, p + [k])
    decreases |p|
  {
    if p != [] {
      ExtendPath(t.kids[p[0]], p[1..], k);
      assert (p + [k])[1..] == p[1..] + [k];
    }
  }

  lemma InsertSiblingFlat(t: Tree, q: Path, id: nat)
    requires q != [] && ValidPath(t, q)
    ensures ValidPath(t, Up(q)) && Pos(t, q) < Size(t)
    ensures var i := Pos(t, q) + FlatT(t)[Pos(t, q)].desc + 1;
            && 0 <= LinkT(t, 0, NULL, NULL)[Pos(t, q)].parent == Pos(t, Up(q)) < i <= Size(t)
            && FlatT(InsertSibling(t, q, id)) == Gapped(t, Up(q), i, Cell(id, BLANK, 0))
            && |Gapped(t, Up(q), i, Cell(id, BLANK, 0))| == Size(t) + 1
            && Gapped(t, Up(q), i, Cell(id, BLANK, 0))[i] == Cell(id, BLANK, 0)
  {
    hide FlatT, LinkT, Pos, At, Up, Last, ValidPath, RangeStart, Bump, Size;
    UpValid(t, q);
    ParentLink(t, q);
    KidNode(t, Up(q), Last(q));
    WrapFlat(t, Up(q), Last(q) + 1, Last(q) + 1, id);
    GapCells(t, Up(q), RangeStart(t, Up(q), Last(q) + 1), Cell(id, BLANK, 0));
  }

  lemma InsertParentFlat(t: Tree, q: Path, id: nat)
    requires q != [] && ValidPath(t, q)
    ensures ValidPath(t, Up(q)) && Pos(t, Up(q)) + 1 <= Pos(t, q) < Size(t)
    ensures LinkT(t, 0, NULL, NULL)[Pos(t, q)].parent == Pos(t, Up(q))
    ensures LinkT(t, 0, NULL, NULL)[Pos(t, Up(q))].child == Pos(t, Up(q)) + 1
    ensures var p := Pos(t, Up(q));
            var g := Gapped(t, Up(q), p + 1, Cell(id, BLANK, 0));
            && |g| == Size(t) + 1 && g[p + 1] == Cell(id, BLANK, 0)
            && FlatT(InsertParent(t, q, id)) == g[p + 1 := Cell(id, BLANK, g[p].desc - 1)]
  {
    hide FlatT, LinkT, SizeF, Size, Pos, At, Up, Last, ValidPath, RangeStart, Bump;
    UpValid(t, q);
    ParentLink(t, q);
    var p, n := Pos(t, Up(q)), At(t, Up(q));
    NodeCell(t, Up(q));
    AllKids(t, Up(q));
    SizeZero(n.kids);
    FirstKid(t, p);
    WrapFlat(t, Up(q), 0, |n.kids|, id);
    GapCells(t, Up(q), p + 1, Cell(id, BLANK, 0));
  }

  // ----- Edits of data keep the shape -----

  ghost predicate SameShape(t: Tree, u: Tree)
    decreases t
  {
    |t.kids| == |u.kids| && forall i :: 0 <= i < |t.kids| ==> SameShape(t.kids[i], u.kids[i])
  }

  ghost predicate SameShapes(f: seq<Tree>, g: seq<Tree>) {
    |f| == |g| && forall i :: 0 <= i < |f| ==> SameShape(f[i], g[i])
  }

  lemma {:induction false} ShapeRefl(t: Tree)
    ensures SameShape(t, t)
    decreases t
  {
    forall i | 0 <= i < |t.kids| ensures SameShape(t.kids[i], t.kids[i]) { ShapeRefl(t.kids[i]); }
  }

  lemma {:induction false} ShapeTrans(t: Tree, u: Tree, v: Tree)
    requires SameShape(t, u) && SameShape(u, v)
    ensures SameShape(t, v)
    decreases t
  {
    forall i | 0 <= i < |t.kids| ensures SameShape(t.kids[i], v.kids[i]) {
      ShapeTrans(t.kids[i], u.kids[i], v.kids[i]);
    }
  }

  lemma {:induction false} ShapeSize(t: Tree, u: Tree)
    requires SameShape(t, u)
    ensures Size(t) == Size(u)
    decreases t, 1
  {
    ShapeSizeF(t.kids, u.kids);
  }

  lemma {:induction false} ShapeSizeF(f: seq<Tree>, g: seq<Tree>)
    requires SameShapes(f, g)
    ensures SizeF(f) == SizeF(g)
    decreases f, 0
  {
    if f != [] {
      ShapeSize(f[0], g[0]);
      assert SameShapes(f[1..], g[1..]);
      ShapeSizeF(f[1..], g[1..]);
    }
  }

  lemma {:induction false} ShapePath(t: Tree, u: Tree, p: Path)
    requires SameShape(t, u) && ValidPath(t, p)
    ensures ValidPath(u, p) && Pos(u, p) == Pos(t, p) && SameShape(At(t, p), At(u, p))
    decreases |p|
  {
    if p != [] {
      ShapePath(t.kids[p[0]], u.kids[p[0]], p[1..]);
      ShapeSizeF(t.kids[..p[0]], u.kids[..p[0]]);
    }
  }

  /** Index and path correspond in the same way in two trees of one shape. */
  lemma ShapePathTo(t: Tree, u: Tree, i: nat)
    requires SameShape(t, u) && i < Size(t)
    ensures i < Size(u) && PathTo(u, i) == PathTo(t, i)
  {
    ShapeSize(t, u);
    ShapePath(t, u, PathTo(t, i));
    PathToPos(u, PathTo(t, i));
  }

  lemma {:induction false} SetDataShape(t: Tree, q: Path, d: Data)
    requires ValidPath(t, q)
    ensures SameShape(t, SetData(t, q, d))
    decreases |q|
  {
    forall i | 0 <= i < |t.kids| ensures SameShape(t.kids[i], t.kids[i]) { ShapeRefl(t.kids[i]); }
    if q != [] {
      SetDataShape(t.kids[q[0]], q[1..], d);
    }
  }

  // ----- Deleting a node, with what it does to the data of its children -----

  /** `g` applied to the data of the first `n` children of the node at `p`. */
  function MapKids(t: Tree, p: Path, g: Data -> Data, n: nat): Tree
    requires ValidPath(t, p) && n <= |At(t, p).kids|
    decreases |p|
  {
    if p == [] then
      t.(kids := seq(|t.kids|, i requires 0 <= i < |t.kids| =>
                       if i < n then t.kids[i].(data := g(t.kids[i].data)) else t.kids[i]))
    else t.(kids := t.kids[p[0] := MapKids(t.kids[p[0]], p[1..], g, n)])
  }

  lemma {:induction false} MapKidsStep(t: Tree, p: Path, g: Data -> Data, k: nat)
    requires ValidPath(t, p) && k < |At(t, p).kids|
    ensures var u := MapKids(t, p, g, k);
            && ValidPath(u, p + [k])
            && At(u, p + [k]) == At(t, p).kids[k]
            && SetData(u, p + [k], g(At(t, p).kids[k].data)) == MapKids(t, p, g, k + 1)
    decreases |p|
  {
    if p != [] {
      MapKidsStep(t.kids[p[0]], p[1..], g, k);
      assert (p + [k])[1..] == p[1..] + [k];
    } else {
      var u := MapKids(t, p, g, k);
      assert [k][1..] == [];
      assert SetData(u, [k], g(t.kids[k].data)).kids == MapKids(t, p, g, k + 1).kids;
    }
  }

  lemma {:induction false} MapKidsNone(t: Tree, p: Path, g: Data -> Data)
    requires ValidPath(t, p)
    ensures MapKids(t, p, g, 0) == t
    decreases |p|
  {
    if p != [] {
      MapKidsNone(t.kids[p[0]], p[1..], g);
      assert t.kids[p[0] := t.kids[p[0]]] == t.kids;
    } else {
      assert MapKids(t, p, g, 0).kids == t.kids;
    }
  }

  lemma {:induction false} MapKidsShape(t: Tree, p: Path, g: Data -> Data, n: nat)
    requires ValidPath(t, p) && n <= |At(t, p).kids|
    ensures SameShape(t, MapKids(t, p, g, n))
    decreases |p|
  {
    forall i | 0 <= i < |t.kids| ensures SameShape(t.kids[i], t.kids[i]) { ShapeRefl(t.kids[i]); }
    if p != [] {
      MapKidsShape(t.kids[p[0]], p[1..], g, n);
    }
  }

  function MapAllKids(t: Tree, p: Path, g: Data -> Data): (u: Tree)
    requires ValidPath(t, p)
    ensures ValidPath(u, p) && |At(u, p).kids| == |At(t, p).kids|
  {
    MapKidsShape(t, p, g, |At(t, p).kids|);
    ShapePath(t, MapKids(t, p, g, |At(t, p).kids|), p);
    MapKids(t, p, g, |At(t, p).kids|)
  }

  function WithChoice(c: Option<nat>): Data -> Data {
    (d: Data) => d.(choice := c)
  }

  function WithFlag(f: Flag): Data -> Data {
    (d: Data) => d.(flags := d.flags + {f})
  }

  /** A node in a choice whose children are not all in one cannot go: it becomes their case. */
  predicate CastToCase(n: Tree) {
    && n.data.typ != Case && n.data.choice.Some? && |n.kids| > 1
    && exists i :: 0 <= i < |n.kids| && n.kids[i].data.choice.None?
  }

  function CaseData(d: Data): Data {
    d.(typ := Case, snode := None, labelLens := None, valueLens := None, ref := 0, flags := {})
  }

  /** What ay_ynode_delete_node does to the data of the children before it deletes the node at `q`. */
  function Disinherit(t: Tree, q: Path): (u: Tree)
    requires ValidPath(t, q)
    ensures ValidPath(u, q)
  {
    var n := At(t, q);
    var t1 := if n.data.typ != Case && n.data.choice.Some? then MapAllKids(t, q, WithChoice(n.data.choice)) else t;
    if ChildrenMandFalse in n.data.flags then MapAllKids(t1, q, WithFlag(HintMandFalse)) else t1
  }

  /** A child left alone below the node at `p` is in no choice. */
  function LoneKidChoice(t: Tree, p: Path): Tree
    requires ValidPath(t, p)
  {
    var n := At(t, p);
    if |n.kids| == 1 then
      ExtendPath(t, p, 0);
      SetData(t, p + [0], n.kids[0].data.(choice := None))
    else t
  }

  /** The children of the node at `q` take its place; one left alone there loses its choice. */
  function WithoutNode(t: Tree, q: Path): Tree
    requires q != [] && ValidPath(t, q)
  {
    UpValid(t, q);
    SpliceValid(t, Up(q), Last(q), Last(q) + 1, At(t, q).kids);
    LoneKidChoice(DeleteNode(t, q), Up(q))
  }

  /** ay_ynode_delete_node as a whole. */
  function RemoveNode(t: Tree, q: Path): Tree
    requires q != [] && ValidPath(t, q)
  {
    if CastToCase(At(t, q)) then SetData(t, q, CaseData(At(t, q).data))
    else WithoutNode(Disinherit(t, q), q)
  }

  lemma {:induction false} SpliceValid(t: Tree, p: Path, a: nat, b: nat, r: seq<Tree>)
    requires ValidPath(t, p) && a <= b <= |At(t, p).kids|
    ensures var u := Splice(t, p, a, b, r);
            && ValidPath(u, p) && Pos(u, p) == Pos(t, p)
            && At(u, p).kids == At(t, p).kids[..a] + r + At(t, p).kids[b..]
            && At(u, p).data == At(t, p).data && At(u, p).id == At(t, p).id
    decreases |p|
  {
    if p != [] {
      SpliceValid(t.kids[p[0]], p[1..], a, b, r);
      var u := Splice(t, p, a, b, r);
      assert u.kids[..p[0]] == t.kids[..p[0]];
    }
  }

  /** Where the loop over the children finds its next child, and what it writes. */
  lemma MapKidNode(t: Tree, p: Path, g: Data -> Data, k: nat)
    requires ValidPath(t, p) && k < |At(t, p).kids|
    ensures var u, i := MapKids(t, p, g, k), RangeStart(t, p, k);
            && i < Size(t) == Size(u)
            && FlatT(u)[i].data == At(t, p).kids[k].data
            && SetData(u, PathTo(u, i), g(At(t, p).kids[k].data)) == MapKids(t, p, g, k + 1)
  {
    var u, q := MapKids(t, p, g, k), p + [k];
    ExtendPath(t, p, k);
    assert Up(q) == p && Last(q) == k;
    UpValid(t, q);
    MapKidsShape(t, p, g, k);
    MapKidsStep(t, p, g, k);
    ShapePath(t, u, q);
    ShapeSize(t, u);
    PathToPos(u, q);
    NodeCell(u, q);
  }

  /** The child link of the node at `p` leads to its first child. */
  lemma KidsStart(t: Tree, p: Path)
    requires ValidPath(t, p)
    ensures Pos(t, p) < Size(t)
    ensures LinkT(t, 0, NULL, NULL)[Pos(t, p)].child == if At(t, p).kids == [] then NULL else RangeStart(t, p, 0)
    ensures At(t, p).kids != [] ==> RangeStart(t, p, 0) < Size(t)
  {
    AllKids(t, p);
    SizeZero(At(t, p).kids);
    NodeCell(t, p);
    FirstKid(t, Pos(t, p));
  }

  lemma KidData(t: Tree, p: Path, k: nat)
    requires ValidPath(t, p) && k < |At(t, p).kids|
    ensures RangeStart(t, p, k) < Size(t) && FlatT(t)[RangeStart(t, p, k)].data == At(t, p).kids[k].data
  {
    MapKidNode(t, p, (d: Data) => d, k);
    ExtendPath(t, p, k);
    assert Up(p + [k]) == p && Last(p + [k]) == k;
    UpValid(t, p + [k]);
    NodeCell(t, p + [k]);
  }

  /** None, one or more children, as the links tell them apart. */
  lemma NodeKids(t: Tree, q: Path)
    requires ValidPath(t, q)
    ensures Pos(t, q) < Size(t)
    ensures var l, f := LinkT(t, 0, NULL, NULL), At(t, q).kids;
            var c := l[Pos(t, q)].child;
            if f == [] then c == NULL
            else
              && 0 <= c < Size(t) && (l[c].next == NULL <==> |f| == 1)
              && FlatT(t)[c].data == f[0].data && PathTo(t, c) == q + [0]
  {
    KidsStart(t, q);
    if At(t, q).kids != [] {
      KidNode(t, q, 0);
      KidData(t, q, 0);
      ExtendPath(t, q, 0);
      assert Up(q + [0]) == q && Last(q + [0]) == 0;
      UpValid(t, q + [0]);
      PathToPos(t, q + [0]);
    }
  }

  /** The first step of Disinherit, by the number of children. */
  lemma NodesOfShape(t: Tree, q: Path, c: Option<nat>)
    requires ValidPath(t, q)
    ensures var u, f := MapAllKids(t, q, WithChoice(c)), At(t, q).kids;
            && (f == [] ==> u == t)
            && (|f| == 1 ==> ValidPath(t, q + [0]) && SetData(t, q + [0], f[0].data.(choice := c)) == u)
    ensures Pos(t, q) < Size(t) == Size(MapAllKids(t, q, WithChoice(c)))
    ensures PathTo(t, Pos(t, q)) == q == PathTo(MapAllKids(t, q, WithChoice(c)), Pos(t, q))
  {
    var g, u, f := WithChoice(c), MapAllKids(t, q, WithChoice(c)), At(t, q).kids;
    MapKidsShape(t, q, g, |f|);
    ShapeSize(t, u);
    PathToPos(t, q);
    ShapePathTo(t, u, Pos(t, q));
    MapKidsNone(t, q, g);
    if |f| == 1 {
      ExtendPath(t, q, 0);
      MapKidsStep(t, q, g, 0);
    }
  }

  lemma DisinheritedPath(t: Tree, q: Path)
    requires ValidPath(t, q)
    ensures Pos(t, q) < Size(t) == Size(Disinherit(t, q))
    ensures PathTo(t, Pos(t, q)) == q == PathTo(Disinherit(t, q), Pos(t, q)) && Pos(Disinherit(t, q), q) == Pos(t, q)
  {
    var n := At(t, q);
    var t1 := if n.data.typ != Case && n.data.choice.Some? then MapAllKids(t, q, WithChoice(n.data.choice)) else t;
    var u := Disinherit(t, q);
    ShapeRefl(t);
    ShapeRefl(t1);
    MapKidsShape(t, q, WithChoice(n.data.choice), |n.kids|);
    MapKidsShape(t1, q, WithFlag(HintMandFalse), |n.kids|);
    ShapeTrans(t, t1, u);
    ShapeSize(t, u);
    ShapePath(t, u, q);
    PathToPos(t, q);
    PathToPos(u, q);
  }

  /** The parent of a deleted node stays where it was. */
  lemma RemovedParent(t: Tree, q: Path)
    requires q != [] && ValidPath(t, q)
    ensures ValidPath(t, Up(q))
    ensures var u, p := DeleteNode(t, q), Up(q);
            ValidPath(u, p) && Pos(t, p) < Size(u) && PathTo(u, Pos(t, p)) == p
  {
    UpValid(t, q);
    SpliceValid(t, Up(q), Last(q), Last(q) + 1, At(t, q).kids);
    PathToPos(DeleteNode(t, q), Up(q));
  }

  lemma {:induction false} NoKids(t: Tree, p: Path)
    requires ValidPath(t, p)
    ensures At(t, p).kids == [] ==> Splice(t, p, 0, 0, []) == t
    ensures SizeF(At(t, p).kids) == 0 ==> At(t, p).kids == []
    decreases |p|
  {
    SizeZero(At(t, p).kids);
    if p != [] {
      NoKids(t.kids[p[0]], p[1..]);
      assert t.kids[p[0] := t.kids[p[0]]] == t.kids;
    }
  }

  lemma LastKid(t: Tree, p: Path)
    requires ValidPath(t, p) && At(t, p).kids != []
    ensures var k := |At(t, p).kids| - 1;
            && 0 < RangeStart(t, p, k) < Size(t) && PathTo(t, RangeStart(t, p, k)) == p + [k]
  {
    var k := |At(t, p).kids| - 1;
    ExtendPath(t, p, k);
    assert Up(p + [k]) == p && Last(p + [k]) == k;
    UpValid(t, p + [k]);
    PathToPos(t, p + [k]);
  }

  /** A node appended to the children of the node at `p` is what the next link of the former last child leads to. */
  lemma AppendedNext(t: Tree, p: Path, id: nat)
    requires ValidPath(t, p)
    ensures var n := |At(t, p).kids|;
            && RangeStart(t, p, n) < Size(Wrap(t, p, n, n, id))
            && (n == 0 ==> RangeStart(t, p, n) == Pos(t, p) + 1 && Wrap(t, p, n, n, id) == InsertChild(t, p, id))
            && (n > 0 ==> AppendedBehind(t, p, n, id))
  {
    hide Wrap;
    AppendedRange(t, p, id);
    AllKids(t, p);
    if |At(t, p).kids| > 0 {
      AppendedLast(t, p, |At(t, p).kids|, id);
    }
  }

  ghost predicate AppendedBehind(t: Tree, p: Path, n: nat, id: nat)
    requires ValidPath(t, p) && 0 < n == |At(t, p).kids|
  {
    var u, last := Wrap(t, p, n, n, id), RangeStart(t, p, n - 1);
    && 0 < last < Size(t) && last < Size(u) && LinkT(u, 0, NULL, NULL)[last].next == RangeStart(t, p, n)
    && InsertSibling(t, PathTo(t, last), id) == u
  }

  lemma AppendedLast(t: Tree, p: Path, n: nat, id: nat)
    requires ValidPath(t, p) && 0 < n == |At(t, p).kids|
    ensures AppendedBehind(t, p, n, id)
  {
    LastKid(t, p);
    AppendedRange(t, p, id);
    assert Up(p + [n - 1]) == p && Last(p + [n - 1]) == n - 1;
    var u := Wrap(t, p, n, n, id);
    hide Wrap, RangeStart, LinkT;
    KidNode(u, p, n - 1);
  }

  lemma AppendedRange(t: Tree, p: Path, id: nat)
    requires ValidPath(t, p)
    ensures var n := |At(t, p).kids|;
            var u := Wrap(t, p, n, n, id);
            && ValidPath(u, p) && |At(u, p).kids| == n + 1
            && RangeStart(u, p, n) == RangeStart(t, p, n) < Size(u)
            && (n > 0 ==> RangeStart(u, p, n - 1) == RangeStart(t, p, n - 1))
  {
    var f := At(t, p).kids;
    var n := |f|;
    var u := Wrap(t, p, n, n, id);
    SpliceValid(t, p, n, n, [Node(id, BLANK, f[n..n])]);
    var g := At(u, p).kids;
    assert f[n..n] == [] && f[..n] == f && f[n..] == [];
    assert g == f + [Node(id, BLANK, [])];
    assert g[..n] == f[..n];
    if n > 0 { assert g[..n - 1] == f[..n - 1]; }
    KidNode(u, p, n);
  }
}
