/** ay_ynode_create_groupings_toplevel on the stored array. */
module GroupingPass {
  import opened YNodes
  import opened RoseTree
  import opened TreeLinks
  import opened TreeEdits
  import opened Expansion
  import opened Rewriting
  import opened Conversion
  import opened ConversionFacts
  import opened Groupings
  import opened GroupingSteps
  import opened GroupingRuns
  import opened GroupingEdits
  import Array = YTree

  /** ay_ynode_inner_nodes: the index of the first child behind the key and the value. */
  method InnerNodes(y: Array.YTree, node: nat) returns (inner: int)
    requires y.Valid() && node < y.count
    ensures var p := PathTo(y.tree, node);
            var f := At(y.tree, p).kids;
            inner == if InnerIndex(f) < |f| then RangeStart(y.tree, p, InnerIndex(f)) else NULL
  {
    ghost var t, p := y.tree, PathTo(y.tree, node);
    ghost var f, k := At(t, p).kids, 0;
    KidsStart(t, p);
    hide FlatT, LinkT, Pos, Size, RangeStart, At;
    inner := y.nodes[node].child;
    if inner == NULL {
      return;
    }
    KidNode(t, p, 0);
    KidData(t, p, 0);
    if y.nodes[inner].data.typ == Key {
      inner := y.nodes[inner].next;
      k := 1;
    }
    if k < |f| {
      KidNode(t, p, k);
      KidData(t, p, k);
    }
    if inner != NULL && y.nodes[inner].data.typ == Value {
      inner := y.nodes[inner].next;
      k := k + 1;
    }
  }

  /** ay_ynode_delete_children with keep_keyval. */
  method DeleteInner(y: Array.YTree, node: nat)
    requires y.Valid() && node < y.count
    modifies y`count, y`tree, y.nodes
    ensures y.Valid()
    ensures var t, p := old(y.tree), PathTo(old(y.tree), node);
            y.tree == Splice(t, p, InnerIndex(At(t, p).kids), |At(t, p).kids|, [])
    ensures y.count <= old(y.count)
  {
    hide FlatT, LinkT, Pos, Size, SizeF, RangeStart, At, Splice, Patch, Bump, InnerIndex, PathTo, Array.Stores;
    Array.CountIsSize(y);
    ghost var t, p := y.tree, PathTo(y.tree, node);
    var inner := InnerNodes(y, node);
    InnerRange(t, p);
    Array.StoredNode(y, node);
    if inner == NULL {
      return;
    }
    var deleted := y.nodes[node].descendants - (inner - 1 - node);
    y.Remove(node, inner, deleted, p, Splice(t, p, InnerIndex(At(t, p).kids), |At(t, p).kids|, []));
    Array.CountIsSize(y);
  }

  lemma InnerRange(t: Tree, p: Path)
    requires ValidPath(t, p)
    ensures var f := At(t, p).kids;
            var k := InnerIndex(f);
            var s, i := RangeStart(t, p, k), Pos(t, p);
            && i < Size(t) && i < s && FlatT(t)[i].desc >= s - 1 - i
            && (var n := FlatT(t)[i].desc - (s - 1 - i);
               && s + n <= Size(t)
               && FlatT(Splice(t, p, k, |f|, [])) == Patch(Bump(FlatT(t), t, p, 0 - n), s, s + n, []))
            && (k == |f| ==> Splice(t, p, k, |f|, []) == t) && Size(Splice(t, p, k, |f|, [])) <= Size(t)
  {
    hide *;
    var f := At(t, p).kids;
    var k := InnerIndex(f);
    NodeCell(t, p);
    AllKids(t, p);
    RangeCells(t, p, 0, k);
    RangeCells(t, p, k, |f|);
    DeleteRangeFlat(t, p, k, |f|);
    if k == |f| {
      SpliceNothing(t, p, k);
    }
  }

  lemma SpliceNothing(t: Tree, p: Path, k: nat)
    requires ValidPath(t, p) && k <= |At(t, p).kids|
    ensures Splice(t, p, k, k, []) == t
  {
    SpliceAt(t, p, k, k, []);
    ReplaceFacts(t, p, At(t, p));
    var f := At(t, p).kids;
    assert f[..k] + [] + f[k..] == f;
  }

  /** One later node of a class becomes a uses, or gets one for its inner nodes. */
  method ConvertOne(y: Array.YTree, j: nat, c: Class)
    requires y.Valid() && 0 < j < y.count
    requires Split(At(y.tree, PathTo(y.tree, j)).data) ==> y.count < y.nodes.Length
    modifies y`count, y`tree, y`idcnt, y.nodes
    ensures y.Valid()
    ensures var t, q := old(y.tree), PathTo(old(y.tree), j);
            var a := ConvOne(At(t, q), c, old(y.idcnt));
            y.tree == ReplaceAt(t, q, a.0) && y.idcnt == a.1
  {
    ghost var t, q := y.tree, PathTo(y.tree, j);
    NodeCell(t, q);
    hide FlatT, LinkT, Pos, Size, RangeStart, At, ReplaceAt, SetData, Splice, ConvOne;
    var d := y.nodes[..y.count][j].data;
    assert Array.CellOf(y.nodes[..y.count][j]) == FlatT(t)[j];
    if Split(d) {
      ConvertSplit(y, j, c);
    } else {
      DeletedAll(t, q, c, y.idcnt);
      y.DeleteChildren(j);
      y.SetNodeData(j, TurnedData(c, d));
    }
  }

  lemma DeletedAll(t: Tree, q: Path, c: Class, n: nat)
    requires ValidPath(t, q)
    ensures var l := At(t, q);
            var u := Splice(t, q, 0, |l.kids|, []);
            && Pos(t, q) < Size(u) && ValidPath(u, q) && PathTo(u, Pos(t, q)) == q && 0 < Size(u)
            && (!Split(l.data) ==> SetData(u, q, TurnedData(c, l.data)) == ReplaceAt(t, q, ConvOne(l, c, n).0)
                                   && ConvOne(l, c, n).1 == n)
  {
    var l := At(t, q);
    SpliceAt(t, q, 0, |l.kids|, []);
    ReplaceFacts(t, q, l.(kids := []));
    PathToPos(Splice(t, q, 0, |l.kids|, []), q);
    SetTop(t, q, l.(kids := []), TurnedData(c, l.data));
  }

  method ConvertSplit(y: Array.YTree, j: nat, c: Class)
    requires y.Valid() && 0 < j < y.count < y.nodes.Length
    requires Split(At(y.tree, PathTo(y.tree, j)).data)
    modifies y`count, y`tree, y`idcnt, y.nodes
    ensures y.Valid()
    ensures var t, q := old(y.tree), PathTo(old(y.tree), j);
            var a := ConvOne(At(t, q), c, old(y.idcnt));
            y.tree == ReplaceAt(t, q, a.0) && y.idcnt == a.1
  {
    hide FlatT, LinkT, Pos, Size, RangeStart, At, ReplaceAt, SetData, Splice, ConvOne, Wrap, InnerIndex, Stage,
         PathTo, Array.Stores;
    Array.CountIsSize(y);
    ghost var t, q, n := y.tree, PathTo(y.tree, j), y.idcnt;
    ghost var l := At(t, q);
    NodeCell(t, q);
    Array.StoredNode(y, j);
    var d := y.nodes[j].data;
    StageCut(t, q, c, n);
    DeleteInner(y, j);
    Array.CountIsSize(y);
    Standing(t, q, Stage(l, c, n, 1));
    StageAppended(t, q, l, c, n);
    var uses := y.InsertChildLast(j);
    Array.CountIsSize(y);
    Standing(t, q, Stage(l, c, n, 2));
    StageUnmarked(t, q, l, c, n);
    y.SetNodeData(j, d.(ref := 0));
    StageFilled(t, q, l, c, n);
    Array.CountIsSize(y);
    y.SetNodeData(uses, UsesData(c));
    IsConvOne(l, c, n);
  }

  /** A node whose inner nodes are replaced, after each of the four edits: cut, appended, unmarked, filled in. */
  function Stage(l: Tree, c: Class, n: nat, i: nat): Tree {
    var x := l.kids[..InnerIndex(l.kids)];
    if i == 1 then l.(kids := x)
    else if i == 2 then l.(kids := x + [Node(n, BLANK, [])])
    else if i == 3 then Node(l.id, l.data.(ref := 0), x + [Node(n, BLANK, [])])
    else Node(l.id, l.data.(ref := 0), x + [Node(n, UsesData(c), [])])
  }

  lemma StageCut(t: Tree, q: Path, c: Class, n: nat)
    requires ValidPath(t, q)
    ensures var l := At(t, q); Splice(t, q, InnerIndex(l.kids), |l.kids|, []) == ReplaceAt(t, q, Stage(l, c, n, 1))
  {
    var l := At(t, q);
    SpliceAt(t, q, InnerIndex(l.kids), |l.kids|, []);
    assert l.kids[..InnerIndex(l.kids)] + [] + l.kids[|l.kids|..] == l.kids[..InnerIndex(l.kids)];
  }

  lemma StageAppended(t: Tree, q: Path, l: Tree, c: Class, n: nat)
    requires ValidPath(t, q)
    ensures var u, k := ReplaceAt(t, q, Stage(l, c, n, 1)), InnerIndex(l.kids);
            && ValidPath(u, q) && At(u, q) == Stage(l, c, n, 1) && |At(u, q).kids| == k
            && Wrap(u, q, k, k, n) == ReplaceAt(t, q, Stage(l, c, n, 2))
  {
    var l1, k := Stage(l, c, n, 1), InnerIndex(l.kids);
    SpliceTop(t, q, l1, k, k, [Node(n, BLANK, [])]);
    assert l1.kids[..k] + [Node(n, BLANK, [])] + l1.kids[k..] == Stage(l, c, n, 2).kids && l1.kids[k..k] == [];
  }

  lemma StageUnmarked(t: Tree, q: Path, l: Tree, c: Class, n: nat)
    requires ValidPath(t, q)
    ensures var u := ReplaceAt(t, q, Stage(l, c, n, 2));
            ValidPath(u, q) && SetData(u, q, l.data.(ref := 0)) == ReplaceAt(t, q, Stage(l, c, n, 3))
  {
    SetTop(t, q, Stage(l, c, n, 2), l.data.(ref := 0));
  }

  lemma StageFilled(t: Tree, q: Path, l: Tree, c: Class, n: nat)
    requires ValidPath(t, q)
    ensures var u, v, k := ReplaceAt(t, q, Stage(l, c, n, 1)), ReplaceAt(t, q, Stage(l, c, n, 3)), InnerIndex(l.kids);
            && ValidPath(u, q) && k <= |At(u, q).kids| && RangeStart(u, q, k) < Size(v)
            && SetData(v, PathTo(v, RangeStart(u, q, k)), UsesData(c)) == ReplaceAt(t, q, Stage(l, c, n, 4))
  {
    var l1, l3, k := Stage(l, c, n, 1), Stage(l, c, n, 3), InnerIndex(l.kids);
    assert |l3.kids| == k + 1 && l1.kids[..k] == l3.kids[..k] && l3.kids[k] == Node(n, BLANK, []);
    assert l3.(kids := l3.kids[k := Node(n, UsesData(c), [])]) == Stage(l, c, n, 4);
    hide *;
    SameStart(t, q, l1, l3, k);
    KidIndex(ReplaceAt(t, q, l3), q, k);
    SetKid(t, q, l3, k, UsesData(c));
  }

  lemma IsConvOne(l: Tree, c: Class, n: nat)
    requires Split(l.data)
    ensures ConvOne(l, c, n) == (Stage(l, c, n, 4), n + 1)
  {
  }

  /** Where a replaced node stands. */
  lemma Standing(t: Tree, q: Path, l: Tree)
    requires ValidPath(t, q)
    ensures var u := ReplaceAt(t, q, l);
            && ValidPath(u, q) && At(u, q) == l && Pos(u, q) == Pos(t, q) < Size(u) && PathTo(u, Pos(t, q)) == q
  {
    ReplaceFacts(t, q, l);
    PathToPos(ReplaceAt(t, q, l), q);
  }

  lemma SameStart(t: Tree, q: Path, a: Tree, b: Tree, k: nat)
    requires ValidPath(t, q) && k <= |a.kids| && k <= |b.kids| && a.kids[..k] == b.kids[..k]
    ensures var u, v := ReplaceAt(t, q, a), ReplaceAt(t, q, b);
            && ValidPath(u, q) && ValidPath(v, q) && At(u, q) == a && At(v, q) == b
            && RangeStart(u, q, k) == RangeStart(v, q, k)
  {
    ReplaceFacts(t, q, a);
    ReplaceFacts(t, q, b);
  }
}
