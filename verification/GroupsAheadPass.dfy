/** ay_ynode_groupings_ahead on the stored array. */
module GroupsAheadPass {
  import opened YNodes
  import opened RoseTree
  import opened TreeLinks
  import opened TreeEdits
  import opened TreeMoves
  import opened Expansion
  import opened Rewriting
  import opened ConversionFacts
  import opened Groupings
  import opened GroupingSteps
  import opened GroupingRest
  import opened GroupingRuns
  import opened GroupingBuild
  import opened GroupingEdits
  import opened GroupOrder
  import opened GroupMoves
  import opened GroupsAhead
  import opened GroupSorting
  import opened MarkingPass
  import opened MarkingRun
  import opened Marking
  import opened GroupingLoop
  import Array = YTree

  // ----- Reading the groupings from the array -----

  /** The direct uses in the cells `j..e`; inner groupings are skipped. */
  function DirectRange(c: seq<Cell>, j: nat, e: nat): seq<nat>
    requires e <= |c| && Bounded(c)
    decreases if j < e then e - j else 0
  {
    if j >= e then []
    else if c[j].data.typ == Grouping then DirectRange(c, j + 1 + c[j].desc, e)
    else (if c[j].data.typ == Uses then [c[j].data.ref] else []) + DirectRange(c, j + 1, e)
  }

  /** The groupings among the cells from `i` on. */
  function KeyRange(c: seq<Cell>, i: nat, e: nat): seq<GroupKey>
    requires e <= |c| && Bounded(c)
    decreases if i < e then e - i else 0
  {
    if i >= e then []
    else (if c[i].data.typ == Grouping then [GroupKey(c[i].id, DirectRange(c, i + 1, i + 1 + c[i].desc))] else [])
         + KeyRange(c, i + 1, e)
  }

  ghost predicate Bounded(c: seq<Cell>) {
    forall i :: 0 <= i < |c| ==> c[i].desc >= 0 && i + 1 + c[i].desc <= |c|
  }

  lemma TreeBounded(t: Tree)
    ensures Bounded(FlatT(t))
  {
    forall i | 0 <= i < Size(t) ensures FlatT(t)[i].desc >= 0 && i + 1 + FlatT(t)[i].desc <= Size(t) {
      NodeCell(t, PathTo(t, i));
      PosBound(t, PathTo(t, i));
    }
  }

  lemma SubSlices<T>(c: seq<T>, s: nat, x: seq<T>, y: seq<T>)
    requires s + |x| + |y| <= |c| && c[s..s + |x| + |y|] == x + y
    ensures c[s..s + |x|] == x && c[s + |x|..s + |x| + |y|] == y
  {
    var d := c[s..s + |x| + |y|];
    assert c[s..s + |x|] == d[..|x|];
    assert c[s + |x|..s + |x| + |y|] == d[|x|..];
  }

  lemma CellHead(c: seq<Cell>, s: nat, t: Tree)
    requires s + Size(t) <= |c| && c[s..s + Size(t)] == FlatT(t)
    ensures c[s] == Cell(t.id, t.data, SizeF(t.kids)) && Size(t) == 1 + SizeF(t.kids)
    ensures c[s + 1..s + 1 + SizeF(t.kids)] == FlatF(t.kids)
  {
    var n := Cell(t.id, t.data, SizeF(t.kids));
    assert c[s] == c[s..s + Size(t)][0] == n;
    SubSlices(c, s, [n], FlatF(t.kids));
  }

  lemma RangeEmpty(c: seq<Cell>, e: nat)
    requires Bounded(c) && e <= |c|
    ensures DirectRange(c, e, e) == [] && KeyRange(c, e, e) == []
  {
  }

  lemma {:induction false} DirectOfF(c: seq<Cell>, s: nat, f: seq<Tree>, e: nat)
    requires Bounded(c) && s + SizeF(f) <= e <= |c| && c[s..s + SizeF(f)] == FlatF(f)
    ensures DirectRange(c, s, e) == DirectF(f) + DirectRange(c, s + SizeF(f), e)
    decreases SizeF(f), 1
  {
    hide DirectRange, DirectT, FlatT, Bounded;
    if f != [] {
      SubSlices(c, s, FlatT(f[0]), FlatF(f[1..]));
      DirectOfT(c, s, f[0], e);
      DirectOfF(c, s + Size(f[0]), f[1..], e);
    }
  }

  lemma {:induction false} DirectOfT(c: seq<Cell>, s: nat, t: Tree, e: nat)
    requires Bounded(c) && s + Size(t) <= e <= |c| && c[s..s + Size(t)] == FlatT(t)
    ensures DirectRange(c, s, e) == DirectT(t) + DirectRange(c, s + Size(t), e)
    decreases Size(t), 0
  {
    CellHead(c, s, t);
    hide FlatT, FlatF, SizeF, DirectF, Bounded;
    if t.data.typ != Grouping {
      DirectOfF(c, s + 1, t.kids, e);
    }
  }

  lemma {:induction false} KeysOfF(c: seq<Cell>, s: nat, f: seq<Tree>, e: nat)
    requires Bounded(c) && s + SizeF(f) <= e <= |c| && c[s..s + SizeF(f)] == FlatF(f)
    ensures KeyRange(c, s, e) == KeysF(f) + KeyRange(c, s + SizeF(f), e)
    decreases SizeF(f), 1
  {
    hide KeyRange, KeysT, FlatT, DirectF, Bounded;
    if f != [] {
      SubSlices(c, s, FlatT(f[0]), FlatF(f[1..]));
      KeysOfT(c, s, f[0], e);
      KeysOfF(c, s + Size(f[0]), f[1..], e);
    }
  }

  lemma {:induction false} KeysOfT(c: seq<Cell>, s: nat, t: Tree, e: nat)
    requires Bounded(c) && s + Size(t) <= e <= |c| && c[s..s + Size(t)] == FlatT(t)
    ensures KeyRange(c, s, e) == KeysT(t) + KeyRange(c, s + Size(t), e)
    decreases Size(t), 0
  {
    CellHead(c, s, t);
    hide FlatT, FlatF, SizeF, KeysF, DirectF, DirectRange, Bounded;
    KeysOfF(c, s + 1, t.kids, e);
    DirectOfF(c, s + 1, t.kids, s + 1 + SizeF(t.kids));
    RangeEmpty(c, s + 1 + SizeF(t.kids));
    assert DirectF(t.kids) + [] == DirectF(t.kids);
  }

  lemma CellBound(c: seq<Cell>, i: nat)
    requires Bounded(c) && i < |c|
    ensures c[i].desc >= 0 && i + 1 + c[i].desc <= |c|
  {
  }

  /** One step through the cells of a grouping. */
  lemma RangeStep(c: seq<Cell>, j: nat, e: nat)
    requires Bounded(c) && j < e <= |c|
    ensures c[j].desc >= 0
    ensures DirectRange(c, j, e) == (if c[j].data.typ == Grouping then DirectRange(c, j + 1 + c[j].desc, e)
                                     else
                                       var own := if c[j].data.typ == Uses then [c[j].data.ref] else [];
                                       own + DirectRange(c, j + 1, e))
  {
  }

  lemma RangePast(c: seq<Cell>, j: nat, e: nat)
    requires Bounded(c) && e <= |c| && e <= j
    ensures DirectRange(c, j, e) == []
  {
  }

  /** The uses of one grouping. */
  method DirectUses(y: Array.YTree, g: nat) returns (uses: seq<nat>)
    requires y.Valid() && g < y.count && Bounded(FlatT(y.tree))
    ensures y.count == Size(y.tree)
    ensures var c := FlatT(y.tree); uses == DirectRange(c, g + 1, g + 1 + c[g].desc)
  {
    hide FlatT, LinkT, Array.Stores, Size, DirectRange;
    ghost var c := FlatT(y.tree);
    Array.StoredNode(y, g);
    CellBound(c, g);
    RangeEmpty(c, g + 1 + c[g].desc);
    uses := [];
    var j := 0;
    while j < y.nodes[g].descendants
      invariant 0 <= j && g + 1 + c[g].desc <= |c| && y.count == Size(y.tree) == |c|
                && y.nodes[g].descendants == c[g].desc
      invariant uses + DirectRange(c, g + 1 + j, g + 1 + c[g].desc) == DirectRange(c, g + 1, g + 1 + c[g].desc)
      decreases y.nodes[g].descendants - j
    {
      Array.StoredNode(y, g + j + 1);
      RangeStep(c, g + 1 + j, g + 1 + c[g].desc);
      var iter := y.nodes[g + j + 1];
      if iter.data.typ == Uses {
        uses := uses + [iter.data.ref];
      } else if iter.data.typ == Grouping {
        j := j + iter.descendants;
      }
      j := j + 1;
    }
    RangePast(c, g + 1 + j, g + 1 + c[g].desc);
  }

  /** The dictionary: every grouping with its uses. */
  method FillDict(y: Array.YTree) returns (dict: seq<GroupKey>)
    requires y.Valid() && y.tree.data.typ != Grouping
    ensures dict == KeysT(y.tree)
  {
    ghost var c := FlatT(y.tree);
    TreeBounded(y.tree);
    Array.StoredNode(y, 0);
    assert c[0..Size(y.tree)] == c;
    KeysOfT(c, 0, y.tree, Size(y.tree));
    assert KeysT(y.tree) + [] == KeysT(y.tree);
    hide FlatT, LinkT, KeysT;
    dict := [];
    var i := 1;
    while i < y.count
      invariant 0 < i <= y.count == |c| && dict + KeyRange(c, i, |c|) == KeysT(y.tree)
    {
      Array.StoredNode(y, i);
      if y.nodes[i].data.typ == Grouping {
        var uses := DirectUses(y, i);
        dict := dict + [GroupKey(y.nodes[i].id, uses)];
      }
      i := i + 1;
    }
  }

  // ----- Moving the groupings -----

  lemma {:induction false} KeyNodeF(f: seq<Tree>, k: GroupKey) returns (i: nat, q: Path)
    requires k in KeysF(f)
    ensures i < |f| && ValidPath(f[i], q) && At(f[i], q).data.typ == Grouping && At(f[i], q).id == k.gr
    decreases SizeF(f), 1
  {
    if k in KeysT(f[0]) {
      i := 0;
      q := KeyNodeT(f[0], k);
    } else {
      var j, p := KeyNodeF(f[1..], k);
      i, q := j + 1, p;
    }
  }

  /** A grouping that is listed is somewhere in the tree. */
  lemma {:induction false} KeyNodeT(t: Tree, k: GroupKey) returns (q: Path)
    requires k in KeysT(t)
    ensures ValidPath(t, q) && At(t, q).data.typ == Grouping && At(t, q).id == k.gr
    decreases Size(t), 0
  {
    if k in KeysF(t.kids) {
      var i, p := KeyNodeF(t.kids, k);
      q := [i] + p;
      assert q[1..] == p;
    } else {
      q := [];
    }
  }

  lemma {:induction false} GrsOfKeysF(f: seq<Tree>)
    ensures multiset(Grs(KeysF(f))) <= IdsF(f)
    decreases SizeF(f), 1
  {
    if f != [] {
      GrsOfKeysT(f[0]);
      GrsOfKeysF(f[1..]);
      GrsConcat(KeysT(f[0]), KeysF(f[1..]));
    }
  }

  lemma {:induction false} GrsOfKeysT(t: Tree)
    ensures multiset(Grs(KeysT(t))) <= IdsT(t)
    decreases Size(t), 0
  {
    GrsOfKeysF(t.kids);
    GrsNode(t);
    hide Grs, KeysT, KeysF, IdsF;
    assert IdsT(t) == multiset{t.id} + IdsF(t.kids);
    if t.data.typ == Grouping {
      assert multiset([t.id] + Grs(KeysF(t.kids))) == multiset{t.id} + multiset(Grs(KeysF(t.kids)));
    }
  }

  lemma GrsNode(t: Tree)
    ensures Grs(KeysT(t)) == (if t.data.typ == Grouping then [t.id] else []) + Grs(KeysF(t.kids))
  {
    if t.data.typ == Grouping {
      GrsConcat([GroupKey(t.id, DirectF(t.kids))], KeysF(t.kids));
    } else {
      assert KeysT(t) == KeysF(t.kids);
    }
  }

  lemma GrsConcat(a: seq<GroupKey>, b: seq<GroupKey>)
    ensures Grs(a + b) == Grs(a) + Grs(b)
  {
  }

  function Grs(ks: seq<GroupKey>): (s: seq<nat>)
    ensures |s| == |ks|
  {
    seq(|ks|, i requires 0 <= i < |ks| => ks[i].gr)
  }

  lemma KeysUnlike(t: Tree)
    requires Distinct(IdsT(t))
    ensures Unlike(KeysT(t))
  {
    GrsOfKeysT(t);
    var s := Grs(KeysT(t));
    assert Distinct(multiset(s));
    OnceInSeq(s);
    forall i, j | 0 <= i < j < |KeysT(t)| ensures KeysT(t)[i].gr != KeysT(t)[j].gr {
      assert s[i] != s[j];
    }
  }

  /** The node with an id, found from the front. */
  method FindId(y: Array.YTree, id: nat, ghost q: Path) returns (j: nat)
    requires y.Valid() && Distinct(IdsT(y.tree)) && q != [] && ValidPath(y.tree, q) && At(y.tree, q).id == id
    ensures 0 < j < y.count == Size(y.tree) && PathTo(y.tree, j) == q
  {
    ghost var k := Pos(y.tree, q);
    PathToPos(y.tree, q);
    StoredData(y, k, q);
    PosAbove(y.tree, q);
    Array.StoredNode(y, 0);
    j := 1;
    while y.nodes[j].id != id
      invariant 0 < j <= k < y.count
      decreases k - j
    {
      j := j + 1;
    }
    Array.StoredNode(y, j);
    Array.StoredNode(y, k);
    OnceAtMost(IdsT(y.tree), id);
    if j < k { OnlyThere(y.tree, j, k, id); }
  }

  lemma PosAbove(t: Tree, q: Path)
    requires q != [] && ValidPath(t, q)
    ensures Pos(t, q) > 0
  {
    ParentLink(t, q);
  }

  /** Where the next grouping is. */
  lemma NextGroup(t: Tree, t0: Tree, sort: seq<nat>, k: nat, p: (nat, Data) -> bool) returns (q: Path)
    requires Arranged(t, t0, sort, k, p) && Topological(KeysT(t0), sort) && k < |sort| && t0.data.typ != Grouping
             && Unlike(KeysT(t0))
    ensures q != [] && ValidPath(t, q) && At(t, q).data.typ == Grouping && At(t, q).id == sort[k]
  {
    var dict := KeysT(t0);
    GrsAre(dict, sort, k);
    var i :| 0 <= i < |dict| && dict[i].gr == sort[k];
    assert dict[i] in multiset(KeysT(t));
    q := KeyNodeT(t, dict[i]);
    assert q != [];
  }

  lemma GrsAre(dict: seq<GroupKey>, sort: seq<nat>, k: nat)
    requires Topological(dict, sort) && Unlike(dict) && k < |sort|
    ensures exists i :: 0 <= i < |dict| && dict[i].gr == sort[k]
  {
    var grs := Grs(dict);
    ElementCount(grs);
    ElementCount(sort);
    assert Elements(grs) <= Elements(sort);
    SameSet(Elements(grs), Elements(sort));
    assert sort[k] in Elements(sort);
    var i :| 0 <= i < |grs| && grs[i] == sort[k];
    assert dict[i].gr == sort[k];
  }

  /** All groupings go to the end of the root, in the order found. */
  method MoveGroups(y: Array.YTree, sort: seq<nat>)
    requires y.Valid() && Readable(y.tree) && Topological(KeysT(y.tree), sort)
    modifies y`count, y`tree, y`idcnt, y.nodes
    ensures y.Valid() && Arranged(y.tree, old(y.tree), sort, |sort|, Settled)
  {
    ghost var t0 := y.tree;
    StartArranged(t0, sort);
    KeysUnlike(t0);
    assert t0.data.typ != Grouping && NoTwice(sort);
    hide Readable, Arranged, FlatT, LinkT, KeysT, Contents, Topological, Unlike, NoTwice;
    var i := 0;
    while i < |sort|
      invariant y.Valid() && 0 <= i <= |sort| && Arranged(y.tree, t0, sort, i, Settled)
    {
      ghost var q := NextGroup(y.tree, t0, sort, i, Settled);
      ArrangedDistinct(y.tree, t0, sort, i, Settled);
      ArrangeStep(y.tree, t0, sort, i, Settled, q);
      RootIndex(y.tree);
      var j := FindId(y, sort[i], q);
      y.MoveAsLastChild(0, j);
      i := i + 1;
    }
  }

  lemma ArrangedDistinct(t: Tree, t0: Tree, sort: seq<nat>, k: nat, p: (nat, Data) -> bool)
    requires Arranged(t, t0, sort, k, p)
    ensures Distinct(IdsT(t)) && t.kids != []
  {
  }

  lemma RootIndex(t: Tree)
    ensures PathTo(t, 0) == [] && ValidPath(t, []) && At(t, []) == t
  {
  }

  /** ay_ynode_groupings_ahead: it ends whenever the groupings can be sorted, and it means the same then. */
  method MoveGroupingsAhead(y: Array.YTree, ghost order: seq<nat>) returns (sort: seq<nat>)
    requires y.Valid() && Readable(y.tree) && Resolved(y.tree) && Topological(KeysT(y.tree), order)
    modifies y`count, y`tree, y`idcnt, y.nodes
    ensures y.Valid() && Topological(KeysT(old(y.tree)), sort)
    ensures Ahead(y.tree, sort) && y.tree.kids[|sort|].data.typ == List && MeansSame(y.tree, old(y.tree))
  {
    ghost var t0 := y.tree;
    KeysUnlike(t0);
    assert t0.data.typ != Grouping;
    hide Readable, Resolved, Arranged, FlatT, LinkT, KeysT, Topological, Unlike, MeansSame, Ahead;
    var dict := FillDict(y);
    if dict == [] {
      sort := [];
      EmptySorted(t0);
      StartArranged(t0, []);
      AheadKeepsMeaning(t0, t0, []);
      return;
    }
    sort := SortGroups(dict, order);
    MoveGroups(y, sort);
    AheadKeepsMeaning(y.tree, t0, sort);
    MainToEnd(y, t0, sort);
  }

  lemma EmptySorted(t: Tree)
    requires Readable(t) && KeysT(t) == []
    ensures Topological(KeysT(t), []) && MainLast(t) == t
  {
    StartArranged(t, []);
    assert Topological(KeysT(t), []);
    NoNesting(t, t, []);
  }

  /** The main list goes behind the groupings. */
  method MainToEnd(y: Array.YTree, ghost t0: Tree, sort: seq<nat>)
    requires y.Valid() && Readable(t0) && Arranged(y.tree, t0, sort, |sort|, Settled) && sort != []
    modifies y`count, y`tree, y`idcnt, y.nodes
    ensures y.Valid() && old(y.tree.kids) != [] && y.tree == MainLast(old(y.tree))
  {
    ghost var t := y.tree;
    ArrangedTail(t, t0, sort);
    hide Readable, Arranged, FlatT, LinkT, Contents;
    RootIndex(t);
    LastOfRoot(t);
    var last := y.LastChild(0);
    Array.StoredNode(y, last);
    if y.nodes[last].data.typ != List {
      RootMove(t, [0]);
      CutHere(t, 0);
      assert t.kids[..0] + t.kids[0 + 1..] == t.kids[1..];
      Array.StoredNode(y, 0);
      y.MoveAsSibling(last, y.nodes[0].child);
    }
  }

  lemma ArrangedTail(t: Tree, t0: Tree, sort: seq<nat>)
    requires Arranged(t, t0, sort, |sort|, Settled) && sort != []
    ensures |t.kids| > 1 && t.kids[|t.kids| - 1].data.typ == Grouping
  {
  }

  /** The first and the last child of the root. */
  lemma LastOfRoot(t: Tree)
    requires t.kids != []
    ensures ValidPath(t, []) && At(t, []) == t
    ensures LinkT(t, 0, NULL, NULL)[0].child == 1 < Size(t) && PathTo(t, 1) == [0]
    ensures var k := |t.kids| - 1;
            var i := RangeStart(t, [], k);
            && 0 < i < Size(t) && PathTo(t, i) == [k] && FlatT(t)[i].data == t.kids[k].data
            && Up([k]) == [] && Last([k]) == k && !([0] <= Up([k]))
  {
    var k := |t.kids| - 1;
    NodeKids(t, []);
    KidsStart(t, []);
    AllKids(t, []);
    KidIndex(t, [], 0);
    KidIndex(t, [], k);
    assert [] + [0] == [0] && [] + [k] == [k];
  }
}
