/** ay_ynode_set_ref on the stored array, and both passes together. */
module MarkingPass {
  import opened YNodes
  import opened RoseTree
  import opened TreeLinks
  import opened TreeEdits
  import opened Expansion
  import opened Rewriting
  import opened ConversionFacts
  import opened Groupings
  import opened GroupingRuns
  import opened GroupingPass
  import opened GroupingBuild
  import opened GroupingLoop
  import opened MarkingSteps
  import opened Marking
  import opened MarkingRun
  import opened MarkingConditions
  import opened TreeForms
  import Array = YTree

  /** Whether the node has no siblings. */
  method IsLone(y: Array.YTree, i: nat) returns (lone: bool)
    requires y.Valid() && 0 < i < y.count
    ensures i < Size(y.tree) && lone == Lone(y.tree, i)
  {
    Array.StoredNode(y, i);
    TreeFacts(y.tree, 0, NULL, NULL, i);
    var p := y.nodes[i].parent;
    Array.StoredNode(y, p);
    lone := y.nodes[i].next == NULL && y.nodes[p].child == i;
  }

  /** ay_ynode_equal */
  method NodeEqual(y: Array.YTree, i: nat, j: nat, ignoreChoice: bool) returns (equal: bool)
    requires y.Valid() && 0 < i < y.count && 0 < j < y.count
    ensures y.count == Size(y.tree) && equal == EqualAt(y.tree, i, j, ignoreChoice)
  {
    var aloneI := IsLone(y, i);
    var aloneJ := IsLone(y, j);
    Array.StoredNode(y, i);
    Array.StoredNode(y, j);
    equal := SameNode(Array.CellOf(y.nodes[i]), Array.CellOf(y.nodes[j]), aloneI || aloneJ, ignoreChoice);
  }

  method AllEqual(y: Array.YTree, i: nat, j: nat, n: nat) returns (equal: bool)
    requires y.Valid() && 0 < i && 0 < j && i + n <= y.count && j + n <= y.count
    ensures y.count == Size(y.tree) && equal == RunEqual(y.tree, i, j, n)
  {
    hide FlatT, LinkT, EqualAt;
    Array.StoredNode(y, 0);
    var k := 0;
    while k < n
      invariant 0 <= k <= n && y.count == Size(y.tree)
      invariant forall m: nat :: m < k ==> EqualPair(y.tree, i, j, m)
    {
      var same := NodeEqual(y, i + k, j + k, false);
      if !same {
        assert !EqualPair(y.tree, i, j, k);
        return false;
      }
      assert EqualPair(y.tree, i, j, k);
      k := k + 1;
    }
    equal := true;
  }

  /** ay_ynode_subtree_equal with compare_roots */
  method TreeEqual(y: Array.YTree, i: nat, j: nat) returns (equal: bool)
    requires y.Valid() && 0 < i < y.count && 0 < j < y.count
    ensures y.count == Size(y.tree) && equal == TreesEqual(y.tree, i, j)
  {
    hide FlatT, LinkT, EqualAt, RunEqual, At, PathTo, Pos, Size, Array.Stores, ValidPath;
    Array.StoredNode(y, i);
    StoredData(y, i, PathTo(y.tree, i));
    StoredData(y, j, PathTo(y.tree, j));
    PosBound(y.tree, PathTo(y.tree, i));
    PosBound(y.tree, PathTo(y.tree, j));
    if i == j {
      return true;
    }
    equal := NodeEqual(y, i, j, true);
    if equal && y.nodes[i].descendants == y.nodes[j].descendants {
      equal := AllEqual(y, i + 1, j + 1, y.nodes[i].descendants);
    } else {
      equal := false;
    }
  }

  /** ay_ynode_inner_nodes_descendants, and where the inner nodes start. */
  method CountInners(y: Array.YTree, i: nat) returns (start: int, n: nat)
    requires y.Valid() && 0 < i < y.count
    ensures y.count == Size(y.tree) && n == InnerCount(y.tree, i) && (n != 0 ==> start == InnerStart(y.tree, i))
    ensures var f := At(y.tree, PathTo(y.tree, i)).kids; start == NULL <==> n == 0
  {
    Array.StoredNode(y, i);
    StoredData(y, i, PathTo(y.tree, i));
    InnerBound(y.tree, i);
    InnerZero(y.tree, i);
    hide FlatT, LinkT, At, PathTo, InnerIndex, RangeStart, InnerCount;
    start := InnerNodes(y, i);
    if start == NULL {
      return NULL, 0;
    }
    n := y.nodes[i].descendants - ((start - 1) - i);
  }

  lemma InnerZero(t: Tree, i: nat)
    requires i < Size(t)
    ensures var f := At(t, PathTo(t, i)).kids; InnerCount(t, i) == 0 <==> InnerIndex(f) == |f|
  {
    var f := At(t, PathTo(t, i)).kids;
    SizeZero(f[InnerIndex(f)..]);
  }

  /** ay_ynode_subtree_equal without compare_roots */
  method InnerEqual(y: Array.YTree, i: nat, j: nat) returns (equal: bool)
    requires y.Valid() && 0 < i < y.count && 0 < j < y.count
    ensures y.count == Size(y.tree) && equal == InnersEqual(y.tree, i, j)
  {
    hide FlatT, LinkT, At, PathTo, InnerStart, InnerCount, RunEqual;
    Array.StoredNode(y, i);
    InnerBound(y.tree, i);
    InnerBound(y.tree, j);
    if i == j {
      return true;
    }
    var si, ni := CountInners(y, i);
    var sj, nj := CountInners(y, j);
    if ni == 0 || ni != nj {
      return false;
    }
    equal := AllEqual(y, si, sj, ni);
  }

  /** ay_ynode_inner_node_alone */
  method IsInnerAlone(y: Array.YTree, i: nat) returns (alone: bool)
    requires y.Valid() && 0 < i < y.count
    ensures i < Size(y.tree) && alone == InnerAlone(y.tree, i)
  {
    ghost var t, q := y.tree, PathTo(y.tree, i);
    UpValid(t, q);
    NextLink(t, q);
    Array.StoredNode(y, i);
    StoredData(y, i, q);
    PathToPos(t, Up(q));
    hide FlatT, LinkT, At, PathTo, InnerIndex, RangeStart, Pos, Size;
    var p := y.nodes[i].parent;
    StoredData(y, p, Up(q));
    var inner := InnerNodes(y, p);
    ghost var k := InnerIndex(At(t, Up(q)).kids);
    if k < |At(t, Up(q)).kids| { RangeStartSame(t, Up(q), k, Last(q)); }
    alone := inner == i && y.nodes[i].next == NULL;
  }

  /** How the node at `j` matches the one at `i`. */
  method MatchNode(y: Array.YTree, i: nat, j: nat) returns (m: Match)
    requires y.Valid() && 0 < i < y.count && 0 < j < y.count
    ensures y.count == Size(y.tree) && m == MatchOf(y.tree, i, j)
  {
    hide FlatT, LinkT, At, PathTo, InnerCount, InnerStart, TreesEqual, InnersEqual, InnerAlone;
    StoredData(y, j, PathTo(y.tree, j));
    var aloneI := IsInnerAlone(y, i);
    var aloneJ := IsInnerAlone(y, j);
    var si, ni := CountInners(y, i);
    var sj, nj := CountInners(y, j);
    var typ := y.nodes[j].data.typ;
    if typ == List || (typ == Container && ((aloneI && aloneJ) || nj == 0)) {
      var equal := TreeEqual(y, i, j);
      if equal {
        return Whole;
      }
    }
    if ni != 0 {
      var equal := InnerEqual(y, i, j);
      if equal {
        return Inner;
      }
    }
    m := No;
  }

  /** Whether there is only one inner node. */
  method IsPoor(y: Array.YTree, i: nat) returns (poor: bool)
    requires y.Valid() && 0 < i < y.count
    ensures i < Size(y.tree) && poor == Poor(y.tree, i)
  {
    ghost var t, p := y.tree, PathTo(y.tree, i);
    Array.StoredNode(y, i);
    var inner := InnerNodes(y, i);
    ghost var f := At(t, p).kids;
    if InnerIndex(f) < |f| {
      KidNode(t, p, InnerIndex(f));
      Array.StoredNode(y, RangeStart(t, p, InnerIndex(f)));
    }
    poor := inner != NULL && y.nodes[inner].next == NULL;
  }

  /** One round of the inner loop: the next index, and what was found. */
  method SeekOne(y: Array.YTree, i: nat, r: nat, j: nat, rules: Rules, whole: bool, inner: bool, splittable: bool)
    returns (next: nat, whole': bool, inner': bool, splittable': bool)
    requires y.Valid() && 0 < i < j < y.count && y.count == Size(y.tree)
    modifies y`tree, y.nodes
    ensures y.Valid() && y.count == Size(y.tree) && j < next <= y.count
    ensures (Found(y.tree, whole', inner', splittable'), next)
            == Step(Found(old(y.tree), whole, inner, splittable), i, r, j, rules)
  {
    hide FlatT, LinkT, At, PathTo, SetData, MatchOf, Poor;
    whole', inner', splittable' := whole, inner, splittable;
    ghost var q := PathTo(y.tree, j);
    StoredData(y, j, q);
    PosBound(y.tree, q);
    var d, id := y.nodes[j].data, y.nodes[j].id;
    next := j + y.nodes[j].descendants + 1;
    if d.ref != 0 {
      return;
    }
    if !rules.fit(id) {
      next := j + 1;
      return;
    }
    var m := MatchNode(y, i, j);
    if m == Whole {
      whole' := true;
      y.SetNodeData(j, Mark(d, r, false));
    } else if m == Inner {
      splittable' := splittable || rules.splittable(id);
      var poor := IsPoor(y, i);
      if !splittable' && poor {
        next := j + 1;
      } else {
        inner' := true;
        y.SetNodeData(j, Mark(d, r, true));
      }
    } else {
      next := j + 1;
    }
  }

  /** The inner loop for the node at index `i`. */
  method SeekClass(y: Array.YTree, i: nat, rules: Rules) returns (whole: bool, inner: bool)
    requires y.Valid() && 0 < i < y.count && y.count == Size(y.tree)
    modifies y`tree, y.nodes
    ensures y.Valid() && y.count == Size(y.tree)
    ensures var g := ClassSeek(old(y.tree), i, rules); y.tree == g.tree && whole == g.whole && inner == g.inner
  {
    ghost var t, q := y.tree, PathTo(y.tree, i);
    StoredData(y, i, q);
    PosBound(t, q);
    hide FlatT, LinkT, At, PathTo, SetData, Step;
    var r := y.nodes[i].id;
    var j := i + y.nodes[i].descendants + 1;
    ghost var g := Seek(Found(t, false, false, false), i, r, j, rules);
    assert g == ClassSeek(t, i, rules);
    var splittable := false;
    whole, inner := false, false;
    while j < y.count
      invariant y.Valid() && y.count == Size(y.tree) && i < j <= y.count
      invariant Seek(Found(y.tree, whole, inner, splittable), i, r, j, rules) == g
      decreases y.count - j
    {
      j, whole, inner, splittable := SeekOne(y, i, r, j, rules, whole, inner, splittable);
    }
  }

  /** The class of the node at index `i`, and at last the node itself. */
  method MarkOne(y: Array.YTree, i: nat, rules: Rules) returns (mixed: bool)
    requires y.Valid() && 0 < i < y.count && y.count == Size(y.tree)
    modifies y`tree, y.nodes
    ensures y.Valid() && y.count == Size(y.tree)
    ensures (y.tree, mixed) == MarkClass(old(y.tree), i, rules)
  {
    ghost var t, q := y.tree, PathTo(y.tree, i);
    StoredData(y, i, q);
    hide FlatT, LinkT, At, PathTo, SetData, Seek, ClassSeek;
    var r, d := y.nodes[i].id, y.nodes[i].data;
    var whole, inner := SeekClass(y, i, rules);
    mixed := inner && whole;
    SeekKeepsLead(t, i, rules);
    PathToPos(y.tree, q);
    if inner || whole {
      StoredData(y, i, q);
      var now := y.nodes[i].data;
      y.SetNodeData(i, Mark(now, r, inner));
    }
  }

  /** The loop marks only nodes behind the first one. */
  lemma SeekKeepsLead(t: Tree, i: nat, rules: Rules)
    requires 0 < i < Size(t)
    ensures var q, g := PathTo(t, i), ClassSeek(t, i, rules);
            ValidPath(g.tree, q) && At(g.tree, q) == At(t, q) && Pos(g.tree, q) == i
  {
    hide Seek, At, SetData, Mark, Pos, PathTo, Step;
    var q := PathTo(t, i);
    PosBound(t, q);
    SeekLead(Found(t, false, false, false), i, At(t, q).id, i + Size(At(t, q)), rules, q);
  }

  lemma {:induction false} SeekLead(f: Found, i: nat, r: nat, j: nat, rules: Rules, q: Path)
    requires 0 < i < j <= Size(f.tree) && ValidPath(f.tree, q) && Pos(f.tree, q) == i && i + Size(At(f.tree, q)) <= j
    ensures var g := Seek(f, i, r, j, rules);
            ValidPath(g.tree, q) && At(g.tree, q) == At(f.tree, q) && Pos(g.tree, q) == i
    decreases Size(f.tree) - j
  {
    hide Step, At, SetData, Mark, Pos, PathTo;
    if j < Size(f.tree) {
      var s := Step(f, i, r, j, rules);
      StepTree(f, i, r, j, rules);
      var m := At(f.tree, PathTo(f.tree, j)).data;
      LedSet(f.tree, q, r, j, true, Mark(m, r, true));
      LedSet(f.tree, q, r, j, true, Mark(m, r, false));
      SeekLead(s.0, i, r, s.1, rules, q);
    }
  }

  // ----- The restriction for leafrefs -----

  /** The nearest recursion above. */
  method FindRec(y: Array.YTree, i: nat) returns (rec: Option<nat>)
    requires y.Valid() && 0 < i < y.count
    ensures i < Size(y.tree) && rec == (UpValid(y.tree, PathTo(y.tree, i)); RecAbove(y.tree, Up(PathTo(y.tree, i))))
  {
    ghost var t, q := y.tree, PathTo(y.tree, i);
    UpValid(t, q);
    Array.StoredNode(y, i);
    Above(t, q);
    ghost var u := Up(q);
    ghost var found := RecAbove(t, u);
    hide FlatT, LinkT, At, PathTo, Pos, Size, RecAbove, Array.Stores;
    var a := y.nodes[i].parent;
    while a != NULL
      invariant a == NULL ==> found == None
      invariant a != NULL ==>
                0 <= a < y.count && ValidPath(t, u) && Pos(t, u) == a && PathTo(t, a) == u && RecAbove(t, u) == found
      decreases if a == NULL then -1 else a
    {
      StoredData(y, a, u);
      Array.StoredNode(y, a);
      RecHere(t, u);
      if y.nodes[a].data.typ == Rec {
        return Some(y.nodes[a].id);
      }
      RootLinks(t);
      if u != [] {
        UpValid(t, u);
        Above(t, u);
        u := Up(u);
      } else {
        RootPlace(t);
      }
      a := y.nodes[a].parent;
    }
    rec := None;
  }

  /** Where the node above is. */
  lemma Above(t: Tree, q: Path)
    requires q != [] && ValidPath(t, q)
    ensures ValidPath(t, Up(q)) && Pos(t, q) < Size(t) && 0 <= Pos(t, Up(q)) < Pos(t, q)
    ensures LinkT(t, 0, NULL, NULL)[Pos(t, q)].parent == Pos(t, Up(q)) && PathTo(t, Pos(t, Up(q))) == Up(q)
  {
    UpValid(t, q);
    NextLink(t, q);
    ParentLink(t, q);
    PathToPos(t, Up(q));
  }

  lemma RootPlace(t: Tree)
    ensures Pos(t, []) == 0
  {
  }

  lemma RecHere(t: Tree, q: Path)
    requires ValidPath(t, q)
    ensures At(t, q).data.typ == Rec ==> RecAbove(t, q) == Some(At(t, q).id)
    ensures At(t, q).data.typ != Rec && q == [] ==> RecAbove(t, q) == None
    ensures At(t, q).data.typ != Rec && q != [] ==> ValidPath(t, Up(q)) && RecAbove(t, q) == RecAbove(t, Up(q))
  {
    if q != [] { UpValid(t, q); }
  }

  /** ay_ynode_set_ref_leafref_restriction */
  method IsRestricted(y: Array.YTree, i: nat, rules: Rules) returns (restricted: bool)
    requires y.Valid() && 0 < i < y.count
    ensures i < Size(y.tree) && restricted == Restricted(y.tree, PathTo(y.tree, i), rules)
  {
    ghost var t, q := y.tree, PathTo(y.tree, i);
    Array.StoredNode(y, i);
    StoredData(y, i, q);
    UpValid(t, q);
    PosBound(t, q);
    hide FlatT, LinkT, At, PathTo, Size, RecAbove, Array.Stores, Recursive;
    var rec := FindRec(y, i);
    if rec == None {
      return false;
    }
    var b := i + 1;
    while b < i + 1 + y.nodes[i].descendants
      invariant i < b <= i + 1 + y.nodes[i].descendants <= y.count == Size(t)
      invariant forall a: nat :: i < a < b ==> !Recursive(t, a, rec.value, rules)
    {
      Array.StoredNode(y, b);
      RecursiveIs(t, b, rec.value, rules);
      if y.nodes[b].data.typ == Leafref && rules.body(y.nodes[b].id) == rules.body(rec.value) {
        return true;
      }
      b := b + 1;
    }
    restricted := false;
  }

  lemma RecursiveIs(t: Tree, b: nat, rec: nat, rules: Rules)
    requires b < Size(t)
    ensures Recursive(t, b, rec, rules) == (FlatT(t)[b].data.typ == Leafref
            && rules.body(FlatT(t)[b].id) == rules.body(rec))
  {
  }

  /** Whether the node at index `i` may be the first of a class. */
  method IsCandidate(y: Array.YTree, i: nat, rules: Rules) returns (may: bool)
    requires y.Valid() && 0 < i < y.count
    ensures i < Size(y.tree) && may == Candidate(y.tree, PathTo(y.tree, i), rules)
  {
    ghost var t, q := y.tree, PathTo(y.tree, i);
    UpValid(t, q);
    Array.StoredNode(y, i);
    hide FlatT, LinkT, At, PathTo, Pos, Size, Restricted;
    StoredData(y, i, q);
    var p := y.nodes[i].parent;
    StoredData(y, p, Up(q));
    var typ := y.nodes[i].data.typ;
    if (typ == List && y.nodes[p].data.typ == Root) || (typ != Container && typ != List) {
      return false;
    }
    var restricted := IsRestricted(y, i, rules);
    may := !restricted && rules.fit(y.nodes[i].id);
  }

  /** Whether the node is a child of a recursion. */
  method IsBelowRec(y: Array.YTree, i: nat) returns (below: bool)
    requires y.Valid() && 0 < i < y.count
    ensures i < Size(y.tree) && below == BelowRec(y.tree, PathTo(y.tree, i))
  {
    ghost var t, q := y.tree, PathTo(y.tree, i);
    UpValid(t, q);
    Array.StoredNode(y, i);
    Above(t, q);
    hide FlatT, LinkT, At, PathTo, Pos, Size;
    var p := y.nodes[i].parent;
    StoredData(y, p, Up(q));
    below := y.nodes[p].data.typ == Rec;
  }

  /** ay_ynode_set_ref; also tells whether a class is mixed. */
  method SetRef(y: Array.YTree, rules: Rules) returns (mixed: bool)
    requires y.Valid() && y.count == Size(y.tree)
    modifies y`tree, y.nodes
    ensures y.Valid() && (y.tree, mixed) == MarkFrom(old(y.tree), 1, rules)
  {
    hide FlatT, LinkT, At, PathTo, MarkClass, Candidate, BelowRec;
    ghost var t0 := y.tree;
    mixed := false;
    var i := 1;
    while i < y.count
      invariant y.Valid() && y.count == Size(y.tree) && 0 < i <= y.count
      invariant var r := MarkFrom(y.tree, i, rules); MarkFrom(t0, 1, rules) == (r.0, mixed || r.1)
      decreases y.count - i
    {
      ghost var q := PathTo(y.tree, i);
      StoredData(y, i, q);
      PosBound(y.tree, q);
      var candidate := IsCandidate(y, i, rules);
      var below := IsBelowRec(y, i);
      if y.nodes[i].data.ref != 0 && !below {
        i := i + y.nodes[i].descendants + 1;
      } else {
        if candidate {
          var c := MarkOne(y, i, rules);
          mixed := mixed || c;
        }
        i := i + 1;
      }
    }
  }

  /** The marking of a tree that has no numbers of the other pass. */
  lemma MarkedAlone(t: Tree, lim: Limits, rules: Rules)
    requires Unmarked(t, lim, {}, rules) && Clean(t, 1, rules, {})
    ensures var r := MarkFrom(t, 1, rules);
            && WellMarked(r.0, lim.ids, lim.refs) && (Meaning(r.0) == Meaning(t) <==> !r.1)
               && (Unmixed(t, rules) ==> !r.1)
  {
    hide *;
    UntagNoneT(t);
    UntagNoneT(MarkFrom(t, 1, rules).0);
    MarkingKeepsMeaning(t, lim, {}, rules);
    if Unmixed(t, rules) {
      UnmarkedParts(t, lim, {}, rules);
      TracedSelf(t, {});
      MarkUnmixed(t, t, 1, rules, lim, {});
    }
  }

  /** Both passes: all classes are found and made groupings, and the expanded tree is the one from before
      exactly if no class is mixed. */
  method GroupAll(y: Array.YTree, rules: Rules, ghost refs: set<nat>) returns (mixed: bool)
    requires y.Valid() && Unmarked(y.tree, Limits(y.idcnt, refs), {}, rules) && Clean(y.tree, 1, rules, {})
    requires y.count + NeedT(MarkFrom(y.tree, 1, rules).0) <= y.nodes.Length
    modifies y`count, y`tree, y`idcnt, y.nodes
    ensures y.Valid() && NonePending(FlatT(y.tree)) && WellMarked(y.tree, y.idcnt, refs)
    ensures mixed == MarkFrom(old(y.tree), 1, rules).1 && (Meaning(y.tree) == Meaning(old(y.tree)) <==> !mixed)
    ensures Unmixed(old(y.tree), rules) ==> !mixed
    ensures WellMarked(MarkFrom(old(y.tree), 1, rules).0, old(y.idcnt), refs)
    ensures y.tree == AllExtracted(MarkFrom(old(y.tree), 1, rules).0, old(y.idcnt), refs).0
  {
    hide *;
    ghost var t0, n0 := y.tree, y.idcnt;
    Array.CountIsSize(y);
    MarkedAlone(t0, Limits(n0, refs), rules);
    mixed := SetRef(y, rules);
    ghost var t1 := y.tree;
    CreateGroupings(y, refs);
    ExtractionKeepsMeaning(t1, n0, refs);
  }
}
