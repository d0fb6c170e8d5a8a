/** The loop over all classes of ay_ynode_create_groupings_toplevel. */
module GroupingLoop {
  import opened YNodes
  import opened RoseTree
  import opened TreeLinks
  import opened TreeEdits
  import opened Expansion
  import opened Rewriting
  import opened Conversion
  import opened ConversionFacts
  import opened Groupings
  import opened GroupingSteps
  import opened GroupingRuns
  import opened GroupingEdits
  import opened GroupingPass
  import opened GroupingRest
  import opened GroupingBuild
  import opened GroupingSplit
  import Array = YTree

  // ----- A grouping that serves again -----

  lemma RangeStartSame(t: Tree, p: Path, a: nat, b: nat)
    requires ValidPath(t, p) && a < |At(t, p).kids| && b < |At(t, p).kids|
    ensures RangeStart(t, p, a) == RangeStart(t, p, b) <==> a == b
  {
    if a < b {
      OffMonotone(At(t, p).kids, a, b);
    } else if b < a {
      OffMonotone(At(t, p).kids, b, a);
    }
  }

  /** Whether the node is all there is in a grouping of inner nodes. */
  method CheckReuse(y: Array.YTree, i: nat) returns (reuses: bool)
    requires y.Valid() && 0 < i < y.count
    ensures reuses == Reuses(y.tree, PathTo(y.tree, i))
  {
    ghost var t, q := y.tree, PathTo(y.tree, i);
    UpValid(t, q);
    hide FlatT, LinkT, Pos, Size, At, RangeStart, InnerIndex;
    StoredData(y, i, q);
    var p := y.nodes[i].parent;
    StoredData(y, p, Up(q));
    PathToPos(t, Up(q));
    if y.nodes[p].data.typ != Grouping || p == 0 {
      return false;
    }
    UpValid(t, Up(q));
    StoredData(y, y.nodes[p].parent, Up(Up(q)));
    if GroupingChildren !in y.nodes[y.nodes[p].parent].data.flags {
      return false;
    }
    NextLink(t, q);
    assert Array.LinkOf(y.nodes[..y.count][i]) == LinkT(t, 0, NULL, NULL)[i];
    var inner := InnerNodes(y, p);
    ghost var k := InnerIndex(At(t, Up(q)).kids);
    if k < |At(t, Up(q)).kids| { RangeStartSame(t, Up(q), k, Last(q)); }
    reuses := inner == i && y.nodes[i].next == NULL;
  }

  lemma ReuseShape(t: Tree, q: Path, n: nat, refs: set<nat>)
    requires WellMarked(t, n, refs) && FirstMarked(t, q) && Reuses(t, q)
    ensures ValidPath(t, Up(q)) && At(t, Up(q)).kids == [At(t, q)] && q == Up(q) + [0]
    ensures Pos(t, q) == Pos(t, Up(q)) + 1
    ensures Pos(t, Up(q)) + Size(At(t, Up(q))) == Pos(t, q) + Size(At(t, q))
  {
    UpValid(t, q);
    KeyedAt(t, Up(q));
    AllKids(t, Up(q));
    OneFlat(At(t, q));
  }

  lemma ReuseClass(t: Tree, q: Path, c: Class, n: nat, refs: set<nat>)
    requires WellMarked(t, n, refs) && FirstMarked(t, q) && Reuses(t, q) && !Split(At(t, q).data)
    requires ValidPath(t, Up(q)) && c == ClassOf(At(t, q), At(t, Up(q)).id, At(t, q).data)
    ensures var l := At(t, q);
            var v := ConvT(t, c, n);
            && RestReady(t, n, Pos(t, q), Pos(t, q) + Size(l), c)
            && ValidPath(v.0, q) && Pos(v.0, q) == Pos(t, q) && At(v.0, q) == l
            && Extract(t, q, n) == (ReplaceAt(v.0, q, Cleared(l)), v.1)
  {
    var l := At(t, q);
    assert Extract(t, q, n) == ConvT(Put(t, q, [Cleared(l)]), c, n);
    ReuseRest(t, q, c, n, refs);
  }

  lemma ReuseRest(t: Tree, q: Path, c: Class, n: nat, refs: set<nat>)
    requires WellMarked(t, n, refs) && FirstMarked(t, q) && Reuses(t, q) && !Split(At(t, q).data)
    requires ValidPath(t, Up(q)) && c == Class(At(t, q).id, At(t, Up(q)).id, c.flags)
    ensures var l := At(t, q);
            var v := ConvT(t, c, n);
            && RestReady(t, n, Pos(t, q), Pos(t, q) + Size(l), c)
            && ValidPath(v.0, q) && Pos(v.0, q) == Pos(t, q) && At(v.0, q) == l
            && ConvT(Put(t, q, [Cleared(l)]), c, n) == (ReplaceAt(v.0, q, Cleared(l)), v.1)
  {
    hide *;
    FirstValid(t, q);
    var l := At(t, q);
    FirstRef(t, q, n, refs);
    ReuseKeeps(t, q, n, refs, c.flags);
    HeadOfClass(t, q, c, n, refs);
    OpenedSelf(l, c, n, refs);
    StartReady(t, q, l, 0, c, n, n, refs);
    ReplaceFacts(t, q, l);
    OpenedNone(l, l, 0, c, n, n, refs);
    ConvReplace(t, q, l, c, n, n, refs);
    ReplaceFacts(ConvT(t, c, n).0, q, l);
    WellKeyed(t, n, refs);
    KeyedAt(t, q);
    ReuseReplaces(l, c, n, n, refs);
    ReplacesNone(l, [Cleared(l)], c, refs, n);
    ConvPut(t, q, [Cleared(l)], c, n, n, refs);
    PutOne(ConvT(t, c, n).0, q, Cleared(l));
  }

  /** The class of a node whose grouping serves again, and where the rest of it may start. */
  method ReusedClass(y: Array.YTree, i: nat, ghost n: nat, ghost refs: set<nat>) returns (c: Class, start: nat)
    requires y.Valid() && 0 < i < y.count
    requires var q := PathTo(y.tree, i); WellMarked(y.tree, n, refs) && FirstMarked(y.tree, q) && Reuses(y.tree, q)
    ensures var t, q := y.tree, PathTo(y.tree, i);
            && ValidPath(t, Up(q)) && c == ClassOf(At(t, q), At(t, Up(q)).id, At(t, q).data)
            && start == i + Size(At(t, q))
  {
    hide FlatT, FlatF, LinkT, Pos, Size, At, WellMarked, FirstMarked, Reuses, PathTo;
    ghost var t, q := y.tree, PathTo(y.tree, i);
    ReusePlace(y, i, n, refs);
    var group := y.nodes[i].parent;
    c := NewClass(y, i, group, y.nodes[group].child, q, Up(q), q);
    start := group + y.nodes[group].descendants + 1;
  }

  lemma ReusePlace(y: Array.YTree, i: nat, n: nat, refs: set<nat>)
    requires y.Valid() && 0 < i < y.count
    requires var q := PathTo(y.tree, i); WellMarked(y.tree, n, refs) && FirstMarked(y.tree, q) && Reuses(y.tree, q)
    ensures var t, q, p := y.tree, PathTo(y.tree, i), y.nodes[i].parent;
            && ValidPath(t, q) && Pos(t, q) == i && q != [] && ValidPath(t, Up(q)) && p == Pos(t, Up(q))
               && 0 <= p < y.count
            && y.nodes[p].child == i && p + y.nodes[p].descendants + 1 == i + Size(At(t, q))
            && At(t, q).data.ref == At(t, q).id
  {
    hide FlatT, FlatF, LinkT, Pos, Size, At, WellMarked, FirstMarked, Reuses;
    var t, q := y.tree, PathTo(y.tree, i);
    ReuseShape(t, q, n, refs);
    FirstRef(t, q, n, refs);
    StoredData(y, i, q);
    StoredData(y, y.nodes[i].parent, Up(q));
    StoredFirstKid(y, y.nodes[i].parent, Up(q));
  }

  lemma StoredFirstKid(y: Array.YTree, p: nat, q: Path)
    requires y.Valid() && ValidPath(y.tree, q) && p == Pos(y.tree, q) && At(y.tree, q).kids != []
    ensures p < y.count && y.nodes[p].child == p + 1
  {
    NodeKids(y.tree, q);
    FirstKidAt(y.tree, q);
    KidsStart(y.tree, q);
    AllKids(y.tree, q);
    assert Array.LinkOf(y.nodes[..y.count][p]) == LinkT(y.tree, 0, NULL, NULL)[p];
  }

  /** The grouping the node stands in serves again. */
  method GroupReuse(y: Array.YTree, i: nat, ghost refs: set<nat>)
    requires y.Valid() && 0 < i < y.count && y.count + NeedT(y.tree) <= y.nodes.Length
    requires var q := PathTo(y.tree, i);
             && WellMarked(y.tree, y.idcnt, refs) && FirstMarked(y.tree, q)
             && Reuses(y.tree, q) && !Split(At(y.tree, q).data)
    modifies y`count, y`tree, y`idcnt, y.nodes
    ensures y.Valid()
    ensures (y.tree, y.idcnt) == Extract(old(y.tree), PathTo(old(y.tree), i), old(y.idcnt))
  {
    hide FlatT, FlatF, LinkT, Pos, Size, At, ReplaceAt, Put, NeedT, ConvT, WellMarked, FirstMarked, RestReady, Reuses,
         Split, Extract;
    ghost var t, q, n := y.tree, PathTo(y.tree, i), y.idcnt;
    var c, start := ReusedClass(y, i, n, refs);
    ReuseClass(t, q, c, n, refs);
    ConvertRest(y, start, c, i);
    Unmark(y, i, q);
  }

  /** The first node of a class is done. */
  method Unmark(y: Array.YTree, i: nat, ghost q: Path)
    requires y.Valid() && ValidPath(y.tree, q) && i == Pos(y.tree, q)
    modifies y`tree, y.nodes
    ensures y.Valid() && y.tree == ReplaceAt(old(y.tree), q, Cleared(At(old(y.tree), q)))
  {
    hide FlatT, LinkT, Pos, Size, At, ReplaceAt, SetData;
    StoredData(y, i, q);
    PathToPos(y.tree, q);
    SetAt(y.tree, q, y.nodes[i].data.(ref := 0));
    y.SetNodeData(i, y.nodes[i].data.(ref := 0));
  }

  // ----- All classes -----

  /** The grouping of the class whose first node is at index `i`. */
  method CreateGrouping(y: Array.YTree, i: nat, ghost refs: set<nat>)
    requires y.Valid() && 0 < i < y.count && y.count + NeedT(y.tree) <= y.nodes.Length
    requires WellMarked(y.tree, y.idcnt, refs) && FirstMarked(y.tree, PathTo(y.tree, i))
    modifies y`count, y`tree, y`idcnt, y.nodes
    ensures y.Valid() && y.count + NeedT(y.tree) <= y.nodes.Length
    ensures var t, q, n := old(y.tree), PathTo(old(y.tree), i), old(y.idcnt);
            && (Split(At(t, q).data) ==> At(t, q).kids != [])
            && (y.tree, y.idcnt) == Extract(t, q, n) && Extracted(t, q, y.tree, y.idcnt, refs)
  {
    hide FlatT, FlatF, LinkT, Pos, At, NeedT, WellMarked, FirstMarked, Reuses, Split, Extract;
    ghost var t, q, n := y.tree, PathTo(y.tree, i), y.idcnt;
    FirstRef(t, q, n, refs);
    StoredData(y, i, q);
    ExtractKeeps(t, q, n, refs);
    SplitFlag(At(t, q).data);
    if GroupingChildren in y.nodes[i].data.flags {
      GroupSplit(y, i, refs);
    } else {
      var reuses := CheckReuse(y, i);
      if reuses {
        GroupReuse(y, i, refs);
      } else {
        GroupWhole(y, i, refs);
      }
    }
    LessNeed(t, q, y.tree, y.idcnt, refs);
  }

  lemma SplitFlag(d: Data)
    ensures Split(d) <==> GroupingChildren in d.flags
  {
  }

  lemma LessNeed(t: Tree, q: Path, t': Tree, n': nat, refs: set<nat>)
    requires ValidPath(t, q) && Extracted(t, q, t', n', refs)
    ensures Size(t') + NeedT(t') <= Size(t) + NeedT(t) && NeedT(t') < NeedT(t)
  {
  }

  /** The run from a state in which nothing before index `i` is marked. */
  ghost predicate LoopReady(t: Tree, n: nat, i: nat, refs: set<nat>) {
    WellMarked(t, n, refs) && 0 < i <= Size(t) && NonePending(FlatT(t)[..i])
  }

  lemma LoopStart(t: Tree, n: nat, refs: set<nat>)
    requires WellMarked(t, n, refs)
    ensures LoopReady(t, n, 1, refs)
  {
    assert FlatT(t)[..1] == [FlatT(t)[0]];
  }

  lemma LoopSkip(t: Tree, n: nat, i: nat, refs: set<nat>)
    requires LoopReady(t, n, i, refs) && i < Size(t) && !Pending(FlatT(t)[i].data)
    ensures LoopReady(t, n, i + 1, refs)
  {
    var x, y := FlatT(t)[..i + 1], FlatT(t)[..i];
    forall k | 0 <= k < i + 1 ensures !Pending(x[k].data) {
      if k < i { assert x[k] == y[k]; }
    }
  }

  lemma MarkUnique(s: seq<Cell>, i: nat)
    requires i <= |s| && NonePending(s[..i]) && (i < |s| ==> Pending(s[i].data))
    ensures FirstMark(s) == i
  {
    PlainBefore(s, i, FirstMark(s));
    PlainBefore(s, FirstMark(s), i);
  }

  lemma PlainBefore(s: seq<Cell>, i: nat, j: nat)
    requires i <= |s| && NonePending(s[..i])
    ensures j < i ==> !Pending(s[j].data)
  {
    if j < i { assert s[..i][j] == s[j]; }
  }

  lemma LoopFirst(t: Tree, n: nat, i: nat, refs: set<nat>)
    requires LoopReady(t, n, i, refs) && i < Size(t) && Pending(FlatT(t)[i].data)
    ensures var q := PathTo(t, i);
            && FirstMarked(t, q) && WellMarked(t, n, refs) && q != [] && Pos(t, q) == i
            && (Split(At(t, q).data) ==> At(t, q).kids != [])
            && (var v := Extract(t, q, n);
                Extracted(t, q, v.0, v.1, refs) && AllExtracted(t, n, refs) == AllExtracted(v.0, v.1, refs))
  {
    MarkUnique(FlatT(t), i);
    MarkIsFirst(t, n, refs);
    ExtractKeeps(t, PathTo(t, i), n, refs);
  }

  lemma LoopNext(t: Tree, q: Path, t': Tree, n': nat, refs: set<nat>)
    requires ValidPath(t, q) && Extracted(t, q, t', n', refs)
    ensures LoopReady(t', n', Pos(t, q) + 1, refs)
  {
  }

  lemma LoopEnd(t: Tree, n: nat, i: nat, refs: set<nat>)
    requires LoopReady(t, n, i, refs) && i == Size(t)
    ensures AllExtracted(t, n, refs) == (t, n)
  {
    assert FlatT(t)[..i] == FlatT(t);
    MarkUnique(FlatT(t), i);
  }

  lemma ReadyMarked(t: Tree, n: nat, i: nat, refs: set<nat>)
    requires LoopReady(t, n, i, refs)
    ensures WellMarked(t, n, refs) && 0 < i <= Size(t)
  {
  }

  /** ay_ynode_create_groupings_toplevel: the stored tree becomes the one in which all classes are groupings.
      Groupings are never marked themselves, so the jump over their descendants is not taken. */
  method CreateGroupings(y: Array.YTree, ghost refs: set<nat>)
    requires y.Valid() && WellMarked(y.tree, y.idcnt, refs) && y.count + NeedT(y.tree) <= y.nodes.Length
    modifies y`count, y`tree, y`idcnt, y.nodes
    ensures y.Valid() && WellMarked(old(y.tree), old(y.idcnt), refs)
    ensures (y.tree, y.idcnt) == AllExtracted(old(y.tree), old(y.idcnt), refs)
    ensures Meaning(y.tree) == Meaning(old(y.tree)) && NonePending(FlatT(y.tree))
  {
    hide FlatT, LinkT, Pos, At, NeedT, WellMarked, FirstMarked, Extract, Extracted, AllExtracted, LoopReady, Meaning,
         NonePending, PathTo;
    ghost var t0, n0 := y.tree, y.idcnt;
    LoopStart(t0, n0, refs);
    ExtractionKeepsMeaning(t0, n0, refs);
    var i := 1;
    while i < y.count
      invariant y.Valid() && y.count == Size(y.tree) && y.count + NeedT(y.tree) <= y.nodes.Length
      invariant LoopReady(y.tree, y.idcnt, i, refs) && 0 < i <= y.count && WellMarked(y.tree, y.idcnt, refs)
      invariant AllExtracted(y.tree, y.idcnt, refs) == AllExtracted(t0, n0, refs)
      decreases NeedT(y.tree), y.count - i
    {
      ghost var t, n, q := y.tree, y.idcnt, PathTo(y.tree, i);
      Array.StoredNode(y, i);
      var d := y.nodes[i].data;
      if d.ref == 0 || d.typ == Uses || d.typ == Leafref || d.typ == Grouping {
        LoopSkip(t, n, i, refs);
      } else {
        LoopFirst(t, n, i, refs);
        CreateGrouping(y, i, refs);
        LoopNext(t, q, y.tree, y.idcnt, refs);
        LessNeed(t, q, y.tree, y.idcnt, refs);
        ReadyMarked(y.tree, y.idcnt, i + 1, refs);
      }
      i := i + 1;
    }
    LoopEnd(y.tree, y.idcnt, i, refs);
  }
}
