/** Marking, creating and reordering groupings, one after the other. */
module GroupingWhole {
  import opened YNodes
  import opened RoseTree
  import opened TreeLinks
  import opened TreeEdits
  import opened Expansion
  import opened Conversion
  import opened ConversionFacts
  import opened Groupings
  import opened GroupingSteps
  import opened GroupingEdits
  import opened GroupingRuns
  import opened MarkingSteps
  import opened TreeForms
  import opened Marking
  import opened MarkingRun
  import opened MarkingConditions
  import opened MarkingConverse
  import opened MarkingRecursion
  import opened MarkingPass
  import opened Rewriting
  import opened GroupOrder
  import opened GroupsAhead
  import opened GroupsAheadPass
  import Array = YTree

  /** The root with the main list as its only child, neither of them marked. */
  ghost predicate MainOnly(t: Tree) {
    && t.data.typ == Root && t.data.ref == 0
    && |t.kids| == 1 && t.kids[0].data.typ == List && t.kids[0].data.ref == 0
  }

  // ----- The root during the marking -----

  lemma {:induction false} MarkBefore(t: Tree, i: nat, rules: Rules, a: nat)
    requires a < i <= Size(t)
    ensures var u := MarkFrom(t, i, rules).0; Size(u) == Size(t) && FlatT(u)[a] == FlatT(t)[a]
    decreases Size(t) - i
  {
    hide MarkClass, Candidate, At, PathTo, Pos, FlatT, BelowRec;
    if i < Size(t) {
      var q := PathTo(t, i);
      PosBound(t, q);
      if At(t, q).data.ref != 0 && !BelowRec(t, q) {
        MarkBefore(t, i + Size(At(t, q)), rules, a);
      } else if !Candidate(t, q, rules) {
        MarkBefore(t, i + 1, rules, a);
      } else {
        ClassBefore(t, i, rules, a);
        MarkBefore(MarkClass(t, i, rules).0, i + 1, rules, a);
      }
    }
  }

  lemma FirstKidCell(t: Tree)
    requires |t.kids| == 1
    ensures Size(t) >= 2 && PathTo(t, 1) == [0] && FlatT(t)[1].data == t.kids[0].data && FlatT(t)[0].data == t.data
    ensures ValidPath(t, [0]) && At(t, [0]) == t.kids[0]
  {
    LastOfRoot(t);
  }

  lemma MainNotFirst(t: Tree, rules: Rules)
    requires MainOnly(t) && 1 < Size(t) && PathTo(t, 1) == [0]
    ensures MarkFrom(t, 1, rules) == MarkFrom(t, 2, rules)
  {
    assert At(t, [0]) == t.kids[0];
    UpValid(t, [0]);
    assert Up([0]) == [];
    assert !Candidate(t, [0], rules) by { hide Restricted; }
    hide MarkClass, Restricted, Candidate, BelowRec;
  }

  lemma MainMarked(t: Tree, rules: Rules)
    requires MainOnly(t) && SameForm(t, MarkFrom(t, 1, rules).0)
    ensures MainOnly(MarkFrom(t, 1, rules).0)
  {
    hide MarkFrom, SameForm;
    var u := MarkFrom(t, 1, rules).0;
    FirstKidCell(t);
    MainNotFirst(t, rules);
    FormParts(t, u);
    FirstKidCell(u);
    MarkBefore(t, 2, rules, 0);
    MarkBefore(t, 2, rules, 1);
  }

  // ----- The root during the creation of groupings -----

  lemma ConvRoot(t: Tree, c: Class, n: nat)
    requires MainOnly(t) && c.r != 0
    ensures MainOnly(ConvT(t, c, n).0)
  {
    var k := t.kids[0];
    assert ConvT(t, c, n).0 == t.(kids := ConvF(t.kids, c, n).0);
    assert ConvF(t.kids, c, n).0[0] == ConvT(k, c, n).0;
    assert ConvT(k, c, n).0.data == k.data;
  }

  lemma PutRoot(t: Tree, q: Path, r: seq<Tree>)
    requires MainOnly(t) && |q| >= 2 && ValidPath(t, q)
    ensures MainOnly(Put(t, q, r))
  {
    UpValid(t, q);
    var u, a := Up(q), Last(q);
    assert u[0] == 0;
    SpliceTop(t.kids[0], u[1..], a, a + 1, r);
  }

  lemma SpliceTop(t: Tree, p: Path, a: nat, b: nat, r: seq<Tree>)
    requires ValidPath(t, p) && a <= b <= |At(t, p).kids|
    ensures Splice(t, p, a, b, r).data == t.data
  {
  }

  lemma ExtractMain(t: Tree, q: Path, n: nat)
    requires MainOnly(t) && |q| >= 2 && ValidPath(t, q) && At(t, q).id != 0
             && (Split(At(t, q).data) ==> At(t, q).kids != [])
    ensures MainOnly(Extract(t, q, n).0)
  {
    UpValid(t, q);
    var l := At(t, q);
    hide MainOnly, Put, ConvT, At, SplitUnit, WholeUnit, Reuses, Split, GroupStart;
    if Split(l.data) {
      var c := ClassOf(l, n, l.kids[GroupStart(l)].data);
      var m := ConvT(t, c, n + 1).1;
      PutRoot(t, q, [Cleared(SplitUnit(l, c, m))]);
      ConvRoot(Put(t, q, [Cleared(SplitUnit(l, c, m))]), c, n + 1);
    } else if Reuses(t, q) {
      PutRoot(t, q, [Cleared(l)]);
      ConvRoot(Put(t, q, [Cleared(l)]), ClassOf(l, At(t, Up(q)).id, l.data), n);
    } else {
      var c, s := ClassOf(l, n, l.data), At(t, Up(q)).data.snode;
      var m := ConvT(t, c, n + 1).1;
      PutRoot(t, q, WholeUnit(Cleared(l), c, m, s));
      ConvRoot(Put(t, q, WholeUnit(Cleared(l), c, m, s)), c, n + 1);
    }
  }

  /** The first marked node is below the main list. */
  lemma FirstDeep(t: Tree, q: Path, n: nat, refs: set<nat>)
    requires MainOnly(t) && WellMarked(t, n, refs) && FirstMarked(t, q)
    ensures |q| >= 2 && At(t, q).id != 0
  {
    FirstIsLeader(t, q, n, refs);
    hide FlatT, WellMarked;
  }

  lemma {:induction false} ExtractedMain(t: Tree, n: nat, refs: set<nat>)
    requires WellMarked(t, n, refs) && MainOnly(t)
    ensures MainOnly(AllExtracted(t, n, refs).0)
    decreases NeedT(t)
  {
    hide MainOnly, FlatT, WellMarked, NeedT, Extract, ExpandT, NonePending, Fits;
    var i := FirstMark(FlatT(t));
    if i < Size(t) {
      var q := PathTo(t, i);
      MarkIsFirst(t, n, refs);
      ExtractKeeps(t, q, n, refs);
      FirstDeep(t, q, n, refs);
      var v := Extract(t, q, n);
      FirstParts(t, q);
      ExtractedParts(t, q, v.0, v.1, refs);
      ExtractMain(t, q, n);
      ExtractedMain(v.0, v.1, refs);
    }
  }

  lemma FirstParts(t: Tree, q: Path)
    requires FirstMarked(t, q)
    ensures ValidPath(t, q)
  {
  }

  lemma ExtractedParts(t: Tree, q: Path, t': Tree, n': nat, refs: set<nat>)
    requires ValidPath(t, q) && Extracted(t, q, t', n', refs)
    ensures WellMarked(t', n', refs) && NeedT(t') < NeedT(t)
  {
  }

  // ----- All passes -----

  /** What the passes leave behind, read from the tree after the creation of groupings. */
  lemma GroupedReadable(t: Tree, n: nat, refs: set<nat>)
    requires WellMarked(t, n, refs) && MainOnly(t) && NonePending(FlatT(t))
    ensures Readable(t) && Resolved(t) && Topological(KeysT(t), PostT(t)) && ExpandT(t, EMPTY).ok && Distinct(IdsT(t))
  {
    hide FlatT, ExpandT, IdsT, Fits, Readable, Resolved, Topological, KeysT, PostT;
    OkReadable(t);
  }

  /**
   ay_ynode_set_ref, ay_ynode_create_groupings_toplevel and ay_ynode_groupings_ahead on a tree without recursive
   lenses, of which no node is split (then the passes in between do nothing): all groupings come before the main
   list, each behind those it uses, and the expanded tree is the one from before exactly if no class is mixed.
  */
  method GroupAndSort(y: Array.YTree, rules: Rules) returns (mixed: bool, sort: seq<nat>)
    requires y.Valid() && Unmarked(y.tree, Limits(y.idcnt, {}), {}, rules) && NoRec(y.tree) && MainOnly(y.tree)
    requires y.count + NeedT(MarkFrom(y.tree, 1, rules).0) <= y.nodes.Length
    modifies y`count, y`tree, y`idcnt, y.nodes
    ensures y.Valid() && Ahead(y.tree, sort) && y.tree.kids[|sort|].data.typ == List && ExpandT(y.tree, EMPTY).ok
    ensures mixed == MarkFrom(old(y.tree), 1, rules).1 && (Meaning(y.tree) == Meaning(old(y.tree)) <==> !mixed)
    ensures Unmixed(old(y.tree), rules) ==> !mixed
  {
    hide *;
    ghost var t0, n0 := y.tree, y.idcnt;
    PlainClean(t0, Limits(n0, {}), rules);
    MarkingKeepsMeaning(t0, Limits(n0, {}), {}, rules);
    mixed := GroupAll(y, rules, {});
    ghost var t1, n1 := y.tree, y.idcnt;
    MainMarked(t0, rules);
    ExtractedMain(MarkFrom(t0, 1, rules).0, n0, {});
    GroupedReadable(t1, n1, {});
    sort := MoveGroupingsAhead(y, PostT(t1));
    MeansExpansion(y.tree, t1);
    MeansOk(y.tree, t1);
  }

  lemma MeansOk(u: Tree, t: Tree)
    requires MeansSame(u, t)
    ensures ExpandT(u, EMPTY).ok
  {
  }
}
