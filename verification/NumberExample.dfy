/** A recursion whose choice has a number, and a container elsewhere that gets the same number. */
module NumberExample {
  import opened YNodes
  import opened RoseTree
  import opened TreeLinks
  import opened TreeEdits
  import opened Expansion
  import opened Groupings
  import opened GroupingSteps
  import opened GroupingEdits
  import opened GroupingRest
  import opened ConversionFacts
  import opened TreeForms
  import opened Marking
  import opened MarkingMatches
  import opened MarkingRun
  import opened MarkingConditions
  import opened MarkingConverse
  import opened MarkingNumbers
  import opened RecursiveChoices
  import Mixed = MixedExample

  const REC: Data := BLANK.(typ := Rec, snode := Some(4))

  /** The branch without recursion: it is the first of its choice, and ay_ynode_set_ref_recursive_form numbers it. */
  const FLAT: Data :=
    BLANK.(typ := Container, snode := Some(2), labelLens := Some(Pattern("a")), choice := Some(9), ref := 3,
      flags := {GroupingChoice})

  /** The branch that leads back, in the list that ay_ynode_recursive_form puts around it. */
  const AGAIN: Data := BLANK.(typ := List, snode := Some(4), choice := Some(9))
  const BRANCH: Data := BLANK.(typ := Container, snode := Some(5), labelLens := Some(Pattern("r")), choice := Some(9))
  const ORDER: Data := BLANK.(typ := List)
  const BACK: Data := BLANK.(typ := Leafref, snode := Some(6), choice := Some(8), ref := 6, flags := {ChoiceCreated})

  const OTHER: Data := BLANK.(typ := Container, snode := Some(2), labelLens := Some(Pattern("b")))

  /** A node with two leaves. */
  function Pair(id: nat, d: Data): Tree { Node(id, d, [Mixed.LeafTree(id + 1, "x"), Mixed.LeafTree(id + 2, "y")]) }

  function Back(): Tree { Node(9, BACK, []) }

  function Order(): Tree { Node(8, ORDER, [Back()]) }

  function Branch(): Tree { Node(7, BRANCH, [Order()]) }

  function Loop(): Tree { Node(6, AGAIN, [Branch()]) }

  function Recursion(): Tree { Node(2, REC, [Pair(3, FLAT), Loop()]) }

  function Files(): Tree { Node(1, Mixed.FILES, [Recursion(), Pair(10, OTHER)]) }

  function Sample(): Tree { Node(0, Mixed.TOP, [Files()]) }

  const LIMITS: Limits := Limits(13, {6})
  const TAGS: set<nat> := {3}

  function PairCells(id: nat, d: Data): seq<Cell> {
    [Cell(id, d, 2), Cell(id + 1, Mixed.Item("x"), 0), Cell(id + 2, Mixed.Item("y"), 0)]
  }

  function LoopCells(): seq<Cell> { [Cell(6, AGAIN, 3), Cell(7, BRANCH, 2), Cell(8, ORDER, 1), Cell(9, BACK, 0)] }

  function Cells(): seq<Cell> {
    [Cell(0, Mixed.TOP, 12), Cell(1, Mixed.FILES, 11), Cell(2, REC, 7)] + PairCells(3,
      FLAT) + LoopCells() + PairCells(10, OTHER)
  }

  // ----- The array -----

  lemma PairFlat(id: nat, d: Data)
    ensures FlatT(Pair(id, d)) == PairCells(id, d) && Size(Pair(id, d)) == 3 && SizeF(Pair(id, d).kids) == 2
    ensures IdsT(Pair(id, d)) == multiset{id, id + 1, id + 2}
  {
    var x, y := Mixed.LeafTree(id + 1, "x"), Mixed.LeafTree(id + 2, "y");
    Leafs(id + 1, Mixed.Item("x"));
    Leafs(id + 2, Mixed.Item("y"));
    OneFlat(x);
    OneFlat(y);
    TwoFlat(x, y);
    hide Mixed.Item;
    IdsConcat([x], [y]);
    assert [x] + [y] == [x, y];
    Mixed.FlatNode(Pair(id, d));
  }

  /** A node with one child. */
  lemma OneChild(t: Tree, a: Tree)
    requires t.kids == [a]
    ensures FlatT(t) == [Cell(t.id, t.data, Size(a))] + FlatT(a) && Size(t) == 1 + Size(a) && SizeF(t.kids) == Size(a)
    ensures IdsT(t) == multiset{t.id} + IdsT(a)
  {
    hide *;
    Mixed.FlatNode(t);
    OneFlat(a);
    TwoIds(a, a);
  }

  lemma TwoIds(a: Tree, b: Tree)
    ensures IdsF([a, b]) == IdsT(a) + IdsT(b) && IdsF([a]) == IdsT(a)
  {
    hide *;
    OneFlat(a);
    OneFlat(b);
    IdsConcat([a], [b]);
    assert [a] + [b] == [a, b];
  }

  lemma LoopFlat()
    ensures FlatT(Loop()) == LoopCells() && Size(Loop()) == 4 && IdsT(Loop()) == multiset{6, 7, 8, 9}
  {
    hide *;
    BackFlat();
    Shapes();
    OneChild(Order(), Back());
    OneChild(Branch(), Order());
    OneChild(Loop(), Branch());
    LoopParts();
  }

  lemma BackFlat()
    ensures FlatT(Back()) == [Cell(9, BACK, 0)] && Size(Back()) == 1 && IdsT(Back()) == multiset{9}
  {
  }

  lemma LoopParts()
    ensures [Cell(6, AGAIN, 3)] + ([Cell(7, BRANCH, 2)] + ([Cell(8, ORDER, 1)] + [Cell(9, BACK, 0)])) == LoopCells()
    ensures multiset{6} + (multiset{7} + (multiset{8} + multiset{9})) == multiset{6, 7, 8, 9}
  {
  }

  lemma Shapes()
    ensures Sample() == Node(0, Mixed.TOP, [Files()]) && Files() == Node(1, Mixed.FILES, [Recursion(), Pair(10, OTHER)])
    ensures Recursion() == Node(2, REC, [Pair(3, FLAT), Loop()]) && At(Sample(), []) == Sample()
            && Pos(Sample(), []) == 0
    ensures Loop() == Node(6, AGAIN, [Branch()]) && Branch() == Node(7, BRANCH, [Order()])
            && Order() == Node(8, ORDER, [Back()])
    ensures SizeF([]) == 0 && ValidPath(Sample(), [])
  {
  }

  lemma SampleFlat()
    ensures FlatT(Sample()) == Cells() && Size(Sample()) == 13 && Distinct(IdsT(Sample())) && Size(Recursion()) == 8
            && Size(Files()) == 12
  {
    hide *;
    Shapes();
    LoopFlat();
    PairFlat(3, FLAT);
    TwoFlat(Pair(3, FLAT), Loop());
    TwoIds(Pair(3, FLAT), Loop());
    Mixed.FlatNode(Recursion());
    PairFlat(10, OTHER);
    TwoFlat(Recursion(), Pair(10, OTHER));
    TwoIds(Recursion(), Pair(10, OTHER));
    Mixed.FlatNode(Files());
    OneChild(Sample(), Files());
    Parts(PairCells(3, FLAT), LoopCells(), PairCells(10, OTHER));
    Thirteen(IdsT(Sample()));
  }

  lemma Parts(f: seq<Cell>, l: seq<Cell>, e: seq<Cell>)
    requires f == PairCells(3, FLAT) && l == LoopCells() && e == PairCells(10, OTHER)
    ensures [Cell(0, Mixed.TOP, 12)] + ([Cell(1, Mixed.FILES, 11)] + ([Cell(2, REC, 7)] + (f + l) + e)) == Cells()
  {
  }

  lemma Thirteen(s: multiset<nat>)
    requires s == multiset{0} + (multiset{1} + (multiset{2} + (multiset{3, 4, 5} + multiset{6, 7, 8, 9})
                                                + multiset{10, 11, 12}))
    ensures Distinct(s)
  {
  }

  lemma CellsAre()
    ensures |Cells()| == 13 && Cells()[6] == Cell(6, AGAIN, 3) && Cells()[9] == Cell(9, BACK, 0)
    ensures forall b :: 3 < b < 6 ==> Cells()[b].data.typ == Leaf
    ensures forall k :: 0 <= k < 3 ==>
            Cells()[3 + k] == PairCells(3, FLAT)[k] && Cells()[10 + k] == PairCells(10, OTHER)[k]
    ensures |PairCells(3, FLAT)| == 3 && |PairCells(10, OTHER)| == 3
  {
  }

  lemma IdsAre()
    ensures |Cells()| == 13 && forall a :: 0 <= a < 13 ==> Cells()[a].id == a
  {
  }

  // ----- Where the nodes are -----

  lemma OuterPaths()
    ensures var t := Sample();
            && Size(t) == 13 && PathTo(t, 1) == [0] && ValidPath(t, [0]) && At(t, [0]) == Files() && Pos(t, [0]) == 1
            && PathTo(t, 2) == [0, 0] && ValidPath(t, [0, 0]) && At(t, [0, 0]) == Recursion() && Pos(t, [0, 0]) == 2
            && PathTo(t, 10) == [0, 1] && ValidPath(t, [0, 1]) && At(t, [0, 1]) == Pair(10, OTHER)
  {
    hide *;
    Shapes();
    SampleFlat();
    var r, e := Recursion(), Pair(10, OTHER);
    OneFlat(r);
    assert [] + [0] == [0] && [0] + [0] == [0, 0] && [0] + [1] == [0, 1];
    assert [Files()][..0] == [] && [r, e][..0] == [] && [r, e][..1] == [r];
    Mixed.ChildPath(Sample(), [], 0);
    Mixed.ChildPath(Sample(), [0], 0);
    Mixed.ChildPath(Sample(), [0], 1);
  }

  lemma InnerPaths()
    ensures Size(Sample()) == 13 && ValidPath(Sample(), [0, 0, 0]) && ValidPath(Sample(), [0, 0, 1])
    ensures PathTo(Sample(), 3) == [0, 0, 0] && At(Sample(), [0, 0, 0]) == Pair(3, FLAT)
            && Pos(Sample(), [0, 0, 0]) == 3
    ensures PathTo(Sample(), 6) == [0, 0, 1] && At(Sample(), [0, 0, 1]) == Loop() && Pos(Sample(), [0, 0, 1]) == 6
  {
    hide *;
    OuterPaths();
    Shapes();
    PairFlat(3, FLAT);
    var f, l := Pair(3, FLAT), Loop();
    OneFlat(f);
    assert [0, 0] + [0] == [0, 0, 0] && [0, 0] + [1] == [0, 0, 1];
    assert [f, l][..0] == [] && [f, l][..1] == [f];
    Mixed.ChildPath(Sample(), [0, 0], 0);
    Mixed.ChildPath(Sample(), [0, 0], 1);
  }

  lemma TypesAre()
    ensures REC.typ == Rec && REC.ref == 0 && FLAT.typ == Container && FLAT.ref == 3 && OTHER.ref == 0
    ensures Mixed.FILES.typ == List && Mixed.TOP.typ == Root && Mixed.FILES.ref == 0
    ensures Pair(3, FLAT).data == FLAT && Pair(3, FLAT).id == 3 && Recursion().data == REC && Recursion().id == 2
    ensures Files().data == Mixed.FILES && Pair(10, OTHER).data == OTHER && Pair(10, OTHER).id == 10
  {
  }

  // ----- Which nodes may start a class -----

  lemma RecIs(q: Path)
    requires q == [0, 0, 0] || q == [0, 0, 1]
    ensures ValidPath(Sample(), q) && Up(q) == [0, 0] && ValidPath(Sample(), [0, 0])
    ensures RecAbove(Sample(), [0, 0]) == Some(2) && BelowRec(Sample(), q)
  {
    OuterPaths();
    InnerPaths();
    TypesAre();
    hide Sample, At, PathTo, Pos;
    UpValid(Sample(), q);
    assert Up(q) == [0, 0];
  }

  lemma LeafrefBack(t: Tree, q: Path, p: Path, rec: nat, b: nat, rules: Rules)
    requires q != [] && ValidPath(t, q) && ValidPath(t, p) && Up(q) == p && RecAbove(t, p) == Some(rec)
    requires Pos(t, q) < b < Pos(t, q) + Size(At(t, q)) && b < Size(t) && FlatT(t)[b].data.typ == Leafref
    requires rules.body(FlatT(t)[b].id) == rules.body(rec)
    ensures Restricted(t, q, rules)
  {
    UpValid(t, q);
    PosBound(t, q);
    assert Recursive(t, b, rec, rules);
    hide At, Pos, FlatT, RecAbove, Size, ValidPath, Recursive;
  }

  /** The list with the leafref leads back to the recursion. */
  lemma LoopRestricted()
    ensures ValidPath(Sample(), [0, 0, 1]) && Restricted(Sample(), [0, 0, 1], Mixed.RULES)
  {
    hide *;
    InnerPaths();
    RecIs([0, 0, 1]);
    LoopFlat();
    SampleFlat();
    CellsAre();
    BackIs();
    LeafrefBack(Sample(), [0, 0, 1], [0, 0], 2, 9, Mixed.RULES);
  }

  lemma BackIs()
    ensures BACK.typ == Leafref && LIMITS.refs == {6} && Mixed.RULES.body(9) == Mixed.RULES.body(2)
  {
  }

  lemma NoLeafref(t: Tree, q: Path, p: Path, i: nat, n: nat, rules: Rules)
    requires q != [] && ValidPath(t, q) && Up(q) == p && Pos(t, q) == i && Size(At(t, q)) == n && i + n <= Size(t)
    requires forall b :: i < b < i + n ==> FlatT(t)[b].data.typ != Leafref
    ensures !Restricted(t, q, rules)
  {
    UpValid(t, q);
    PosBound(t, q);
    hide At, Pos, FlatT, RecAbove, Size, ValidPath;
  }

  lemma FlatUnrestricted()
    ensures ValidPath(Sample(), [0, 0, 0]) && !Restricted(Sample(), [0, 0, 0], Mixed.RULES)
  {
    hide *;
    InnerPaths();
    RecIs([0, 0, 0]);
    PairFlat(3, FLAT);
    SampleFlat();
    CellsAre();
    NoLeafref(Sample(), [0, 0, 0], [0, 0], 3, 3, Mixed.RULES);
  }

  lemma NotListed(t: Tree, q: Path, rules: Rules)
    requires q != [] && ValidPath(t, q) && At(t, q).data.typ != Container && At(t, q).data.typ != List
    ensures !Candidate(t, q, rules)
  {
    UpValid(t, q);
    hide At, Restricted, ValidPath;
  }

  lemma Listed(t: Tree, q: Path, rules: Rules)
    requires q != [] && ValidPath(t, q) && At(t, q).data.typ == Container && !Restricted(t, q, rules)
    requires rules.fit(At(t, q).id)
    ensures Candidate(t, q, rules)
  {
    UpValid(t, q);
    hide At, Restricted, ValidPath;
  }

  lemma Candidates()
    ensures var t := Sample();
            && Size(t) == 13 && PathTo(t, 1) == [0] && PathTo(t, 2) == [0, 0] && PathTo(t, 3) == [0, 0, 0]
            && ValidPath(t, [0]) && ValidPath(t, [0, 0]) && ValidPath(t, [0, 0, 0])
            && !Candidate(t, [0], Mixed.RULES) && !Candidate(t, [0, 0], Mixed.RULES)
               && Candidate(t, [0, 0, 0], Mixed.RULES)
  {
    hide *;
    OuterPaths();
    InnerPaths();
    TypesAre();
    Shapes();
    FlatUnrestricted();
    Mixed.MainNoCandidate(Sample(), Mixed.RULES);
    NotListed(Sample(), [0, 0], Mixed.RULES);
    Mixed.AllFit(3);
    Listed(Sample(), [0, 0, 0], Mixed.RULES);
  }

  /** The pass comes to the branch with the number, and has not changed anything. */
  lemma RunReaches()
    ensures Size(Sample()) == 13 && MarkFrom(Sample(), 1, Mixed.RULES).0 == MarkFrom(Sample(), 3, Mixed.RULES).0
  {
    hide *;
    var t := Sample();
    OuterPaths();
    Candidates();
    TypesAre();
    RunNext(t, 1, Mixed.RULES);
    RunNext(t, 2, Mixed.RULES);
  }

  // ----- The class -----

  lemma EqualCells(t: Tree, i: nat, j: nat)
    requires i < Size(t) && j < Size(t) && FlatT(t)[i].data == FlatT(t)[j].data && FlatT(t)[i].desc == FlatT(t)[j].desc
    ensures EqualAt(t, i, j, false)
  {
    hide FlatT, LinkT, Lone, Size;
  }

  lemma LeavesEqual(k: nat)
    requires 1 <= k <= 2
    ensures Size(Sample()) == 13 && EqualAt(Sample(), 3 + k, 10 + k, false)
  {
    hide *;
    SampleFlat();
    CellsAre();
    LeavesAre(k);
    EqualCells(Sample(), 3 + k, 10 + k);
  }

  lemma LeavesAre(k: nat)
    requires 1 <= k <= 2
    ensures |PairCells(3, FLAT)| == 3 == |PairCells(10, OTHER)|
    ensures var x, y := PairCells(3, FLAT)[k], PairCells(10, OTHER)[k]; x.data == y.data && x.desc == y.desc
  {
  }

  lemma HeadsDiffer()
    ensures Size(Sample()) == 13 && !EqualAt(Sample(), 3, 10, true)
  {
    SampleFlat();
    CellsAre();
    hide FlatT, Sample, LinkT, Lone, Cells;
    assert Cells()[3 + 0] == PairCells(3, FLAT)[0] && Cells()[10 + 0] == PairCells(10, OTHER)[0];
  }

  lemma PairInners(t: Tree, i: nat, id: nat, d: Data)
    requires i < Size(t) && At(t, PathTo(t, i)) == Pair(id, d)
    ensures InnerCount(t, i) == 2 && InnerStart(t, i) == i + 1 && !Poor(t, i)
  {
    PairFlat(id, d);
    InnerBound(t, i);
    var l := Pair(id, d);
    assert l.kids[0..] == l.kids && l.kids[..0] == [];
    hide Pair, At, PathTo, Size, FlatT, RangeStart;
  }

  lemma LeafRun()
    ensures Size(Sample()) == 13 && RunEqual(Sample(), 4, 11, 2)
  {
    hide EqualAt, Sample, Size;
    LeavesEqual(1);
    LeavesEqual(2);
    assert EqualPair(Sample(), 4, 11, 0) && EqualPair(Sample(), 4, 11, 1);
  }

  lemma SampleMatch()
    ensures Size(Sample()) == 13 && MatchOf(Sample(), 3, 10) == Inner && !Poor(Sample(), 3)
  {
    hide *;
    var t := Sample();
    OuterPaths();
    InnerPaths();
    HeadsDiffer();
    LeafRun();
    PairInners(t, 3, 3, FLAT);
    PairInners(t, 10, 10, OTHER);
    TreesEqualIs(t, 3, 10);
    InnersEqualIs(t, 3, 10);
    MatchIs(t, 3, 10);
  }

  /** No number is above the container. */
  lemma SampleReached()
    ensures Size(Sample()) == 13 && Reached(Sample(), 6, 10)
  {
    hide *;
    var t := Sample();
    SampleFlat();
    LoopSizes();
    ReachedPast(t, 6, 10);
  }

  lemma LoopSizes()
    ensures |Cells()| == 13 && forall a :: 6 <= a < 10 ==> a + 1 + Cells()[a].desc <= 10
  {
  }

  lemma ReachedPast(t: Tree, p: nat, j: nat)
    requires j < Size(t) && forall a :: p <= a < j ==> a + 1 + FlatT(t)[a].desc <= j
    ensures Reached(t, p, j)
  {
    hide At, PathTo, FlatT;
    forall a: nat | p <= a < j ensures a + Size(At(t, PathTo(t, a))) <= j {
      NodeSize(t, a);
    }
  }

  lemma ClassStarts()
    ensures Size(Sample()) == 13 && After(Sample(), 3, 10) && Matching(Sample(), 3, 10, Mixed.RULES, Inner)
            && !Poor(Sample(), 3)
    ensures KeyLeaves(Sample()) && Reached(Sample(), 3 + Size(At(Sample(), PathTo(Sample(), 3))), 10)
            && Starts(Sample(), 3, Mixed.RULES)
  {
    hide *;
    var t := Sample();
    OuterPaths();
    InnerPaths();
    TypesAre();
    SampleMatch();
    SampleReached();
    Mixed.AllFit(10);
    MatchingThus(t, 3, 10, Mixed.RULES, Inner);
    SampleFresh();
    FreshLeaves(t, LIMITS, TAGS);
    PairFlat(3, FLAT);
    AfterIs(t, 3, 10);
    ClassFinds(t, 3, Mixed.RULES, 10, Inner);
    ClassIs(t, 3, Mixed.RULES);
  }

  // ----- The tree is one that the pass may meet -----

  lemma SampleFresh()
    ensures Size(Sample()) == 13 && FreshTree(Sample(), LIMITS, TAGS)
    ensures forall a :: 0 < a < 13 ==> FlatT(Sample())[a].id != 0
  {
    SampleFlat();
    hide Sample, FlatT;
    assert forall a :: 0 <= a < 13 ==> FreshCell(Cells()[a], LIMITS, TAGS) && Cells()[a].id == a;
  }

  lemma PairKeyed(id: nat, d: Data)
    requires d.typ == Container
    ensures Keyed(Pair(id, d))
  {
    assert Keyed(Mixed.LeafTree(id + 1, "x")) && Keyed(Mixed.LeafTree(id + 2, "y"));
  }

  lemma LoopKeyed()
    ensures Keyed(Loop())
  {
    assert Keyed(Back());
    OneKeyed(Order(), Back());
    OneKeyed(Branch(), Order());
    OneKeyed(Loop(), Branch());
  }

  lemma TwoKeyed(t: Tree, a: Tree, b: Tree)
    requires t.kids == [a, b] && Keyed(a) && Keyed(b) && !IsKeyVal(a.data) && !IsKeyVal(b.data)
             && t.data.typ != Grouping
    ensures Keyed(t)
  {
    hide IsKeyVal;
  }

  lemma OneKeyed(t: Tree, a: Tree)
    requires t.kids == [a] && Keyed(a) && !IsKeyVal(a.data) && t.data.typ != Grouping
    ensures Keyed(t)
  {
    hide IsKeyVal;
  }

  lemma SampleKeyed()
    ensures Keyed(Sample())
  {
    PairKeyed(3, FLAT);
    PairKeyed(10, OTHER);
    LoopKeyed();
    TwoKeyed(Recursion(), Pair(3, FLAT), Loop());
    TwoKeyed(Files(), Recursion(), Pair(10, OTHER));
    hide Keyed;
    OneKeyed(Sample(), Files());
  }

  lemma SampleGuarded()
    ensures Guarded(Sample(), Mixed.RULES, LIMITS.refs)
  {
    SampleFlat();
    InnerPaths();
    LoopRestricted();
    IdsAre();
    BackIs();
    hide Sample, FlatT, Restricted, PathTo, At, Size, Pos, Cells, LIMITS;
  }

  lemma SampleUnmarked()
    ensures Unmarked(Sample(), LIMITS, TAGS, Mixed.RULES)
  {
    SampleFlat();
    SampleFresh();
    SampleKeyed();
    SampleGuarded();
    Shapes();
    hide Sample, FlatT, Keyed, Guarded, IdsT, FreshCell, Size, Cells;
  }

  // ----- The choice is one that is grouped -----

  lemma LoopLeadsBack()
    ensures LeadsBack(Loop()) && !LeadsBack(Pair(3, FLAT))
  {
    assert Order().kids[0].data.typ == Leafref;
    assert LeadsBack(Order());
    assert Branch().kids[0] == Order();
    assert LeadsBack(Branch());
    assert Loop().kids[0] == Branch();
    assert !LeadsBack(Mixed.LeafTree(4, "x")) && !LeadsBack(Mixed.LeafTree(5, "y"));
  }

  lemma ChoiceGrouped()
    ensures var f := [Pair(3, FLAT), Loop()];
            ChoiceForGrouping(f, 0, Mixed.RULES) && !ChoiceForGrouping(f, 1, Mixed.RULES)
  {
    LoopLeadsBack();
    var f := [Pair(3, FLAT), Loop()];
    assert OneChoice(f, 0, 0) && OneChoice(f, 0, 1);
    assert f[0].data.choice == f[1].data.choice;
    hide LeadsBack;
  }

  lemma PairFlagged(id: nat, d: Data)
    requires d.typ != Rec
    ensures ChoicesFlagged(Pair(id, d), Mixed.RULES)
  {
    hide ChoiceForGrouping;
    assert ChoicesFlagged(Mixed.LeafTree(id + 1, "x"), Mixed.RULES)
           && ChoicesFlagged(Mixed.LeafTree(id + 2, "y"), Mixed.RULES);
  }

  lemma PlainFlagged(t: Tree)
    requires t.data.typ != Rec
             && forall k :: 0 <= k < |t.kids| ==>
                ChoicesFlagged(t.kids[k], Mixed.RULES) && GroupingChoice !in t.kids[k].data.flags
    ensures ChoicesFlagged(t, Mixed.RULES)
  {
    hide ChoiceForGrouping;
  }

  lemma LoopFlagged()
    ensures ChoicesFlagged(Loop(), Mixed.RULES)
  {
    PlainFlagged(Back());
    PlainFlagged(Order());
    PlainFlagged(Branch());
    hide ChoicesFlagged;
    PlainFlagged(Loop());
  }

  lemma RecursionFlagged()
    ensures ChoicesFlagged(Recursion(), Mixed.RULES)
  {
    ChoiceGrouped();
    PairFlagged(3, FLAT);
    LoopFlagged();
    hide ChoiceForGrouping, Loop, Pair;
    assert Loop().data == AGAIN && Pair(3, FLAT).data == FLAT && Pair(3, FLAT).id == 3 by { Datas(); }
  }

  lemma Datas()
    ensures Loop().data == AGAIN && Pair(3, FLAT).data == FLAT && Pair(3, FLAT).id == 3 && Pair(10, OTHER).data == OTHER
  {
  }

  lemma SampleFlagged()
    ensures ChoicesFlagged(Sample(), Mixed.RULES)
  {
    RecursionFlagged();
    PairFlagged(10, OTHER);
    Datas();
    hide ChoicesFlagged;
    PlainFlagged(Files());
    PlainFlagged(Sample());
  }

  // ----- The number -----

  /** The container is below the list of files. */
  lemma OutsideRec()
    ensures Size(Sample()) == 13 && PathTo(Sample(), 10) == [0, 1] && ValidPath(Sample(), [0, 1])
            && !BelowRec(Sample(), [0, 1])
  {
    hide *;
    OuterPaths();
    TypesAre();
    assert [0, 1][..1] == [0];
    ListAbove(Sample(), [0, 1], [0]);
  }

  lemma ListAbove(t: Tree, q: Path, p: Path)
    requires ValidPath(t, q) && ValidPath(t, p) && q != [] && q[..|q| - 1] == p && At(t, p).data.typ == List
    ensures !BelowRec(t, q)
  {
    UpValid(t, q);
    hide At, ValidPath;
    assert Up(q) == p;
  }

  /**
   Node 3 is the first branch of a choice that gets a grouping, and has its number. It also starts a class, and the
   container 10, which is in no choice, gets the number 3 to the end of the pass.
  */
  lemma NumberStandsForTwo()
    ensures Unmarked(Sample(), LIMITS, TAGS, Mixed.RULES) && ChoicesFlagged(Sample(), Mixed.RULES)
    ensures Size(Sample()) == 13 && !Clean(Sample(), 1, Mixed.RULES, TAGS)
    ensures FlatT(Sample())[3] == Cell(3, FLAT, 2) && FLAT.ref == 3 && GroupingChoice in FLAT.flags
    ensures FlatT(Sample())[10] == Cell(10, OTHER, 2) && OTHER.ref == 0 && OTHER.choice == None
    ensures var u := MarkFrom(Sample(), 1, Mixed.RULES).0; Size(u) == 13 && FlatT(u)[10].data.ref == 3
  {
    SampleFlat();
    CellsAre();
    HeadCells();
    TypesAre();
    SampleUnmarked();
    SampleFlagged();
    hide *;
    var t := Sample();
    OuterPaths();
    InnerPaths();
    Candidates();
    ClassStarts();
    RecIs([0, 0, 0]);
    OutsideRec();
    RunReaches();
    WorthThus(t, 3, 10);
    MatchTaken(t, 3, Mixed.RULES, 10, Inner);
    NotClean();
  }

  lemma WorthThus(t: Tree, i: nat, j: nat)
    requires 0 < i < Size(t) && 0 < j < Size(t) && !Poor(t, i)
    ensures Worth(t, i, j, Mixed.RULES, Inner)
  {
    hide Poor, At, PathTo;
  }

  lemma HeadCells()
    ensures |Cells()| == 13 && Cells()[3] == Cell(3, FLAT, 2) && Cells()[10] == Cell(10, OTHER, 2)
    ensures GroupingChoice in FLAT.flags && OTHER.ref == 0 && OTHER.choice == None && 3 in TAGS
  {
  }

  lemma NotClean()
    ensures Size(Sample()) == 13 && !Clean(Sample(), 1, Mixed.RULES, TAGS)
  {
    hide *;
    var t := Sample();
    OuterPaths();
    InnerPaths();
    Candidates();
    TypesAre();
    ClassStarts();
    RecIs([0, 0, 0]);
    SampleFlat();
    CellsAre();
    HeadCells();
    CleanPass(t, 1, Mixed.RULES, TAGS);
    CleanPass(t, 2, Mixed.RULES, TAGS);
    TaggedNotFree(t, 3, TAGS);
    if Clean(t, 3, Mixed.RULES, TAGS) { CleanClass(t, 3, Mixed.RULES, TAGS); }
  }

  lemma TaggedNotFree(t: Tree, i: nat, tags: set<nat>)
    requires i < Size(t) && FlatT(t)[i].id in tags
    ensures !Free(t, i, tags)
  {
    UntagFlatT(t, tags);
  }

  lemma CleanPass(t: Tree, i: nat, rules: Rules, tags: set<nat>)
    requires 0 < i < Size(t) && PathTo(t, i) != [] && ValidPath(t, PathTo(t, i))
    requires At(t, PathTo(t, i)).data.ref == 0 || BelowRec(t, PathTo(t, i))
    requires !Candidate(t, PathTo(t, i), rules)
    ensures Clean(t, i, rules, tags) == Clean(t, i + 1, rules, tags)
  {
    hide Candidate, BelowRec, MarkClass, At, PathTo, Starts, Free;
  }

  lemma CleanClass(t: Tree, i: nat, rules: Rules, tags: set<nat>)
    requires 0 < i < Size(t) && PathTo(t, i) != [] && ValidPath(t, PathTo(t, i))
    requires At(t, PathTo(t, i)).data.ref == 0 || BelowRec(t, PathTo(t, i))
    requires Candidate(t, PathTo(t, i), rules) && Starts(t, i, rules) && Clean(t, i, rules, tags)
    ensures Free(t, i, tags)
  {
    hide Candidate, BelowRec, MarkClass, At, PathTo, Starts, Free;
  }
}
