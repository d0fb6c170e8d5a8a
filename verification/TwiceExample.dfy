/** A child of a recursion that joins a class, and then starts one of its own. */
module TwiceExample {
  import opened YNodes
  import opened RoseTree
  import opened TreeLinks
  import opened TreeEdits
  import opened Expansion
  import opened Groupings
  import opened GroupingSteps
  import opened GroupingEdits
  import opened GroupingRest
  import opened ConversionFacts
  import opened TreeForms
  import opened Marking
  import opened MarkingMatches
  import opened MarkingRun
  import opened MarkingConditions
  import opened MarkingConverse
  import opened MarkingNumbers
  import Mixed = MixedExample
  import Number = NumberExample

  /** Every label stands for several identifiers, so that a single inner node is worth a grouping. */
  const RULES: Rules := Rules((id: nat) => true, (id: nat) => 0, (id: nat) => true)

  const LIMITS: Limits := Limits(15, {8})

  function Entry(name: string): Data {
    BLANK.(typ := Container, snode := Some(2), labelLens := Some(Pattern(name)))
  }

  const WORTH: Data := BLANK.(typ := Value, snode := Some(7), valueLens := Some(Pattern("v")))

  const REC: Data := BLANK.(typ := Rec, snode := Some(4))
  const AGAIN: Data := BLANK.(typ := List, snode := Some(4))
  const BACK: Data := BLANK.(typ := Leafref, snode := Some(6), ref := 8)

  function Item(c: Option<nat>): Data { Mixed.Item("x").(choice := c) }

  function Leaf1(id: nat, d: Data): Tree { Node(id, d, []) }

  /** A node with a value and a leaf. */
  function Pair(id: nat, name: string, c: Option<nat>): Tree {
    Node(id, Entry(name), [Leaf1(id + 1, WORTH), Leaf1(id + 2, Item(c))])
  }

  /** The child of the recursion; its leaf is an only child, and equal to leaves in a choice and in none. */
  function Middle(): Tree { Node(6, Entry("m"), [Leaf1(7, Item(None))]) }

  function Order(): Tree { Node(10, BLANK.(typ := List), [Leaf1(11, BACK)]) }

  function Branch(): Tree { Node(9, Entry("r"), [Order()]) }

  function Loop(): Tree { Node(8, AGAIN, [Branch()]) }

  function Recursion(): Tree { Node(5, REC, [Middle(), Loop()]) }

  function Files(): Tree { Node(1, Mixed.FILES, [Pair(2, "a", Some(7)), Recursion(), Pair(12, "b", None)]) }

  function Sample(): Tree { Node(0, Mixed.TOP, [Files()]) }

  function PairCells(id: nat, name: string, c: Option<nat>): seq<Cell> {
    [Cell(id, Entry(name), 2), Cell(id + 1, WORTH, 0), Cell(id + 2, Item(c), 0)]
  }

  function RecCells(): seq<Cell> {
    [Cell(5, REC, 6), Cell(6, Entry("m"), 1), Cell(7, Item(None), 0), Cell(8, AGAIN, 3), Cell(9, Entry("r"), 2),
     Cell(10, BLANK.(typ := List), 1), Cell(11, BACK, 0)]
  }

  function Cells(): seq<Cell> {
    [Cell(0, Mixed.TOP, 14), Cell(1, Mixed.FILES, 13)] + PairCells(2, "a", Some(7)) + RecCells()
    + PairCells(12, "b", None)
  }

  // ----- The array -----

  lemma LeafFlat(id: nat, d: Data)
    ensures FlatT(Leaf1(id, d)) == [Cell(id, d, 0)] && Size(Leaf1(id, d)) == 1 && IdsT(Leaf1(id, d)) == multiset{id}
  {
  }

  lemma PairFlat(id: nat, name: string, c: Option<nat>)
    ensures FlatT(Pair(id, name, c)) == PairCells(id, name, c) && Size(Pair(id, name, c)) == 3
    ensures IdsT(Pair(id, name, c)) == multiset{id, id + 1, id + 2}
  {
    hide *;
    var v, x := Leaf1(id + 1, WORTH), Leaf1(id + 2, Item(c));
    PairIs(id, name, c);
    LeafFlat(id + 1, WORTH);
    LeafFlat(id + 2, Item(c));
    TwoFlat(v, x);
    Number.TwoIds(v, x);
    Mixed.FlatNode(Pair(id, name, c));
  }

  lemma PairIs(id: nat, name: string, c: Option<nat>)
    ensures Pair(id, name, c) == Node(id, Entry(name), [Leaf1(id + 1, WORTH), Leaf1(id + 2, Item(c))])
    ensures PairCells(id, name, c) ==
            [Cell(id, Entry(name), 2)] + ([Cell(id + 1, WORTH, 0)] + [Cell(id + 2, Item(c), 0)])
  {
  }

  lemma RecFlat()
    ensures FlatT(Recursion()) == RecCells() && Size(Recursion()) == 7 && Size(Middle()) == 2 && Size(Loop()) == 4
    ensures IdsT(Recursion()) == multiset{5, 6, 7, 8, 9, 10, 11}
  {
    hide *;
    Shapes();
    LeafFlat(7, Item(None));
    LeafFlat(11, BACK);
    Number.OneChild(Middle(), Leaf1(7, Item(None)));
    Number.OneChild(Order(), Leaf1(11, BACK));
    Number.OneChild(Branch(), Order());
    Number.OneChild(Loop(), Branch());
    TwoFlat(Middle(), Loop());
    Number.TwoIds(Middle(), Loop());
    Mixed.FlatNode(Recursion());
    RecParts();
  }

  lemma RecParts()
    ensures [Cell(5, REC, 6)] + ([Cell(6, Entry("m"), 1)] + [Cell(7, Item(None), 0)]
            + ([Cell(8, AGAIN, 3)] + ([Cell(9, Entry("r"), 2)]
                                      + ([Cell(10, BLANK.(typ := List), 1)] + [Cell(11, BACK, 0)]))))
            == RecCells()
    ensures multiset{5} + (multiset{6} + multiset{7} + (multiset{8} + (multiset{9} + (multiset{10} + multiset{11})))) ==
            multiset{5, 6, 7, 8, 9, 10, 11}
  {
  }

  lemma Shapes()
    ensures Sample() == Node(0, Mixed.TOP, [Files()]) && At(Sample(), []) == Sample() && Pos(Sample(), []) == 0
    ensures Files() == Node(1, Mixed.FILES, [Pair(2, "a", Some(7)), Recursion(), Pair(12, "b", None)])
    ensures Recursion() == Node(5, REC, [Middle(), Loop()]) && Middle() == Node(6, Entry("m"), [Leaf1(7, Item(None))])
    ensures Loop() == Node(8, AGAIN, [Branch()]) && Branch() == Node(9, Entry("r"), [Order()])
    ensures Order() == Node(10, BLANK.(typ := List), [Leaf1(11, BACK)])
    ensures SizeF([]) == 0 && ValidPath(Sample(), [])
  {
  }

  lemma SampleFlat()
    ensures FlatT(Sample()) == Cells() && Size(Sample()) == 15 && Distinct(IdsT(Sample())) && Size(Files()) == 14
  {
    hide *;
    Shapes();
    var a, r, b := Pair(2, "a", Some(7)), Recursion(), Pair(12, "b", None);
    PairFlat(2, "a", Some(7));
    RecFlat();
    PairFlat(12, "b", None);
    Mixed.ThreeFlat(a, r, b);
    Mixed.FlatNode(Files());
    Number.OneChild(Sample(), Files());
    Parts(FlatT(a), FlatT(r), FlatT(b));
    Fifteen(IdsT(Sample()));
  }

  lemma Parts(a: seq<Cell>, r: seq<Cell>, b: seq<Cell>)
    requires a == PairCells(2, "a", Some(7)) && r == RecCells() && b == PairCells(12, "b", None)
    ensures [Cell(0, Mixed.TOP, 14)] + ([Cell(1, Mixed.FILES, 13)] + (a + r + b)) == Cells()
  {
  }

  lemma Fifteen(s: multiset<nat>)
    requires s == multiset{0} + (multiset{1} + (multiset{2, 3, 4} + multiset{5, 6, 7, 8, 9, 10, 11}
                                                + multiset{12, 13, 14}))
    ensures Distinct(s)
  {
  }

  lemma CellsAre()
    ensures |Cells()| == 15 && Cells()[2] == Cell(2, Entry("a"), 2) && Cells()[3] == Cell(3, WORTH, 0)
    ensures Cells()[4] == Cell(4, Item(Some(7)), 0) && Cells()[5] == Cell(5, REC, 6)
    ensures Cells()[6] == Cell(6, Entry("m"), 1) && Cells()[7] == Cell(7, Item(None), 0)
    ensures Cells()[11] == Cell(11, BACK, 0)
    ensures Cells()[12] == Cell(12, Entry("b"), 2) && Cells()[14] == Cell(14, Item(None), 0)
  {
  }

  lemma IdsAre()
    ensures |Cells()| == 15 && forall a :: 0 <= a < 15 ==> Cells()[a].id == a
  {
  }

  // ----- Where the nodes are -----

  lemma OuterPaths()
    ensures var t := Sample();
            && Size(t) == 15 && PathTo(t, 1) == [0] && ValidPath(t, [0]) && At(t, [0]) == Files() && Pos(t, [0]) == 1
            && PathTo(t, 2) == [0, 0] && ValidPath(t, [0, 0]) && At(t, [0, 0]) == Pair(2, "a", Some(7))
            && Pos(t, [0, 0]) == 2
            && PathTo(t, 5) == [0, 1] && ValidPath(t, [0, 1]) && At(t, [0, 1]) == Recursion() && Pos(t, [0, 1]) == 5
            && PathTo(t, 12) == [0, 2] && ValidPath(t, [0, 2]) && At(t, [0, 2]) == Pair(12, "b", None)
  {
    hide *;
    Shapes();
    SampleFlat();
    var a, r, b := Pair(2, "a", Some(7)), Recursion(), Pair(12, "b", None);
    PairFlat(2, "a", Some(7));
    RecFlat();
    OneFlat(a);
    TwoFlat(a, r);
    assert [] + [0] == [0] && [0] + [0] == [0, 0] && [0] + [1] == [0, 1] && [0] + [2] == [0, 2];
    assert [Files()][..0] == [] && [a, r, b][..0] == [] && [a, r, b][..1] == [a] && [a, r, b][..2] == [a, r];
    Mixed.ChildPath(Sample(), [], 0);
    Mixed.ChildPath(Sample(), [0], 0);
    Mixed.ChildPath(Sample(), [0], 1);
    Mixed.ChildPath(Sample(), [0], 2);
  }

  lemma InnerPaths()
    ensures Size(Sample()) == 15 && ValidPath(Sample(), [0, 1, 0]) && ValidPath(Sample(), [0, 1, 1])
    ensures PathTo(Sample(), 6) == [0, 1, 0] && At(Sample(), [0, 1, 0]) == Middle() && Pos(Sample(), [0, 1, 0]) == 6
    ensures PathTo(Sample(), 8) == [0, 1, 1] && At(Sample(), [0, 1, 1]) == Loop() && Pos(Sample(), [0, 1, 1]) == 8
  {
    hide *;
    OuterPaths();
    Shapes();
    RecFlat();
    var m, l := Middle(), Loop();
    OneFlat(m);
    assert [0, 1] + [0] == [0, 1, 0] && [0, 1] + [1] == [0, 1, 1];
    assert [m, l][..0] == [] && [m, l][..1] == [m];
    Mixed.ChildPath(Sample(), [0, 1], 0);
    Mixed.ChildPath(Sample(), [0, 1], 1);
  }

  lemma TypesAre()
    ensures REC.typ == Rec && REC.ref == 0 && Entry("m").typ == Container && Entry("m").ref == 0
    ensures Entry("a").typ == Container && Entry("a").ref == 0 && Entry("b").typ == Container && Entry("b").ref == 0
    ensures Mixed.FILES.typ == List && Mixed.TOP.typ == Root && Mixed.FILES.ref == 0
    ensures WORTH.typ == Value && WORTH.ref == 0 && Item(None).typ == Leaf && Item(Some(7)).typ == Leaf
    ensures Item(Some(7)).ref == 0 && Recursion().data == REC && Recursion().id == 5 && Files().data == Mixed.FILES
    ensures Middle().data == Entry("m") && Middle().id == 6 && BACK.typ == Leafref && LIMITS.refs == {8}
    ensures Pair(2, "a", Some(7)).data == Entry("a") && Pair(2, "a", Some(7)).id == 2
    ensures Pair(12, "b", None).data == Entry("b") && Pair(12, "b", None).id == 12
  {
  }

  lemma RulesAre(id: nat)
    ensures RULES.fit(id) && RULES.splittable(id) && RULES.body(id) == RULES.body(11)
  {
  }

  // ----- Which nodes may start a class -----

  lemma RecIs(q: Path)
    requires q == [0, 1, 0] || q == [0, 1, 1]
    ensures ValidPath(Sample(), q) && Up(q) == [0, 1] && ValidPath(Sample(), [0, 1])
    ensures RecAbove(Sample(), [0, 1]) == Some(5) && BelowRec(Sample(), q)
  {
    OuterPaths();
    InnerPaths();
    TypesAre();
    hide Sample, At, PathTo, Pos;
    UpValid(Sample(), q);
    assert Up(q) == [0, 1];
  }

  lemma LoopRestricted()
    ensures ValidPath(Sample(), [0, 1, 1]) && Restricted(Sample(), [0, 1, 1], RULES)
  {
    hide *;
    InnerPaths();
    RecIs([0, 1, 1]);
    RecFlat();
    SampleFlat();
    CellsAre();
    TypesAre();
    RulesAre(5);
    Number.LeafrefBack(Sample(), [0, 1, 1], [0, 1], 5, 11, RULES);
  }

  lemma MiddleCandidate()
    ensures ValidPath(Sample(), [0, 1, 0]) && Candidate(Sample(), [0, 1, 0], RULES)
  {
    hide *;
    InnerPaths();
    RecIs([0, 1, 0]);
    RecFlat();
    SampleFlat();
    CellsAre();
    TypesAre();
    RulesAre(6);
    Number.NoLeafref(Sample(), [0, 1, 0], [0, 1], 6, 2, RULES);
    Number.Listed(Sample(), [0, 1, 0], RULES);
  }

  lemma FirstCandidate()
    ensures ValidPath(Sample(), [0, 0]) && Candidate(Sample(), [0, 0], RULES)
  {
    hide *;
    OuterPaths();
    PairFlat(2, "a", Some(7));
    SampleFlat();
    CellsAre();
    TypesAre();
    RulesAre(2);
    assert [0, 0][..1] == [0];
    Number.NoLeafref(Sample(), [0, 0], [0], 2, 3, RULES) by { UpIs(); }
    Number.Listed(Sample(), [0, 0], RULES);
  }

  lemma UpIs()
    ensures Up([0, 0]) == [0] && Up([0, 2]) == [0]
  {
  }

  // ----- Matches -----

  lemma PairInners(t: Tree, i: nat, id: nat, name: string, c: Option<nat>)
    requires i < Size(t) && At(t, PathTo(t, i)) == Pair(id, name, c)
    ensures InnerCount(t, i) == 1 && InnerStart(t, i) == i + 2 && Poor(t, i)
  {
    PairFlat(id, name, c);
    InnerBound(t, i);
    var l := Pair(id, name, c);
    assert l.kids[1..] == [l.kids[1]] && l.kids[..1] == [l.kids[0]] && [l.kids[1]][1..] == [];
    LeafFlat(id + 2, Item(c));
    LeafFlat(id + 1, WORTH);
    OneFlat(l.kids[1]);
    hide Pair, At, PathTo, Size, FlatT, RangeStart;
  }

  lemma MiddleInners(t: Tree, i: nat)
    requires i < Size(t) && At(t, PathTo(t, i)) == Middle()
    ensures InnerCount(t, i) == 1 && InnerStart(t, i) == i + 1 && Poor(t, i)
  {
    RecFlat();
    InnerBound(t, i);
    var l := Middle();
    assert l.kids[0..] == l.kids && l.kids[..0] == [];
    LeafFlat(7, Item(None));
    OneFlat(l.kids[0]);
    hide Middle, At, PathTo, Size, FlatT, RangeStart;
  }

  lemma OneRun(t: Tree, i: nat, j: nat)
    requires i < Size(t) && j < Size(t)
    ensures RunEqual(t, i, j, 1) == EqualAt(t, i, j, false)
  {
    hide EqualAt;
    assert EqualPair(t, i, j, 0) == EqualAt(t, i, j, false);
  }

  /** The leaf of the child of the recursion is an only child, the others are not. */
  lemma LoneLeaves()
    ensures Size(Sample()) == 15 && Lone(Sample(), 7) && !Lone(Sample(), 4) && !Lone(Sample(), 14)
  {
    hide *;
    SampleFlat();
    CellsAre();
    ValueCells();
    OnlyKid(Sample(), 6);
    BehindLeaf(Sample(), 3);
    BehindLeaf(Sample(), 13);
  }

  lemma ValueCells()
    ensures |Cells()| == 15 && Cells()[13].desc == 0
  {
  }

  lemma OnlyKid(t: Tree, p: nat)
    requires p + 1 < Size(t) && FlatT(t)[p].desc == 1 && FlatT(t)[p + 1].desc == 0
    ensures Lone(t, p + 1)
  {
    TreeFacts(t, 0, NULL, NULL, p);
    TreeFacts(t, 0, NULL, NULL, p + 1);
    hide FlatT, LinkT;
  }

  lemma BehindLeaf(t: Tree, p: nat)
    requires p + 1 < Size(t) && FlatT(t)[p].desc == 0
    ensures !Lone(t, p + 1)
  {
    TreeFacts(t, 0, NULL, NULL, p);
    TreeFacts(t, 0, NULL, NULL, p + 1);
    if Lone(t, p + 1) {
      TreeFacts(t, 0, NULL, NULL, LinkT(t, 0, NULL, NULL)[p + 1].parent);
    }
    hide FlatT, LinkT;
  }

  /** The leaf of the recursion equals both others, and these are different. */
  lemma LeafPairs()
    ensures Size(Sample()) == 15 && EqualAt(Sample(), 4, 7, false) && EqualAt(Sample(), 7, 14, false)
    ensures !EqualAt(Sample(), 4, 14, false)
  {
    hide *;
    SampleFlat();
    CellsAre();
    LoneLeaves();
    ItemsAre();
    LoneEqual(Sample(), 4, 7);
    LoneEqual(Sample(), 7, 14);
    ChoiceDiffers(Sample(), 4, 14);
  }

  lemma ItemsAre()
    ensures Item(Some(7)) == Item(None).(choice := Some(7)) && Item(None) == Item(None).(choice := None)
    ensures Item(None).choice == None
  {
  }

  /** One of the two is an only child. */
  lemma LoneEqual(t: Tree, i: nat, j: nat)
    requires i < Size(t) && j < Size(t) && (Lone(t, i) || Lone(t, j)) && FlatT(t)[i].desc == FlatT(t)[j].desc
    requires FlatT(t)[i].data == FlatT(t)[j].data.(choice := FlatT(t)[i].data.choice)
    ensures EqualAt(t, i, j, false)
  {
    hide FlatT, Lone;
  }

  lemma ChoiceDiffers(t: Tree, i: nat, j: nat)
    requires i < Size(t) && j < Size(t) && !Lone(t, i) && !Lone(t, j)
    requires FlatT(t)[i].data.choice.Some? && FlatT(t)[j].data.choice.None?
    ensures !EqualAt(t, i, j, false)
  {
    hide FlatT, Lone;
  }

  /** The first container and the child of the recursion share their leaf. */
  lemma FirstMatch()
    ensures Size(Sample()) == 15 && Matching(Sample(), 2, 6, RULES, Inner)
  {
    hide *;
    var t := Sample();
    OuterPaths();
    InnerPaths();
    RecFlat();
    PairFlat(2, "a", Some(7));
    PairInners(t, 2, 2, "a", Some(7));
    MiddleInners(t, 6);
    LeafPairs();
    OneRun(t, 4, 7);
    TypesAre();
    RulesAre(6);
    TreesEqualIs(t, 2, 6);
    InnersEqualIs(t, 2, 6);
    MatchIs(t, 2, 6);
    MatchingThus(t, 2, 6, RULES, Inner);
  }

  /** The first and the last container do not. */
  lemma LastNoMatch()
    ensures Size(Sample()) == 15 && NoMatch(Sample(), 2, 12, RULES)
  {
    hide *;
    var t := Sample();
    OuterPaths();
    PairInners(t, 2, 2, "a", Some(7));
    PairInners(t, 12, 12, "b", None);
    LeafPairs();
    OneRun(t, 4, 14);
    TypesAre();
    NotAlone();
    InnersEqualIs(t, 2, 12);
    NotWhole(t, 2, 12);
    MatchIs(t, 2, 12);
    NoMatchThus(t, 2, 12);
  }

  lemma NoMatchThus(t: Tree, i: nat, a: nat)
    requires 0 < i < Size(t) && 0 < a < Size(t) && MatchOf(t, i, a) == No
    ensures NoMatch(t, i, a, RULES)
  {
    hide MatchOf, At, PathTo;
  }

  lemma NotWhole(t: Tree, i: nat, j: nat)
    requires 0 < i < Size(t) && 0 < j < Size(t) && At(t, PathTo(t, j)).data.typ == Container
    requires !InnerAlone(t, i) && InnerCount(t, j) != 0
    ensures !WholeFirst(t, i, j)
  {
    hide At, PathTo, InnerAlone, InnerCount;
  }

  /** The first container has siblings. */
  lemma NotAlone()
    ensures Size(Sample()) == 15 && !InnerAlone(Sample(), 2)
  {
    var t := Sample();
    OuterPaths();
    Shapes();
    hide Sample, Files, At, PathTo, Pair, Recursion;
    UpValid(t, [0, 0]);
    UpIs();
    assert Last([0, 0]) == 0;
  }

  /** A leaf matches nothing. */
  lemma LeafNoMatch(t: Tree, i: nat, a: nat)
    requires 0 < i < Size(t) && 0 < a < Size(t) && i != a && FlatT(t)[a].data.typ == Leaf && FlatT(t)[a].desc == 0
    ensures NoMatch(t, i, a, RULES)
  {
    NodeRef(t, a);
    NodeSize(t, a);
    InnerBound(t, a);
    hide At, PathTo, FlatT, InnerCount, InnerStart, RunEqual, EqualAt, TreesEqual;
    assert InnerCount(t, a) == 0;
    MatchIs(t, i, a);
  }

  /** A recursion matches nothing with another number of inner nodes. */
  lemma RecNoMatch(t: Tree, i: nat, a: nat)
    requires 0 < i < a < Size(t) && FlatT(t)[a].data.typ == Rec && InnerCount(t, i) != InnerCount(t, a)
    ensures NoMatch(t, i, a, RULES)
  {
    NodeRef(t, a);
    hide At, PathTo, FlatT, InnerCount, InnerStart, RunEqual, EqualAt, TreesEqual;
    MatchIs(t, i, a);
    InnersEqualIs(t, i, a);
  }

  lemma RecInners(t: Tree, i: nat)
    requires i < Size(t) && At(t, PathTo(t, i)) == Recursion()
    ensures InnerCount(t, i) == 6
  {
    RecFlat();
    InnerBound(t, i);
    Shapes();
    var l := Recursion();
    assert l.kids[0..] == l.kids && l.kids[..0] == [];
    hide Recursion, At, PathTo, Size, FlatT, RangeStart;
    KidTypes();
  }

  lemma KidTypes()
    ensures var f := Recursion().kids; |f| == 2 && InnerIndex(f) == 0 && Size(Recursion()) == 1 + SizeF(f)
  {
  }

  // ----- The tree is one that the pass may meet -----

  lemma SampleFresh()
    ensures Size(Sample()) == 15 && FreshTree(Sample(), LIMITS, {})
    ensures forall a :: 0 < a < 15 ==> FlatT(Sample())[a].id != 0
  {
    SampleFlat();
    FreshOuter();
    FreshRec();
    CellParts();
    IdsAre();
    hide Sample, FlatT, FreshCell, Cells, RecCells, PairCells;
    assert forall a :: 0 <= a < 15 ==> FreshCell(Cells()[a], LIMITS, {});
  }

  lemma CellParts()
    ensures |Cells()| == 15 && |RecCells()| == 7 && |PairCells(2, "a", Some(7))| == 3 == |PairCells(12, "b", None)|
    ensures Cells()[0] == Cell(0, Mixed.TOP, 14) && Cells()[1] == Cell(1, Mixed.FILES, 13)
    ensures forall a :: 2 <= a < 5 ==> Cells()[a] == PairCells(2, "a", Some(7))[a - 2]
    ensures forall a :: 5 <= a < 12 ==> Cells()[a] == RecCells()[a - 5]
    ensures forall a :: 12 <= a < 15 ==> Cells()[a] == PairCells(12, "b", None)[a - 12]
  {
  }

  lemma FreshOuter()
    ensures FreshCell(Cell(0, Mixed.TOP, 14), LIMITS, {}) && FreshCell(Cell(1, Mixed.FILES, 13), LIMITS, {})
    ensures |PairCells(2, "a", Some(7))| == 3 == |PairCells(12, "b", None)|
    ensures forall k :: 0 <= k < 3 ==> FreshCell(PairCells(2, "a", Some(7))[k], LIMITS, {})
    ensures forall k :: 0 <= k < 3 ==> FreshCell(PairCells(12, "b", None)[k], LIMITS, {})
  {
  }

  lemma FreshRec()
    ensures |RecCells()| == 7 && forall k :: 0 <= k < 7 ==> FreshCell(RecCells()[k], LIMITS, {})
  {
  }

  lemma PairKeyed(id: nat, name: string, c: Option<nat>)
    ensures Keyed(Pair(id, name, c))
  {
    assert Keyed(Leaf1(id + 1, WORTH)) && Keyed(Leaf1(id + 2, Item(c)));
  }

  lemma RecKeyed()
    ensures Keyed(Recursion())
  {
    assert Keyed(Leaf1(7, Item(None))) && Keyed(Leaf1(11, BACK));
    Number.OneKeyed(Middle(), Leaf1(7, Item(None)));
    Number.OneKeyed(Order(), Leaf1(11, BACK));
    Number.OneKeyed(Branch(), Order());
    Number.OneKeyed(Loop(), Branch());
    hide Keyed;
    Number.TwoKeyed(Recursion(), Middle(), Loop());
  }

  lemma KeyedThus(t: Tree)
    requires InnerIndex(t.kids) == 0 && FrontOnly(t.kids) && forall i :: 0 <= i < |t.kids| ==> Keyed(t.kids[i])
    requires t.data.typ != Grouping
    ensures Keyed(t)
  {
    hide InnerIndex, FrontOnly;
  }

  lemma NoneInFront(f: seq<Tree>)
    requires forall i :: 0 <= i < |f| ==> !IsKeyVal(f[i].data)
    ensures FrontOnly(f)
  {
    hide IsKeyVal;
  }

  lemma ThreeKeyed(t: Tree, a: Tree, b: Tree, c: Tree)
    requires t.kids == [a, b, c] && Keyed(a) && Keyed(b) && Keyed(c) && t.data.typ != Grouping
    requires !IsKeyVal(a.data) && !IsKeyVal(b.data) && !IsKeyVal(c.data)
    ensures Keyed(t)
  {
    hide *;
    assert forall i :: 0 <= i < |t.kids| ==> t.kids[i] == a || t.kids[i] == b || t.kids[i] == c;
    NoKeys(t.kids);
    NoneInFront(t.kids);
    KeyedThus(t);
  }

  lemma NoKeys(f: seq<Tree>)
    requires f != [] && !IsKeyVal(f[0].data)
    ensures InnerIndex(f) == 0
  {
  }

  lemma SampleKeyed()
    ensures Keyed(Sample())
  {
    PairKeyed(2, "a", Some(7));
    PairKeyed(12, "b", None);
    RecKeyed();
    hide Keyed;
    ThreeKeyed(Files(), Pair(2, "a", Some(7)), Recursion(), Pair(12, "b", None));
    Number.OneKeyed(Sample(), Files());
  }

  lemma SampleGuarded()
    ensures Guarded(Sample(), RULES, LIMITS.refs)
  {
    SampleFlat();
    InnerPaths();
    LoopRestricted();
    IdsAre();
    TypesAre();
    hide Sample, FlatT, Restricted, PathTo, At, Size, Pos, Cells, LIMITS, RULES;
  }

  lemma SampleUnmarked()
    ensures Unmarked(Sample(), LIMITS, {}, RULES)
  {
    SampleFlat();
    SampleFresh();
    SampleKeyed();
    SampleGuarded();
    Shapes();
    TypesAre();
    hide Sample, FlatT, Keyed, Guarded, IdsT, FreshCell, Size, Cells, RULES;
  }

  // ----- The first class -----

  /** The tree behind the first class. */
  ghost function Marked(): Tree
  {
    Started();
    MarkClass(Sample(), 2, RULES).0
  }

  lemma Started()
    ensures Size(Sample()) == 15
  {
    SampleFlat();
  }

  /** The child of the recursion is marked; around it nothing has changed. */
  lemma FirstClass()
    ensures var t, u := Sample(), Marked();
            && Size(t) == 15 == Size(u) && SameForm(t, u) && FlatT(u)[6].data.ref == 2
            && FlatT(u)[3] == FlatT(t)[3] && FlatT(u)[4] == FlatT(t)[4] && FlatT(u)[5] == FlatT(t)[5]
            && FlatT(u)[7] == FlatT(t)[7] && FlatT(u)[12] == FlatT(t)[12] && FlatT(u)[14] == FlatT(t)[14]
  {
    hide *;
    var t := Sample();
    MarkedIs();
    SampleFlat();
    CellsAre();
    TypesAre();
    OuterPaths();
    InnerPaths();
    PairFlat(2, "a", Some(7));
    FirstMatch();
    LastNoMatch();
    LeafNoMatch(t, 2, 7);
    LeafNoMatch(t, 2, 14);
    PairInners(t, 2, 2, "a", Some(7));
    RecInners(t, 5);
    RecNoMatch(t, 2, 5);
    AfterIs(t, 2, 6);
    NotBehind(t, 2, 3);
    NotBehind(t, 2, 4);
    LeaderForm(t, 2, RULES);
    SampleFresh();
    FreshLeaves(t, LIMITS, {});
    RulesAre(6);
    WorthThus(t, 2, 6);
    ReachedMiddle();
    ClassTakes(t, 2, RULES, 6, Inner);
    ClassLeaves(t, 2, RULES, 3);
    ClassLeaves(t, 2, RULES, 4);
    ClassLeaves(t, 2, RULES, 5);
    ClassLeaves(t, 2, RULES, 7);
    ClassLeaves(t, 2, RULES, 12);
    ClassLeaves(t, 2, RULES, 14);
  }

  lemma MarkedIs()
    ensures Size(Sample()) == 15 && Marked() == MarkClass(Sample(), 2, RULES).0
  {
    SampleFlat();
    hide Sample, MarkClass;
  }

  lemma NotBehind(t: Tree, i: nat, a: nat)
    requires i < Size(t) && a < i + Size(At(t, PathTo(t, i)))
    ensures !After(t, i, a)
  {
  }

  lemma WorthThus(t: Tree, i: nat, j: nat)
    requires 0 < i < Size(t) && 0 < j < Size(t)
    ensures Worth(t, i, j, RULES, Inner)
  {
    hide Poor, At, PathTo;
  }

  /** The recursion above the child has no mark. */
  lemma ReachedMiddle()
    ensures Size(Sample()) == 15 && Reached(Sample(), 5, 6)
  {
    hide *;
    SampleFlat();
    CellsAre();
    TypesAre();
    ReachedBelow(Sample(), 5);
  }

  lemma ReachedBelow(t: Tree, p: nat)
    requires p + 1 < Size(t) && FlatT(t)[p].data.ref == 0
    ensures Reached(t, p, p + 1)
  {
    NodeSize(t, p);
    hide At, PathTo, FlatT;
  }

  // ----- The second class -----

  /** In the tree with the first class the child of the recursion still matches the last container. */
  lemma SecondMatch()
    ensures Size(Marked()) == 15 && Matching(Marked(), 6, 12, RULES, Inner) && KeyLeaves(Marked())
    ensures After(Marked(), 6, 12) && Reached(Marked(), 8, 12) && Size(At(Marked(), PathTo(Marked(), 6))) == 2
  {
    hide *;
    var t, u := Sample(), Marked();
    FirstClass();
    OuterPaths();
    InnerPaths();
    RecFlat();
    PairFlat(12, "b", None);
    PairInners(t, 12, 12, "b", None);
    MiddleInners(t, 6);
    InnerForm(t, u, 6);
    InnerForm(t, u, 12);
    LeafPairs();
    EqualForth(t, u, 7, 14, false);
    OneRun(u, 7, 14);
    TreesEqualIs(u, 6, 12);
    InnersEqualIs(u, 6, 12);
    MatchIs(u, 6, 12);
    SampleFlat();
    CellsAre();
    TypesAre();
    NodeRef(u, 12);
    RulesAre(At(u, PathTo(u, 12)).id);
    MatchingThus(u, 6, 12, RULES, Inner);
    SampleFresh();
    FreshLeaves(t, LIMITS, {});
    LeavesForm(t, u);
    AfterIs(u, 6, 12);
    ReachedLast();
  }

  lemma ReachedLast()
    ensures Size(Marked()) == 15 && Reached(Marked(), 8, 12)
  {
    hide *;
    var t, u := Sample(), Marked();
    FirstClass();
    SampleFlat();
    LoopSizes();
    SameDescs(t, u);
    Number.ReachedPast(u, 8, 12);
  }

  lemma LoopSizes()
    ensures |Cells()| == 15 && forall a :: 8 <= a < 12 ==> a + 1 + Cells()[a].desc <= 12
  {
  }

  lemma SameDescs(t: Tree, u: Tree)
    requires SameForm(t, u)
    ensures Size(t) == Size(u) && forall a :: 0 <= a < Size(t) ==> FlatT(u)[a].desc == FlatT(t)[a].desc
  {
    FormTyp(t, u);
    forall a | 0 <= a < Size(t) ensures FlatT(u)[a].desc == FlatT(t)[a].desc {
      assert SameSpot(FlatT(t)[a], FlatT(u)[a]);
    }
  }

  lemma SecondStarts()
    ensures Size(Marked()) == 15 && Starts(Marked(), 6, RULES)
  {
    hide *;
    var u := Marked();
    SecondMatch();
    RulesAre(At(u, PathTo(u, 12)).id);
    ClassFinds(u, 6, RULES, 12, Inner);
    ClassIs(u, 6, RULES);
  }

  // ----- The pass -----

  /** What the guard of the pass sees in the marked tree. */
  lemma MarkedNodes()
    ensures var u := Marked();
            && Size(u) == 15 && PathTo(u, 6) == [0, 1, 0] && ValidPath(u, [0, 1, 0]) && BelowRec(u, [0, 1, 0])
            && Candidate(u, [0, 1, 0], RULES)
            && forall a :: 3 <= a < 6 ==>
                 && PathTo(u, a) != [] && ValidPath(u, PathTo(u, a))
                 && !Candidate(u, PathTo(u, a), RULES) && At(u, PathTo(u, a)).data.ref == 0
  {
    hide *;
    var t, u := Sample(), Marked();
    FirstClass();
    InnerPaths();
    SampleFlat();
    CellsAre();
    TypesAre();
    RecIs([0, 1, 0]);
    MiddleCandidate();
    BelowRecForm(t, u, 6);
    CandidateForm(t, u, [0, 1, 0], RULES);
    forall a: nat | 3 <= a < 6
      ensures PathTo(u, a) != [] && ValidPath(u, PathTo(u, a))
      ensures !Candidate(u, PathTo(u, a), RULES) && At(u, PathTo(u, a)).data.ref == 0
    {
      NodePath(u, a);
      NodeRef(u, a);
      assert a == 3 || a == 4 || a == 5;
      Number.NotListed(u, PathTo(u, a), RULES);
    }
  }

  /**
   The child of the recursion, node 6, joins the class of node 2; although it has that mark, it starts another class.
   No number of the other pass is needed for that.
  */
  lemma StartsTwice()
    ensures Unmarked(Sample(), LIMITS, {}, RULES) && Size(Sample()) == 15 && !Clean(Sample(), 1, RULES, {})
    ensures var u := Marked();
            && Size(u) == 15 && u == MarkClass(Sample(), 2, RULES).0 && FlatT(u)[6].data.ref == 2
            && Candidate(u, PathTo(u, 6), RULES) && BelowRec(u, PathTo(u, 6)) && Starts(u, 6, RULES)
  {
    SampleUnmarked();
    hide *;
    var t, u := Sample(), Marked();
    MarkedIs();
    OuterPaths();
    Shapes();
    TypesAre();
    FirstClass();
    SecondStarts();
    MarkedNodes();
    FirstCandidate();
    NotListedTop();
    Number.CleanPass(t, 1, RULES, {});
    Number.CleanPass(u, 3, RULES, {});
    Number.CleanPass(u, 4, RULES, {});
    Number.CleanPass(u, 5, RULES, {});
    MarkedNotFree(u, 6);
    if Clean(t, 2, RULES, {}) {
      CleanNext(t, 2, RULES, {});
      Number.CleanClass(u, 6, RULES, {});
    }
  }

  lemma NotListedTop()
    ensures Size(Sample()) == 15 && PathTo(Sample(), 1) == [0] && ValidPath(Sample(), [0])
    ensures !Candidate(Sample(), [0], RULES)
  {
    hide *;
    OuterPaths();
    Shapes();
    TypesAre();
    Mixed.MainNoCandidate(Sample(), RULES);
  }

  lemma CleanNext(t: Tree, i: nat, rules: Rules, tags: set<nat>)
    requires 0 < i < Size(t) && PathTo(t, i) != [] && ValidPath(t, PathTo(t, i))
    requires At(t, PathTo(t, i)).data.ref == 0 && Candidate(t, PathTo(t, i), rules) && Clean(t, i, rules, tags)
    ensures Clean(MarkClass(t, i, rules).0, i + 1, rules, tags)
  {
    hide Candidate, BelowRec, MarkClass, At, PathTo, Starts, Free;
  }

  /** A node with a mark is not free. */
  lemma MarkedNotFree(t: Tree, i: nat)
    requires i < Size(t) && FlatT(t)[i].data.ref != 0
    ensures !Free(t, i, {})
  {
    UntagFlatT(t, {});
  }
}
