/** A tree with a conflict: two equal lists, and a third with another label but the same leaves. */
module MixedExample {
  import opened YNodes
  import opened RoseTree
  import opened TreeLinks
  import opened TreeEdits
  import opened Expansion
  import opened ConversionFacts
  import opened Groupings
  import opened GroupingSteps
  import opened GroupingEdits
  import opened GroupingRest
  import opened Marking
  import opened MarkingMatches
  import opened MarkingRun
  import opened MarkingConditions
  import opened MarkingConverse

  function Entry(name: string): Data {
    BLANK.(typ := List, snode := Some(2), labelLens := Some(Pattern(name)))
  }

  function Item(name: string): Data {
    BLANK.(typ := Leaf, snode := Some(3), labelLens := Some(Pattern(name)))
  }

  function LeafTree(id: nat, name: string): Tree { Node(id, Item(name), []) }

  function EntryTree(id: nat, name: string): Tree {
    Node(id, Entry(name), [LeafTree(id + 1, "x"), LeafTree(id + 2, "y")])
  }

  const FILES: Data := BLANK.(typ := List, snode := Some(1))

  const TOP: Data := BLANK.(typ := Root)

  /** The list that stands for the configuration file. */
  function Main(): Tree { Node(1, FILES, [EntryTree(2, "a"), EntryTree(5, "a"), EntryTree(8, "b")]) }

  function Sample(): Tree { Node(0, TOP, [Main()]) }

  /** No when path is in the way, no label stands for several identifiers. */
  const RULES: Rules := Rules((id: nat) => true, (id: nat) => 0, (id: nat) => false)

  const LIMITS: Limits := Limits(11, {})

  function EntryCells(id: nat, name: string): seq<Cell> {
    [Cell(id, Entry(name), 2), Cell(id + 1, Item("x"), 0), Cell(id + 2, Item("y"), 0)]
  }

  lemma EntryFlat(id: nat, name: string)
    ensures FlatT(EntryTree(id, name)) == EntryCells(id, name) && Size(EntryTree(id, name)) == 3
    ensures IdsT(EntryTree(id, name)) == multiset{id, id + 1, id + 2}
    ensures SizeF(EntryTree(id, name).kids) == 2
  {
    var x, y := LeafTree(id + 1, "x"), LeafTree(id + 2, "y");
    Leafs(id + 1, Item("x"));
    Leafs(id + 2, Item("y"));
    OneFlat(x);
    OneFlat(y);
    TwoFlat(x, y);
    hide Item, Entry;
    IdsConcat([x], [y]);
    assert [x] + [y] == [x, y];
    FlatNode(EntryTree(id, name));
  }

  lemma ThreeFlat(a: Tree, b: Tree, c: Tree)
    ensures FlatF([a, b, c]) == FlatT(a) + FlatT(b) + FlatT(c) && SizeF([a, b, c]) == Size(a) + Size(b) + Size(c)
    ensures IdsF([a, b, c]) == IdsT(a) + IdsT(b) + IdsT(c)
  {
    hide *;
    OneFlat(a);
    TwoFlat(b, c);
    FlatConcat([a], [b, c]);
    IdsConcat([a], [b, c]);
    assert [a] + [b, c] == [a, b, c];
  }

  lemma FlatNode(t: Tree)
    ensures FlatT(t) == [Cell(t.id, t.data, SizeF(t.kids))] + FlatF(t.kids) && Size(t) == 1 + SizeF(t.kids)
    ensures IdsT(t) == multiset{t.id} + IdsF(t.kids)
  {
  }

  function Cells(): seq<Cell> {
    [Cell(0, TOP, 10)] + ([Cell(1, FILES, 9)] + (EntryCells(2, "a") + EntryCells(5, "a") + EntryCells(8, "b")))
  }

  lemma Ten()
    ensures multiset{1} + (multiset{2, 3, 4} + multiset{5, 6, 7} + multiset{8, 9, 10}) ==
            multiset{1, 2, 3, 4, 5, 6, 7, 8, 9, 10}
  {
  }

  lemma MainFlat()
    ensures FlatT(Main()) == [Cell(1, FILES, 9)] + (EntryCells(2, "a") + EntryCells(5, "a") + EntryCells(8, "b"))
    ensures Size(Main()) == 10 && IdsT(Main()) == multiset{1, 2, 3, 4, 5, 6, 7, 8, 9, 10}
  {
    hide *;
    Shapes();
    EntryFlat(2, "a");
    EntryFlat(5, "a");
    EntryFlat(8, "b");
    ThreeFlat(EntryTree(2, "a"), EntryTree(5, "a"), EntryTree(8, "b"));
    FlatNode(Main());
    Ten();
  }

  lemma Shapes()
    ensures Sample() == Node(0, TOP, [Main()]) && At(Sample(), []) == Sample() && Pos(Sample(), []) == 0
    ensures Main() == Node(1, FILES, [EntryTree(2, "a"), EntryTree(5, "a"), EntryTree(8, "b")])
    ensures SizeF([]) == 0 && ValidPath(Sample(), [])
  {
  }

  lemma Eleven(s: multiset<nat>)
    requires s == multiset{0} + multiset{1, 2, 3, 4, 5, 6, 7, 8, 9, 10}
    ensures Distinct(s)
  {
  }

  lemma SampleFlat()
    ensures FlatT(Sample()) == Cells() && Size(Sample()) == 11 && Distinct(IdsT(Sample()))
  {
    Shapes();
    MainFlat();
    OneFlat(Main());
    FlatNode(Sample());
    hide EntryCells, FlatT, FlatF, Main, Sample, Size, SizeF, IdsT, IdsF;
    Eleven(IdsT(Sample()));
  }

  function NameAt(b: nat): string { if b == 8 then "b" else "a" }

  predicate Place(b: nat) { b == 2 || b == 5 || b == 8 }

  lemma FiveParts<T>(a: seq<T>, b: seq<T>, x: seq<T>, y: seq<T>, z: seq<T>, k: nat)
    requires |a| == 1 && |b| == 1 && |x| == 3 && |y| == 3 && |z| == 3 && k < 3
    ensures var s := a + (b + (x + y + z));
            |s| == 11 && s[0] == a[0] && s[1] == b[0] && s[2 + k] == x[k] && s[5 + k] == y[k] && s[8 + k] == z[k]
  {
  }

  /** The cells of the three lists. */
  lemma CellsAre(b: nat, k: nat)
    requires Place(b) && k < 3
    ensures |FlatT(Sample())| == 11 && FlatT(Sample())[b + k] == EntryCells(b, NameAt(b))[k]
    ensures FlatT(Sample())[0] == Cell(0, TOP, 10) && FlatT(Sample())[1] == Cell(1, FILES, 9)
  {
    SampleFlat();
    ThreeCells();
    hide EntryCells, FlatT, Sample;
    FiveParts([Cell(0, TOP, 10)], [Cell(1, FILES, 9)], EntryCells(2, "a"), EntryCells(5, "a"), EntryCells(8, "b"), k);
  }

  lemma ThreeCells()
    ensures |EntryCells(2, "a")| == 3 && |EntryCells(5, "a")| == 3 && |EntryCells(8, "b")| == 3
  {
  }

  lemma ChildPath(t: Tree, q: Path, k: nat)
    requires ValidPath(t, q) && k < |At(t, q).kids|
    ensures ValidPath(t, q + [k]) && At(t, q + [k]) == At(t, q).kids[k]
    ensures var i := Pos(t, q) + 1 + SizeF(At(t, q).kids[..k]);
            Pos(t, q + [k]) == i < Size(t) && PathTo(t, i) == q + [k]
  {
    assert RangeStart(t, q, k) == Pos(t, q) + 1 + SizeF(At(t, q).kids[..k]);
    assert Up(q + [k]) == q && Last(q + [k]) == k;
    hide *;
    KidIndex(t, q, k);
    ReplaceKid(t, q, k, At(t, q).kids[k]);
    UpValid(t, q + [k]);
  }

  lemma MainPath()
    ensures var t := Sample();
            Size(t) == 11 && PathTo(t, 1) == [0] && ValidPath(t, [0]) && At(t, [0]) == Main() && Pos(t, [0]) == 1
  {
    hide *;
    Shapes();
    SampleFlat();
    assert [] + [0] == [0] && [Main()][..0] == [];
    ChildPath(Sample(), [], 0);
  }

  lemma EntrySizes()
    ensures SizeF([EntryTree(2, "a"), EntryTree(5, "a"), EntryTree(8, "b")][..0]) == 0
    ensures SizeF([EntryTree(2, "a"), EntryTree(5, "a"), EntryTree(8, "b")][..1]) == 3
    ensures SizeF([EntryTree(2, "a"), EntryTree(5, "a"), EntryTree(8, "b")][..2]) == 6
  {
    hide *;
    var a, b, c := EntryTree(2, "a"), EntryTree(5, "a"), EntryTree(8, "b");
    Shapes();
    EntryFlat(2, "a");
    EntryFlat(5, "a");
    OneFlat(a);
    TwoFlat(a, b);
    assert [a, b, c][..0] == [] && [a, b, c][..1] == [a] && [a, b, c][..2] == [a, b];
  }

  lemma EntryPath(b: nat)
    requires Place(b)
    ensures var t, q := Sample(), [0, (b - 2) / 3];
            Size(t) == 11 && PathTo(t, b) == q && ValidPath(t, q) && At(t, q) == EntryTree(b, NameAt(b))
  {
    hide *;
    MainPath();
    Shapes();
    EntrySizes();
    PlaceIs(b);
    var k := (b - 2) / 3;
    assert [0] + [k] == [0, k];
    ChildPath(Sample(), [0], k);
  }

  lemma PlaceIs(b: nat)
    requires Place(b)
    ensures b == 2 || b == 5 || b == 8
    ensures NameAt(2) == "a" == NameAt(5) && NameAt(8) == "b"
  {
  }

  lemma SamplePaths()
    ensures var t := Sample();
            && Size(t) == 11 && PathTo(t, 1) == [0] && ValidPath(t, [0]) && At(t, [0]) == Main()
            && PathTo(t, 2) == [0, 0] && ValidPath(t, [0, 0]) && At(t, [0, 0]) == EntryTree(2, "a")
            && PathTo(t, 5) == [0, 1] && ValidPath(t, [0, 1]) && At(t, [0, 1]) == EntryTree(5, "a")
            && PathTo(t, 8) == [0, 2] && ValidPath(t, [0, 2]) && At(t, [0, 2]) == EntryTree(8, "b")
  {
    hide Sample, Size, PathTo, At, ValidPath, EntryTree, Main;
    MainPath();
    EntryPath(2);
    EntryPath(5);
    EntryPath(8);
  }

  // ----- Which nodes match -----

  lemma EntryShape(id: nat, name: string)
    ensures var l := EntryTree(id, name);
            && |l.kids| == 2 && InnerIndex(l.kids) == 0 && SizeF(l.kids[0..]) == 2 && SizeF(l.kids[..0]) == 0
            && l.id == id && l.data == Entry(name) && l.data.typ == List && l.data.ref == 0 && Size(l) == 3
  {
    EntryFlat(id, name);
    var l := EntryTree(id, name);
    assert l.kids[0..] == l.kids && l.kids[..0] == [];
  }

  /** Leaves of two lists. */
  lemma LeafPairs(i: nat, j: nat, k: nat)
    requires Place(i) && Place(j) && 1 <= k <= 2
    ensures Size(Sample()) == 11 && EqualAt(Sample(), i + k, j + k, false)
  {
    var t := Sample();
    CellsAre(i, k);
    CellsAre(j, k);
    hide FlatT, Sample, LinkT, Lone;
    assert FlatT(t)[i + k].data == FlatT(t)[j + k].data && FlatT(t)[i + k].desc == FlatT(t)[j + k].desc;
  }

  lemma HeadPairs()
    ensures Size(Sample()) == 11 && EqualAt(Sample(), 2, 5, true) && !EqualAt(Sample(), 2, 8, true)
  {
    CellsAre(2, 0);
    CellsAre(5, 0);
    CellsAre(8, 0);
    assert 2 + 0 == 2 && 5 + 0 == 5 && 8 + 0 == 8;
    hide FlatT, Sample, LinkT, Lone;
    assert Entry("a").labelLens != Entry("b").labelLens by { assert "a"[0] != "b"[0]; }
  }

  lemma LeafRun(j: nat)
    requires j == 5 || j == 8
    ensures Size(Sample()) == 11 && RunEqual(Sample(), 3, j + 1, 2)
  {
    hide EqualAt, Sample, Size;
    LeafPairs(2, j, 1);
    LeafPairs(2, j, 2);
    assert EqualPair(Sample(), 3, j + 1, 0) && EqualPair(Sample(), 3, j + 1, 1);
  }

  lemma FirstMatch()
    ensures Size(Sample()) == 11 && MatchOf(Sample(), 2, 5) == Whole
  {
    hide *;
    var t := Sample();
    SamplePaths();
    HeadPairs();
    LeafRun(5);
    EntryShape(2, "a");
    EntryShape(5, "a");
    TreesEqualIs(t, 2, 5);
    MatchIs(t, 2, 5);
    ListWhole(t, 2, 5);
  }

  lemma ListWhole(t: Tree, i: nat, j: nat)
    requires 0 < i < Size(t) && 0 < j < Size(t) && At(t, PathTo(t, j)).data.typ == List
    ensures WholeFirst(t, i, j)
  {
    hide At, PathTo;
  }

  lemma EntryInners(t: Tree, i: nat, id: nat, name: string)
    requires i < Size(t) && At(t, PathTo(t, i)) == EntryTree(id, name)
    ensures InnerCount(t, i) == 2 && InnerStart(t, i) == i + 1 && !Poor(t, i)
  {
    EntryShape(id, name);
    InnerBound(t, i);
    hide EntryTree, At, PathTo, Size, FlatT, RangeStart;
  }

  lemma SecondMatch()
    ensures Size(Sample()) == 11 && MatchOf(Sample(), 2, 8) == Inner && !Poor(Sample(), 2)
  {
    hide *;
    var t := Sample();
    SamplePaths();
    HeadPairs();
    LeafRun(8);
    EntryInners(t, 2, 2, "a");
    EntryInners(t, 8, 8, "b");
    TreesEqualIs(t, 2, 8);
    InnersEqualIs(t, 2, 8);
    MatchIs(t, 2, 8);
  }

  lemma SampleConflict()
    ensures Size(Sample()) == 11 && Conflict(Sample(), 2, RULES)
  {
    hide *;
    var t := Sample();
    SamplePaths();
    FirstMatch();
    SecondMatch();
    EntryShape(2, "a");
    EntryShape(5, "a");
    EntryShape(8, "b");
    AllFit(2);
    AllFit(5);
    AllFit(8);
    AfterIs(t, 2, 5);
    AfterIs(t, 2, 8);
    MatchingThus(t, 2, 5, RULES, Whole);
    MatchingThus(t, 2, 8, RULES, Inner);
    FindsAt(t, 2, 5, RULES, Whole);
    FindsAt(t, 2, 8, RULES, Inner);
    RichPoor(t, 2, RULES);
    ListCandidate();
    ConflictThus(t, 2, RULES);
  }

  lemma AllFit(id: nat)
    ensures RULES.fit(id)
  {
  }

  lemma ListCandidate()
    ensures ValidPath(Sample(), [0, 0]) && Candidate(Sample(), [0, 0], RULES)
  {
    hide *;
    SamplePaths();
    SampleNoRec();
    EntryShape(2, "a");
    AllFit(2);
    Shapes();
    MainList();
    assert [0, 0][..1] == [0];
    CandidateList(Sample(), [0, 0], [0]);
  }

  lemma MainList()
    ensures FILES.typ == List && TOP.typ == Root && FILES.ref == 0 && TOP.ref == 0
  {
  }

  lemma {:induction false} NoRecAbove(t: Tree, q: Path)
    requires NoRec(t) && ValidPath(t, q)
    ensures RecAbove(t, q) == None
    decreases |q|
  {
    NodeCell(t, q);
    if q != [] {
      UpValid(t, q);
      NoRecAbove(t, Up(q));
    }
  }

  lemma CandidateList(t: Tree, q: Path, p: Path)
    requires q != [] && ValidPath(t, q) && ValidPath(t, p) && p == q[..|q| - 1] && NoRec(t) && RULES.fit(At(t, q).id)
    requires At(t, q).data.typ == List && At(t, p).data.typ != Root
    ensures Candidate(t, q, RULES)
  {
    UpValid(t, q);
    PosBound(t, q);
    NoRecAbove(t, Up(q));
    hide At, ValidPath, NoRec, FlatT, RecAbove, Size, Pos;
    assert Up(q) == p;
  }

  // ----- The tree is one that the pass may meet -----

  predicate Usual(c: Cell) {
    FreshCell(c, LIMITS, {}) && c.data.ref == 0 && c.data.typ != Rec
  }

  lemma UsualEntry(b: nat, k: nat)
    requires Place(b) && k < 3
    ensures |EntryCells(b, NameAt(b))| == 3 && Usual(EntryCells(b, NameAt(b))[k])
            && EntryCells(b, NameAt(b))[k].id == b + k
  {
  }

  lemma UsualTop()
    ensures Usual(Cell(0, TOP, 10)) && Usual(Cell(1, FILES, 9))
  {
  }

  lemma SampleCell(a: nat)
    requires a < 11
    ensures |FlatT(Sample())| == 11
    ensures var c := FlatT(Sample())[a]; Usual(c) && (a > 0 ==> c.id != 0)
  {
    UsualTop();
    var b := if a < 5 then 2 else if a < 8 then 5 else 8;
    var k := if a < 2 then 0 else a - b;
    CellsAre(b, k);
    UsualEntry(b, k);
    hide FlatT, Sample, Usual, EntryCells;
  }

  lemma SampleNoRec()
    ensures NoRec(Sample()) && NoRefs(Sample())
  {
    SampleFlat();
    hide FlatT, Sample, Size, FreshCell;
    forall a | 0 <= a < 11 ensures FlatT(Sample())[a].data.typ != Rec && FlatT(Sample())[a].data.ref == 0 {
      SampleCell(a);
    }
  }

  lemma SampleUnmarked()
    ensures Unmarked(Sample(), LIMITS, {}, RULES)
  {
    hide *;
    var t := Sample();
    SampleFlat();
    SampleKeyed();
    Shapes();
    forall a | 0 <= a < 11 ensures FreshCell(FlatT(t)[a], LIMITS, {}) && (a > 0 ==> FlatT(t)[a].id != 0) {
      SampleCell(a);
      UsualIs(FlatT(t)[a]);
    }
    UnmarkedThus(t);
  }

  lemma UsualIs(c: Cell)
    requires Usual(c)
    ensures FreshCell(c, LIMITS, {})
  {
  }

  lemma UnmarkedThus(t: Tree)
    requires forall a :: 0 <= a < Size(t) ==> FreshCell(FlatT(t)[a], LIMITS, {}) && (a > 0 ==> FlatT(t)[a].id != 0)
    requires t.data == TOP && Distinct(IdsT(t)) && Keyed(t)
    ensures Unmarked(t, LIMITS, {}, RULES)
  {
    hide FlatT, Size, IdsT, Keyed, FreshCell, Restricted;
  }

  lemma EntryKeyed(id: nat, name: string)
    ensures Keyed(EntryTree(id, name))
  {
    assert Keyed(LeafTree(id + 1, "x")) && Keyed(LeafTree(id + 2, "y"));
  }

  lemma SampleKeyed()
    ensures Keyed(Sample())
  {
    EntryKeyed(2, "a");
    EntryKeyed(5, "a");
    EntryKeyed(8, "b");
    assert Keyed(Main());
  }

  /** Nothing can be claimed before the first list: the main list starts no class. */
  lemma SampleApart()
    ensures Size(Sample()) == 11 && Apart(Sample(), 2, RULES)
  {
    var t := Sample();
    SamplePaths();
    Shapes();
    MainList();
    hide Sample, Size, Takes, Disjoint, PathTo, Main;
    MainNoCandidate(t, RULES);
    forall a: nat | a < Size(t) ensures !Claimed(t, a, 2, RULES) {
      forall h: nat | 0 < h < 2 ensures h < Size(t) && !Takes(t, h, a, RULES) {
        TakesCandidate(t, 1, a);
      }
    }
  }

  lemma TakesCandidate(t: Tree, h: nat, a: nat)
    requires 0 < h < Size(t)
    ensures Takes(t, h, a, RULES) ==> Candidate(t, PathTo(t, h), RULES)
  {
    hide Candidate, Matching, After;
  }

  lemma MainNoCandidate(t: Tree, rules: Rules)
    requires 1 < Size(t) && PathTo(t, 1) == [0] && ValidPath(t, [0]) && At(t, [0]).data.typ == List
             && t.data.typ == Root
    ensures !Candidate(t, PathTo(t, 1), rules)
  {
    assert Up([0]) == [];
    UpValid(t, [0]);
    hide Restricted;
  }

  /** The pass loses meaning on this tree: the second list is read as the leaves of the first. */
  lemma MixedLosesMeaning()
    ensures Size(Sample()) == 11 && Unmarked(Sample(), LIMITS, {}, RULES)
    ensures forall id :: !RULES.splittable(id)
    ensures var r := MarkFrom(Sample(), 1, RULES); r.1 && Meaning(r.0) != Meaning(Sample())
  {
    hide *;
    SampleFlat();
    SampleUnmarked();
    SampleNoRec();
    SampleConflict();
    SampleApart();
    NoneSplit();
    ConflictLosesMeaning(Sample(), LIMITS, RULES, 2);
  }

  lemma NoneSplit()
    ensures forall id :: !RULES.splittable(id)
  {
  }
}
