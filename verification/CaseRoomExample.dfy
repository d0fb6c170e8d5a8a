/** Two branches whose merge brings about another one: then the space reserved for the pass is too small. */
module CaseRoomExample {
  import opened YNodes
  import opened RoseTree
  import opened CaseMerging
  import opened CaseCounts
  import opened CaseMerges
  import opened CaseRuns
  import opened CaseSteps
  import opened CaseRoom

  function LeafAt(id: nat, text: string): Tree {
    Node(id, BLANK.(typ := Leaf, labelLens := Some(Pattern(text))), [])
  }

  function Inside(id: nat, text: string, c: Option<nat>, f: seq<Tree>): Tree {
    Node(id, BLANK.(typ := Container, labelLens := Some(Pattern(text)), choice := c), f)
  }

  /** [key "y" . [p] . [q]] . [r] . [s] */
  function Inner(id: nat, p: string, q: string, r: string, s: string): seq<Tree> {
    [Inside(id, "y", None, [LeafAt(id + 1, p), LeafAt(id + 2, q)]), LeafAt(id + 3, r), LeafAt(id + 4, s)]
  }

  function KidsOne(): seq<Tree> { Inner(2, "a", "b", "v", "w") }
  function KidsTwo(): seq<Tree> { Inner(8, "c", "d", "s", "t") }

  function One(): Tree { Inside(1, "x", Some(1), KidsOne()) }
  function Two(): Tree { Inside(7, "x", Some(1), KidsTwo()) }

  function Sample(): Tree { Node(0, BLANK.(typ := Root), [One(), Two()]) }

  // ----- The tree before the pass -----

  lemma InnerIs(id: nat, p: string, q: string, r: string, s: string)
    ensures var f := Inner(id, p, q, r, s);
            && |f| == 3 && SoundF(f) && SizeF(f) == 5 && SizeF(f[1..]) == 2 && Size(f[0]) == 3 && |f[0].kids| == 2
               && SizeF(f[0].kids) == 2
            && (forall i :: 0 <= i < 3 ==> !IsCase(f[i]) && f[i].data.choice.None? && f[i].data.when.None?)
            && f[0].data.labelLens == Some(Pattern("y")) && f[1].data.labelLens == Some(Pattern(r))
            && forall i :: 0 <= i < 2 ==>
               f[0].kids[i].data.choice.None? && !IsCase(f[0].kids[i]) && f[0].kids[i].kids == []
  {
    var f := Inner(id, p, q, r, s);
    var k := f[0].kids;
    TwoSizes(k[0], k[1]);
    TwoSizes(f[1], f[2]);
    SplitSize(f, 1);
    OneSize(f[0]);
    assert k == [k[0], k[1]] && f[1..] == [f[1], f[2]] && f[..1] == [f[0]];
    assert Sound(k[0]) && Sound(k[1]);
    assert Sound(f[0]) && Sound(f[1]) && Sound(f[2]);
    LeafSize(id + 1, p);
    LeafSize(id + 2, q);
    LeafSize(id + 3, r);
    LeafSize(id + 4, s);
  }

  lemma TwoSizes(a: Tree, b: Tree)
    ensures SizeF([a, b]) == Size(a) + Size(b) && SizeF([a]) == Size(a)
  {
    hide Size;
    OneSize(a);
    OneSize(b);
    SizeConcat([a], [b]);
    assert [a] + [b] == [a, b];
  }

  lemma LeafSize(id: nat, text: string)
    ensures Size(LeafAt(id, text)) == 1
  {
  }

  lemma BranchesOf()
    ensures One().id == 1 && One().kids == KidsOne() && Two().kids == KidsTwo() && !IsCase(One()) && !IsCase(Two())
    ensures One().data == Two().data && One().data.labelLens == Some(Pattern("x")) && One().data.choice == Some(1)
    ensures One().data.when.None? && One().data.valueLens.None? && One().data.flags == {}
            && Sample().kids == [One(), Two()]
    ensures Sample().data.when.None? && Sample().id == 0
  {
  }

  lemma SampleSound()
    ensures Sound(One()) && Sound(Two()) && SoundF(Sample().kids) && Size(Sample()) == 13
  {
    BranchesOf();
    InnerIs(2, "a", "b", "v", "w");
    InnerIs(8, "c", "d", "s", "t");
    LeftAre();
    SoundNode(One());
    SoundNode(Two());
    hide KidsOne, KidsTwo, One, Two, Sound, Inner;
    var f := Sample().kids;
    TwoSizes(One(), Two());
    assert forall i :: 0 <= i < |f| ==> f[i] == One() || f[i] == Two();
  }

  lemma LeftAre()
    ensures KidsOne() == Inner(2, "a", "b", "v", "w") && KidsTwo() == Inner(8, "c", "d", "s", "t")
  {
  }

  lemma NoPairs(f: seq<Tree>)
    requires forall i :: 0 <= i < |f| ==> f[i].data.choice.None? && Matches(f[i]) == 0
    ensures Rows(f, 0) == 0 && MatchesF(f) == 0
  {
    NoRows(f, 0);
    NoBelow(f);
  }

  lemma {:induction false} NoRows(f: seq<Tree>, i: nat)
    requires forall k :: 0 <= k < |f| ==> f[k].data.choice.None?
    ensures Rows(f, i) == 0
    decreases |f| - i
  {
    if i < |f| { NoRows(f, i + 1); }
  }

  lemma {:induction false} NoBelow(f: seq<Tree>)
    requires forall i :: 0 <= i < |f| ==> Matches(f[i]) == 0
    ensures MatchesF(f) == 0
    decreases |f|
  {
    if f != [] { NoBelow(f[1..]); }
  }

  lemma InnerMatches(id: nat, p: string, q: string, r: string, s: string)
    ensures Rows(Inner(id, p, q, r, s), 0) == 0 && MatchesF(Inner(id, p, q, r, s)) == 0
  {
    InnerIs(id, p, q, r, s);
    var f := Inner(id, p, q, r, s);
    LeafMatches(LeafAt(id + 1, p));
    LeafMatches(LeafAt(id + 2, q));
    LeafMatches(f[1]);
    LeafMatches(f[2]);
    var k := f[0].kids;
    assert k[0] == LeafAt(id + 1, p) && k[1] == LeafAt(id + 2, q);
    NoPairs(k);
    assert Matches(f[0]) == 0;
    assert forall i :: 0 <= i < |f| ==> f[i] == f[0] || f[i] == f[1] || f[i] == f[2];
    hide Inner, Matches, MatchesF, Rows, Sound, Size, SizeF, LeafAt;
    NoPairs(f);
  }

  lemma LeafMatches(t: Tree)
    requires t.kids == []
    ensures Matches(t) == 0
  {
  }

  lemma SampleMatches()
    ensures Matches(Sample()) == 1 && SoundF(Sample().kids) && Partners(Sample().kids, 0, 1)
  {
    BranchesOf();
    SampleSound();
    LeftAre();
    InnerMatches(2, "a", "b", "v", "w");
    InnerMatches(8, "c", "d", "s", "t");
    var f := Sample().kids;
    MatchesAre(One());
    MatchesAre(Two());
    MatchesAre(Sample());
    PairMatches(f);
    hide KidsOne, KidsTwo, One, Two, Inner, Sample, Sound, SoundF, Matches, MatchesF, Rows;
    assert Matching(One(), Two());
  }

  lemma MatchesAre(t: Tree)
    ensures Matches(t) == Rows(t.kids, 0) + MatchesF(t.kids)
  {
  }

  lemma PairMatches(f: seq<Tree>)
    requires |f| == 2
    ensures MatchesF(f) == Matches(f[0]) + Matches(f[1])
    ensures f[0].data.choice == f[1].data.choice && f[0].data.choice.Some? ==> Rows(f, 0) == Bit(Mergeable(f[0], f[1]))
  {
    assert f[1..] == [f[1]] && f[1..][1..] == [];
    assert MatchesF(f[1..]) == Matches(f[1]) + MatchesF([]);
    assert Rows(f, 2) == 0;
    if f[0].data.choice.Some? {
      assert Row(f, 0, 2) == 0 && Row(f, 1, 2) == 0;
      assert f[0].data.choice == f[1].data.choice ==> Row(f, 0, 1) == Bit(Mergeable(f[0], f[1]));
    }
    hide Matches, Mergeable;
  }

  // ----- The first merge -----

  /** The nodes as a case, one of two in the choice that the program makes up. */
  function Wrapped(f: seq<Tree>, n: nat): Tree
    requires f != []
  {
    Node(n, BLANK.(typ := Case, choice := Some(TOP), flags := {ChoiceCreated}),
      [Flagged(f[0], {ChoiceCreated})] + f[1..])
  }

  lemma WrappedIs(f: seq<Tree>, n: nat)
    requires |f| > 1 && !IsCase(f[0]) && f[0].data.choice.None? && f[0].data.when.None? && SoundF(f)
    ensures CaseInsert(f, None, n) == [Wrapped(f, n)] && !InChoice(f)
    ensures var c := Wrapped(f, n);
            && Sound(c) && IsCase(c) && c.data.choice == Some(TOP) && c.data.when.None? && Size(c) == 1 + SizeF(f)
            && First(c).kids == f[0].kids && First(c).data.labelLens == f[0].data.labelLens && Rest(c) == f[1..]
  {
    var x := Flagged(f[0], {ChoiceCreated});
    assert Timed(x, None) == x;
    var c := Wrapped(f, n);
    assert RedoneF(f, c.kids);
    RedoneSize(f, c.kids);
    RedoneSameF(f, c.kids);
    SoundNode(c);
    hide Sound, SoundF;
    assert c.kids[1..] == f[1..];
  }

  lemma JoinedIs(f: seq<Tree>, g: seq<Tree>, n: nat)
    requires |f| > 1 && !IsCase(f[0]) && f[0].data.choice.None? && f[0].data.when.None? && SoundF(f)
    requires |g| > 1 && !IsCase(g[0]) && g[0].data.choice.None? && g[0].data.when.None? && SoundF(g)
    ensures Joined(f, g, n) == [Wrapped(f, n), Wrapped(g, n + 1)]
  {
    WrappedIs(f, n);
    WrappedIs(g, n + 1);
    hide CaseInsert, InChoice, Wrapped;
  }

  lemma NotSame()
    ensures Sound(One()) && Sound(Two()) && !Repeats(One(), Two()) && !SameBut(One(), Two()) && !Blocked(One(), Two())
            && !Drop(One(), Two())
  {
    SampleSound();
    BranchesOf();
    LeftAre();
    InnerIs(2, "a", "b", "v", "w");
    InnerIs(8, "c", "d", "s", "t");
    hide KidsOne, KidsTwo, One, Two, Inner, Sound, SoundF;
    var f, g := KidsOne(), KidsTwo();
    assert f[1].data.labelLens != g[1].data.labelLens by { assert "v"[0] != "s"[0]; }
    assert !NodesEqual(f[1], g[1], false, false);
  }

  /** The branch that the first merge leaves. */
  lemma FirstMerge(n: nat) returns (x: Tree)
    ensures SoundF(Sample().kids) && Partners(Sample().kids, 0, 1)
    ensures Sound(One()) && Sound(Two()) && !Blocked(One(), Two()) && Sample().kids == [One(), Two()]
    ensures var u := StepTree(Sample(), 0, 1, n); u.kids == [x] && !Drop(One(), Two())
    ensures x.kids == [Wrapped(KidsOne(), n), Wrapped(KidsTwo(), n + 1)]
  {
    SampleMatches();
    SampleSound();
    BranchesOf();
    LeftAre();
    NotSame();
    InnerIs(2, "a", "b", "v", "w");
    InnerIs(8, "c", "d", "s", "t");
    hide *;
    UnionKids(n);
    var r := Union(One(), Two(), n);
    JoinedIs(KidsOne(), KidsTwo(), n);
    x := StepKid(Sample(), One(), Two(), n);
  }

  lemma UnionKids(n: nat)
    ensures Sound(One()) && Sound(Two()) && !Blocked(One(), Two())
    ensures var r := Union(One(), Two(), n);
            !IsCase(r) && r.data.choice == Some(1) && r.kids == Joined(KidsOne(), KidsTwo(), n)
  {
    NotSame();
    BranchesOf();
    LeftAre();
    InnerIs(2, "a", "b", "v", "w");
    InnerIs(8, "c", "d", "s", "t");
    hide Repeats, SameBut, Sound, Joined, KidsOne, KidsTwo, One, Two, Inner, SoundF;
  }

  lemma StepKid(t: Tree, a: Tree, b: Tree, n: nat) returns (x: Tree)
    requires t.kids == [a, b] && SoundF(t.kids) && Partners(t.kids, 0, 1) && Sound(a) && Sound(b) && !Blocked(a, b)
    requires var r := Union(a, b, n); !IsCase(r) && r.data.choice.Some? && !IsCase(a)
    ensures StepTree(t, 0, 1, n).kids == [x] && x.kids == Union(a, b, n).kids
  {
    var r := Union(a, b, n);
    hide Union, Partners, Blocked, Sound, SoundF;
    assert Fused(t.kids, 0, 1, r) == [r];
    x := Timed(Chosen(r, None), None);
    assert Settle([r], 0) == [x];
  }

  // ----- The second merge -----

  /** Two cases and everything behind them are to be merged, which takes four more nodes. */
  lemma SecondFills(n: nat)
    ensures var a, b := Wrapped(KidsOne(), n), Wrapped(KidsTwo(), n + 1);
            && Sound(a) && Sound(b) && Size(a) == 6 == Size(b) && HighestOf(a, b) == 4 && SoundF([a, b])
               && Partners([a, b], 0, 1)
  {
    LeftAre();
    InnerIs(2, "a", "b", "v", "w");
    InnerIs(8, "c", "d", "s", "t");
    WrappedIs(KidsOne(), n);
    WrappedIs(KidsTwo(), n + 1);
    hide KidsOne, KidsTwo, Inner, Sound, Wrapped;
    var a, b := Wrapped(KidsOne(), n), Wrapped(KidsTwo(), n + 1);
    var f, g := KidsOne(), KidsTwo();
    assert Rest(a)[0] == f[1] && Rest(b)[0] == g[1] && |Rest(a)| == 2 == |Rest(b)|;
    CasesDiffer(a, b);
    CasesFill(a, b);
    assert Matching(a, b);
  }

  lemma CasesDiffer(a: Tree, b: Tree)
    requires Sound(a) && Sound(b) && IsCase(a) && IsCase(b) && |Rest(a)| == 2 == |Rest(b)|
    requires Rest(a)[0].data.labelLens == Some(Pattern("v")) && Rest(b)[0].data.labelLens == Some(Pattern("s"))
    ensures !Repeats(a, b) && !SameBut(a, b)
  {
    assert "v"[0] != "s"[0];
    assert !NodesEqual(Rest(a)[0], Rest(b)[0], false, true);
    hide Sound, Rest, First, NodesEqual;
  }

  /** Four lists of two nodes or more, none of them in a choice. */
  lemma CasesFill(a: Tree, b: Tree)
    requires Sound(a) && Sound(b) && IsCase(a) && IsCase(b)
    requires Free(First(a).kids) && Free(First(b).kids) && Free(Rest(a)) && Free(Rest(b))
    ensures Highest(a, b) == 4
  {
    hide Sound, Rest, First;
  }

  predicate Free(f: seq<Tree>) {
    |f| > 1 && !IsCase(f[0]) && f[0].data.choice.None?
  }

  /**
   The program counts one pair of branches, and reserves four nodes. The first merge brings about a second one,
   during which the array has five nodes more than before the pass.
  */
  lemma ReserveTooSmall(n: nat) returns (s: seq<Tree>)
    ensures |s| == 2 && s[0] == Sample() && SoundF(s[1].kids) && Run(s)
    ensures Matches(s[0]) == 1 && Size(s[0]) == 13 && Fills(s[1], Size(s[0]) + 4 * Matches(s[0]) + 1)
  {
    hide *;
    SampleMatches();
    SampleSound();
    var x := FirstMerge(n);
    LeftSome();
    SecondFills(n);
    var a, b := Wrapped(KidsOne(), n), Wrapped(KidsTwo(), n + 1);
    var u := StepTree(Sample(), 0, 1, n);
    s := [Sample(), u];
    OneStep(Sample(), 0, 1, n);
    RunTwo(Sample(), u);
    BothFill(u, x, a, b);
  }

  lemma LeftSome()
    ensures KidsOne() != [] && KidsTwo() != []
  {
  }

  lemma OneStep(t: Tree, i: nat, j: nat, n: nat)
    requires SoundF(t.kids) && Partners(t.kids, i, j) && !Blocked(t.kids[i], t.kids[j])
    ensures var u := StepTree(t, i, j, n); SoundF(u.kids) && (Step(t, u, false) || Step(t, u, true))
  {
    StepAtBetter(t, i, j, n);
    var u := StepTree(t, i, j, n);
    hide Partners, Blocked, StepTree, Drop;
    assert StepAt(t, u, Drop(t.kids[i], t.kids[j]), i, j, n);
  }

  lemma RunTwo(t: Tree, u: Tree)
    requires SoundF(t.kids) && SoundF(u.kids) && (Step(t, u, false) || Step(t, u, true))
    ensures Run([t, u])
  {
    hide Step, SoundF;
  }

  lemma BothFill(u: Tree, x: Tree, a: Tree, b: Tree)
    requires u.kids == [x] && x.kids == [a, b] && SoundF(u.kids) && Sound(a) && Sound(b) && SoundF([a, b])
    requires Size(a) == 6 == Size(b) && HighestOf(a, b) == 4 && Partners([a, b], 0, 1)
    ensures Fills(u, 18)
  {
    hide Partners, HighestOf, Sound, SoundF;
    TwoSizes(a, b);
    OneSize(x);
    assert Size(x) == 13 && Size(u) == 14;
    assert FillsHere(x, 17, 0, 1);
    assert Fills(x, 17);
    assert FillsBelow(u, 18, 0, 17);
  }
}
