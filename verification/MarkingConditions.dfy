/** When the marking pass keeps the meaning, told from the tree before the pass. */
module MarkingConditions {
  import opened YNodes
  import opened RoseTree
  import opened TreeLinks
  import opened TreeEdits
  import opened Expansion
  import opened Conversion
  import opened ConversionFacts
  import opened Groupings
  import opened GroupingSteps
  import opened GroupingRest
  import opened GroupingEdits
  import opened SameContent
  import opened MarkingMeaning
  import opened MarkingSteps
  import opened TreeForms
  import opened Marking
  import opened MarkingMatches
  import opened MarkingRun

  // ----- Trees without recursive lenses -----

  ghost predicate NoRec(t: Tree) {
    forall a :: 0 <= a < Size(t) ==> FlatT(t)[a].data.typ != Rec
  }

  lemma NotBelowRec(t: Tree, q: Path)
    requires NoRec(t) && q != [] && ValidPath(t, q)
    ensures !BelowRec(t, q)
  {
    UpValid(t, q);
    NodeCell(t, Up(q));
  }

  lemma FreeNone(t: Tree, i: nat)
    requires i < Size(t) && At(t, PathTo(t, i)).data.ref == 0 && OpenAt(FlatT(t), i)
    ensures Free(t, i, {}) && OpenAt(FlatT(t), i + 1)
  {
    UntagNoneT(t);
    NodeCell(t, PathTo(t, i));
    OpenNext(t, i);
  }

  lemma NoRecForm(t: Tree, u: Tree)
    requires SameForm(t, u) && NoRec(t)
    ensures NoRec(u)
  {
    FormTyp(t, u);
    forall a | 0 <= a < Size(u) ensures FlatT(u)[a].data.typ != Rec {
      assert SameSpot(FlatT(t)[a], FlatT(u)[a]);
    }
  }

  /** After a class the tree is as it has to be for the next one. */
  lemma ClassWithoutRec(t: Tree, i: nat, rules: Rules, lim: Limits)
    requires 0 < i < Size(t) && NoRec(t) && Sound(t, lim, i) && Guarded(t, rules, lim.refs)
    requires Candidate(t, PathTo(t, i), rules) && Free(t, i, {}) && OpenAt(FlatT(t), i + 1)
    ensures var c := MarkClass(t, i, rules).0;
            && Size(c) == Size(t) && NoRec(c) && Sound(c, lim, i + 1) && OpenAt(FlatT(c), i + 1)
            && Guarded(c, rules, lim.refs)
  {
    hide *;
    UntagNoneT(t);
    CandidateApart(t, i, rules, lim.refs);
    ClassTrend(t, i, rules, lim, {});
    var c := MarkClass(t, i, rules).0;
    UntagNoneT(c);
    NoRecForm(t, c);
    GuardedForm(t, c, rules, lim.refs);
  }

  /** Without recursion every later node of a class is passed over with all below it. */
  lemma {:induction false} CleanWithoutRec(t: Tree, i: nat, rules: Rules, lim: Limits)
    requires 0 < i <= Size(t) && NoRec(t) && Sound(t, lim, i) && OpenAt(FlatT(t), i) && Guarded(t, rules, lim.refs)
    ensures Clean(t, i, rules, {})
    decreases Size(t) - i
  {
    hide Sound, MarkClass, Candidate, At, PathTo, Pos, FlatT, SameForm, Starts, Free, Guarded, BelowRec, Untag,
         NoRec, OpenAt;
    if i < Size(t) {
      var q := PathTo(t, i);
      PosBound(t, q);
      MarkPass(t, i, lim);
      NotBelowRec(t, q);
      if At(t, q).data.ref != 0 {
        OpenSkip(t, i);
        CleanWithoutRec(t, i + Size(At(t, q)), rules, lim);
      } else {
        FreeNone(t, i);
        if !Candidate(t, q, rules) {
          CleanWithoutRec(t, i + 1, rules, lim);
        } else {
          ClassWithoutRec(t, i, rules, lim);
          var c := MarkClass(t, i, rules).0;
          CleanWithoutRec(c, i + 1, rules, lim);
        }
      }
    }
  }

  // ----- Matches before the pass -----

  predicate After(t: Tree, i: nat, j: nat)
    requires i < Size(t)
  {
    i + Size(At(t, PathTo(t, i))) <= j < Size(t)
  }

  /** The node at index `j` may join a class of the one at `i`, in this way. */
  predicate Matching(t: Tree, i: nat, j: nat, rules: Rules, m: Match)
    requires 0 < i < Size(t) && 0 < j < Size(t)
  {
    var n := At(t, PathTo(t, j));
    n.data.ref == 0 && rules.fit(n.id) && MatchOf(t, i, j) == m
  }

  ghost predicate Finds(t: Tree, i: nat, rules: Rules, m: Match)
    requires 0 < i < Size(t)
  {
    exists j: nat :: After(t, i, j) && Matching(t, i, j, rules, m)
  }

  predicate SplitMatching(t: Tree, i: nat, k: nat, rules: Rules)
    requires 0 < i < Size(t) && 0 < k < Size(t)
  {
    Matching(t, i, k, rules, Inner) && rules.splittable(At(t, PathTo(t, k)).id)
  }

  /** The inner nodes are worth a grouping. */
  ghost predicate Rich(t: Tree, i: nat, rules: Rules)
    requires 0 < i < Size(t)
  {
    !Poor(t, i) || exists k: nat :: After(t, i, k) && SplitMatching(t, i, k, rules)
  }

  /** The node at index `i` equals some later nodes as a whole, and shares only its inner nodes with others. */
  ghost predicate Conflict(t: Tree, i: nat, rules: Rules)
    requires 0 < i < Size(t)
  {
    Candidate(t, PathTo(t, i), rules) && Finds(t, i, rules, Whole) && Finds(t, i, rules, Inner) && Rich(t, i, rules)
  }

  ghost predicate Unmixed(t: Tree, rules: Rules) {
    forall i: nat :: 0 < i < Size(t) ==> !Conflict(t, i, rules)
  }

  // ----- A tree in the middle of the pass, and the tree before it -----

  /** A node as it was, or with a mark for a class. */
  predicate Kept(x: Cell, y: Cell, tags: set<nat>) {
    || x == y
    || (x.data.ref == 0 && !IsKeyVal(x.data) && y.data.ref != 0 && y.data.ref !in tags
        && (y == x.(data := Mark(x.data, y.data.ref, false)) || y == x.(data := Mark(x.data, y.data.ref, true))))
  }

  ghost predicate Traced(t: Tree, u: Tree, i: nat, tags: set<nat>) {
    SameForm(t, u) && forall a :: i <= a < Size(t) && a < Size(u) ==> Kept(FlatT(t)[a], FlatT(u)[a], tags)
  }

  ghost predicate FreshTree(t: Tree, lim: Limits, tags: set<nat>) {
    forall a :: 0 <= a < Size(t) ==> FreshCell(FlatT(t)[a], lim, tags)
  }

  /** Marks only make fewer nodes equal. */
  lemma KeptSame(x: Cell, y: Cell, x': Cell, y': Cell, lone: bool, ignoreChoice: bool, lim: Limits, tags: set<nat>)
    requires FreshCell(x, lim, tags) && FreshCell(y, lim, tags) && Kept(x, x', tags) && Kept(y, y', tags)
    requires SameNode(x', y', lone, ignoreChoice)
    ensures SameNode(x, y, lone, ignoreChoice)
  {
    var mask := if ignoreChoice then CMP_MASK - {ChoiceMandFalse} else CMP_MASK;
    var a, b, c, d := x.data.flags, y.data.flags, x'.data.flags, y'.data.flags;
    assert forall f :: f in mask ==> (f in c <==> f in c * mask) && (f in d <==> f in d * mask);
    assert forall f :: f in mask && f != GroupingChildren ==> (f in a <==> f in c) && (f in b <==> f in d);
    assert a * mask == b * mask;
  }

  lemma EqualBack(t: Tree, u: Tree, i: nat, j: nat, ignoreChoice: bool, k: nat, lim: Limits, tags: set<nat>)
    requires Traced(t, u, k, tags) && FreshTree(t, lim, tags) && k <= i < Size(t) && k <= j < Size(t)
    ensures Size(t) == Size(u) && (EqualAt(u, i, j, ignoreChoice) ==> EqualAt(t, i, j, ignoreChoice))
  {
    FormTyp(t, u);
    LoneForm(t, u, i);
    LoneForm(t, u, j);
    if EqualAt(u, i, j, ignoreChoice) {
      KeptSame(FlatT(t)[i], FlatT(t)[j], FlatT(u)[i], FlatT(u)[j], Lone(t, i) || Lone(t, j), ignoreChoice, lim, tags);
    }
  }

  lemma RunBack(t: Tree, u: Tree, i: nat, j: nat, m: nat, k: nat, lim: Limits, tags: set<nat>)
    requires Traced(t, u, k, tags) && FreshTree(t, lim, tags) && k <= i && i + m <= Size(t) && k <= j
             && j + m <= Size(t)
    ensures Size(t) == Size(u) && (RunEqual(u, i, j, m) ==> RunEqual(t, i, j, m))
  {
    hide EqualAt, Traced, FreshTree;
    TracedForm(t, u, k, tags);
    if RunEqual(u, i, j, m) {
      forall b: nat | b < m ensures EqualPair(t, i, j, b) {
        assert EqualPair(u, i, j, b);
        EqualBack(t, u, i + b, j + b, false, k, lim, tags);
      }
    }
  }

  lemma TracedForm(t: Tree, u: Tree, k: nat, tags: set<nat>)
    requires Traced(t, u, k, tags)
    ensures SameForm(t, u) && Size(t) == Size(u)
  {
    FormTyp(t, u);
  }

  lemma TreesBack(t: Tree, u: Tree, i: nat, j: nat, k: nat, lim: Limits, tags: set<nat>)
    requires Traced(t, u, k, tags) && FreshTree(t, lim, tags) && k <= i < Size(t) && k <= j < Size(t)
    ensures Size(t) == Size(u) && (TreesEqual(u, i, j) ==> TreesEqual(t, i, j))
  {
    hide RunEqual, EqualAt, FlatT, At, PathTo, Pos, InnerIndex, InnerStart, InnerCount, Traced, FreshTree;
    TracedForm(t, u, k, tags);
    InnerForm(t, u, i);
    InnerForm(t, u, j);
    if i != j && TreesEqual(u, i, j) {
      PosBound(t, PathTo(t, i));
      PosBound(t, PathTo(t, j));
      PosBound(u, PathTo(u, i));
      PosBound(u, PathTo(u, j));
      EqualBack(t, u, i, j, true, k, lim, tags);
      RunBack(t, u, i + 1, j + 1, Size(At(t, PathTo(t, i))) - 1, k, lim, tags);
    }
  }

  lemma InnersBack(t: Tree, u: Tree, i: nat, j: nat, k: nat, lim: Limits, tags: set<nat>)
    requires Traced(t, u, k, tags) && FreshTree(t, lim, tags) && k <= i < Size(t) && k <= j < Size(t)
    ensures Size(t) == Size(u) && (InnersEqual(u, i, j) ==> InnersEqual(t, i, j))
  {
    hide RunEqual, FlatT, At, PathTo, Pos, InnerIndex, InnerStart, InnerCount, Traced, FreshTree;
    TracedForm(t, u, k, tags);
    InnerForm(t, u, i);
    InnerForm(t, u, j);
    if i != j && InnersEqual(u, i, j) {
      InnerBound(t, i);
      InnerBound(t, j);
      InnerBound(u, i);
      InnerBound(u, j);
      RunBack(t, u, InnerStart(t, i), InnerStart(t, j), InnerCount(t, i), k, lim, tags);
    }
  }

  // ----- Keys and values in front -----

  /** Keys and values have nothing below them. */
  ghost predicate KeyLeaves(t: Tree) {
    forall a :: 0 <= a < Size(t) && IsKeyVal(FlatT(t)[a].data) ==> FlatT(t)[a].desc == 0
  }

  lemma FirstCells(f: seq<Tree>)
    requires forall a :: 0 <= a < SizeF(f) && IsKeyVal(FlatF(f)[a].data) ==> FlatF(f)[a].desc == 0
    ensures SizeF(f[..InnerIndex(f)]) == InnerIndex(f) <= SizeF(f)
    ensures forall a :: 0 <= a < InnerIndex(f) ==> a < SizeF(f) && IsKeyVal(FlatF(f)[a].data)
  {
    if f != [] {
      var g := f[1..];
      assert FlatF(f)[0] == FlatT(f[0])[0] == Cell(f[0].id, f[0].data, SizeF(f[0].kids));
      if IsKeyVal(f[0].data) {
        assert Size(f[0]) == 1;
        assert f[..1] == [f[0]] && [f[0]][1..] == [];
        if g != [] && IsKeyVal(g[0].data) {
          assert FlatF(f)[1] == FlatF(g)[0] == FlatT(g[0])[0] == Cell(g[0].id, g[0].data, SizeF(g[0].kids));
          assert Size(g[0]) == 1;
          assert f[..2] == [f[0], g[0]] && [f[0], g[0]][1..] == [g[0]] && [g[0]][1..] == [];
        }
      }
    }
  }

  /** The cells below a node. */
  lemma BelowCells(t: Tree, i: nat)
    requires i < Size(t)
    ensures var f := At(t, PathTo(t, i)).kids;
            i + 1 + SizeF(f) <= Size(t) && FlatT(t)[i + 1..i + 1 + SizeF(f)] == FlatF(f)
    ensures var f := At(t, PathTo(t, i)).kids; InnerStart(t, i) == i + 1 + SizeF(f[..InnerIndex(f)])
  {
    var q := PathTo(t, i);
    var f := At(t, q).kids;
    hide FlatT, FlatF, At, PathTo, Size, SizeF, InnerIndex;
    AllKids(t, q);
    RestCells(t, q, 0);
    assert f[0..] == f;
  }

  lemma FrontRange(c: seq<Cell>, s: nat, f: seq<Tree>)
    requires s + SizeF(f) <= |c| && c[s..s + SizeF(f)] == FlatF(f)
    requires forall a :: 0 <= a < |c| && IsKeyVal(c[a].data) ==> c[a].desc == 0
    ensures forall a :: s <= a < s + SizeF(f[..InnerIndex(f)]) ==> a < |c| && IsKeyVal(c[a].data)
  {
    hide FlatF, SizeF, InnerIndex, IsKeyVal;
    forall a | 0 <= a < SizeF(f) && IsKeyVal(FlatF(f)[a].data) ensures FlatF(f)[a].desc == 0 {
      SliceAt(c, s, SizeF(f), a);
    }
    FirstCells(f);
    forall a | s <= a < s + SizeF(f[..InnerIndex(f)]) ensures a < |c| && IsKeyVal(c[a].data) {
      SliceAt(c, s, SizeF(f), a - s);
    }
  }

  /** Between a node and its inner nodes are only its key and value. */
  lemma FrontCells(t: Tree, i: nat)
    requires KeyLeaves(t) && i < Size(t)
    ensures InnerStart(t, i) <= Size(t)
    ensures forall a :: i < a < InnerStart(t, i) ==> IsKeyVal(FlatT(t)[a].data)
  {
    hide FlatF, FlatT, At, PathTo, Size, SizeF, InnerIndex, InnerStart, IsKeyVal, LinkT;
    BelowCells(t, i);
    FrontRange(FlatT(t), i + 1, At(t, PathTo(t, i)).kids);
    InnerBound(t, i);
  }

  /** Where two nodes have their inner nodes, in trees of the same form. */
  ghost predicate Aligned(t: Tree, u: Tree, i: nat, j: nat, m: nat) {
    && Size(t) == Size(u) && i < Size(t) && j < Size(t) && i + 1 + m <= Size(t) && j + 1 + m <= Size(t)
    && InnerStart(t, i) == InnerStart(u, i) && InnerStart(t, j) == InnerStart(u, j)
       && InnerCount(u, i) == InnerCount(t, i)
    && i < InnerStart(t, i) && InnerStart(t, i) - i == InnerStart(t, j) - j
       && InnerStart(t, i) + InnerCount(t, i) == i + 1 + m
    && InnerStart(t, j) + InnerCount(t, i) == j + 1 + m
  }

  lemma AgainPair(t: Tree, u: Tree, i: nat, j: nat, m: nat, k: nat, tags: set<nat>)
    requires Traced(t, u, i, tags) && KeyLeaves(t) && i < j < Size(t) && k < m && Aligned(t, u, i, j, m)
    requires EqualPair(t, i + 1, j + 1, k) && RunEqual(u, InnerStart(u, i), InnerStart(u, j), InnerCount(u, i))
    ensures EqualPair(u, i + 1, j + 1, k)
  {
    hide Traced, KeyLeaves, FlatT, LinkT, At, PathTo, Pos, Size, InnerIndex, InnerStart, InnerCount, RunEqual, EqualAt;
    TracedForm(t, u, i, tags);
    if i + 1 + k < InnerStart(t, i) {
      FrontCells(t, i);
      FrontCells(t, j);
      KeptKey(t, u, i, i + 1 + k, tags);
      KeptKey(t, u, i, j + 1 + k, tags);
      EqualForth(t, u, i + 1 + k, j + 1 + k, false);
    } else {
      RunAt(u, InnerStart(u, i), InnerStart(u, j), InnerCount(u, i), k - (InnerStart(t, i) - (i + 1)));
    }
  }

  lemma TreesParted(t: Tree, i: nat, j: nat)
    requires i < j < Size(t) && TreesEqual(t, i, j)
    ensures var m := Size(At(t, PathTo(t, i))) - 1;
            && m >= 0 && i + 1 + m <= Size(t) && j + 1 + m <= Size(t) && Size(At(t, PathTo(t, j))) == m + 1
            && EqualAt(t, i, j, true) && RunEqual(t, i + 1, j + 1, m)
  {
    PosBound(t, PathTo(t, i));
    PosBound(t, PathTo(t, j));
    hide FlatT, LinkT, At, PathTo, Pos, Size, RunEqual, EqualAt;
  }

  lemma InnersParted(t: Tree, i: nat, j: nat)
    requires i < j < Size(t) && InnersEqual(t, i, j)
    ensures InnerCount(t, i) == InnerCount(t, j) && InnerStart(t, i) + InnerCount(t, i) <= Size(t)
    ensures InnerStart(t, j) + InnerCount(t, i) <= Size(t)
            && RunEqual(t, InnerStart(t, i), InnerStart(t, j), InnerCount(t, i))
  {
    InnerBound(t, i);
    InnerBound(t, j);
    hide FlatT, LinkT, At, PathTo, Pos, Size, RunEqual, InnerCount, InnerStart;
  }

  lemma AlignedNodes(t: Tree, u: Tree, i: nat, j: nat)
    requires SameForm(t, u) && i < j < Size(t) && TreesEqual(t, i, j) && Size(t) == Size(u) && InnersEqual(u, i, j)
    ensures var m := Size(At(t, PathTo(t, i))) - 1;
            && m >= 0 && Aligned(t, u, i, j, m) && RunEqual(t, i + 1, j + 1, m) && Size(At(t, PathTo(t, j))) == m + 1
            && InnerStart(u, i) + InnerCount(u, i) <= Size(u) && InnerStart(u, j) + InnerCount(u, i) <= Size(u)
            && RunEqual(u, InnerStart(u, i), InnerStart(u, j), InnerCount(u, i)) && EqualAt(t, i, j, true)
  {
    hide *;
    InnerForm(t, u, i);
    InnerForm(t, u, j);
    InnerBound(t, i);
    InnerBound(t, j);
    TreesParted(t, i, j);
    InnersParted(u, i, j);
    AlignedIs(t, u, i, j, Size(At(t, PathTo(t, i))) - 1);
  }

  lemma AlignedIs(t: Tree, u: Tree, i: nat, j: nat, m: nat)
    requires Size(t) == Size(u) && i < Size(t) && j < Size(t) && i + 1 + m <= Size(t) && j + 1 + m <= Size(t)
    requires InnerStart(t, i) == InnerStart(u, i) && InnerStart(t, j) == InnerStart(u, j)
             && InnerCount(u, i) == InnerCount(t, i)
    requires i < InnerStart(t, i) && InnerStart(t, i) + InnerCount(t, i) == i + 1 + m
    requires InnerCount(t, j) == InnerCount(t, i) && InnerStart(t, j) + InnerCount(t, j) == j + 1 + m
    ensures Aligned(t, u, i, j, m)
  {
  }

  lemma TreesJoined(t: Tree, i: nat, j: nat, m: nat)
    requires i < j < Size(t) && EqualAt(t, i, j, true) && i + 1 + m <= Size(t) && j + 1 + m <= Size(t)
             && RunEqual(t, i + 1, j + 1, m)
    requires Size(At(t, PathTo(t, i))) == m + 1 == Size(At(t, PathTo(t, j)))
    ensures TreesEqual(t, i, j)
  {
    hide FlatT, LinkT, At, PathTo, Pos, Size, RunEqual, EqualAt;
  }

  /** Nodes whose inner nodes are equal now and that were equal as a whole are so still. */
  lemma TreesAgain(t: Tree, u: Tree, i: nat, j: nat, tags: set<nat>)
    requires Traced(t, u, i, tags) && KeyLeaves(t) && i < j < Size(t) == Size(u)
    requires FlatT(t)[i] == FlatT(u)[i] && FlatT(t)[j] == FlatT(u)[j]
    requires TreesEqual(t, i, j) && InnersEqual(u, i, j)
    ensures TreesEqual(u, i, j)
  {
    hide *;
    TracedForm(t, u, i, tags);
    var m := Size(At(t, PathTo(t, i))) - 1;
    AlignedNodes(t, u, i, j);
    AlignedSizes(t, u, i, j, m);
    EqualForth(t, u, i, j, true);
    RunAgain(t, u, i, j, m, tags);
    FormIndexSize(t, u, i);
    FormIndexSize(t, u, j);
    TreesJoined(u, i, j, m);
  }

  lemma AlignedSizes(t: Tree, u: Tree, i: nat, j: nat, m: nat)
    requires Aligned(t, u, i, j, m)
    ensures Size(t) == Size(u) && i + 1 + m <= Size(t) && j + 1 + m <= Size(t)
  {
  }

  lemma FormIndexSize(t: Tree, u: Tree, i: nat)
    requires SameForm(t, u) && i < Size(t)
    ensures i < Size(u) && Size(At(t, PathTo(t, i))) == Size(At(u, PathTo(u, i)))
  {
    FormIndex(t, u, i);
    FormTyp(At(t, PathTo(t, i)), At(u, PathTo(u, i)));
  }

  lemma RunAgain(t: Tree, u: Tree, i: nat, j: nat, m: nat, tags: set<nat>)
    requires Traced(t, u, i, tags) && KeyLeaves(t) && i < j < Size(t) && Aligned(t, u, i, j, m)
    requires RunEqual(t, i + 1, j + 1, m) && RunEqual(u, InnerStart(u, i), InnerStart(u, j), InnerCount(u, i))
    ensures RunEqual(u, i + 1, j + 1, m)
  {
    hide Traced, KeyLeaves, FlatT, LinkT, InnerStart, InnerCount, EqualPair, EqualAt;
    forall k: nat {:trigger EqualPair(u, i + 1, j + 1, k)} | k < m ensures EqualPair(u, i + 1, j + 1, k) {
      assert EqualPair(t, i + 1, j + 1, k);
      AgainPair(t, u, i, j, m, k, tags);
    }
  }

  lemma RunAt(t: Tree, i: nat, j: nat, n: nat, k: nat)
    requires i + n <= Size(t) && j + n <= Size(t) && RunEqual(t, i, j, n) && k < n
    ensures EqualPair(t, i, j, k)
  {
  }

  lemma KeptKey(t: Tree, u: Tree, k: nat, a: nat, tags: set<nat>)
    requires Traced(t, u, k, tags) && k <= a < Size(t) && IsKeyVal(FlatT(t)[a].data)
    ensures a < Size(u) && FlatT(t)[a] == FlatT(u)[a]
  {
    FormTyp(t, u);
  }

  lemma EqualForth(t: Tree, u: Tree, i: nat, j: nat, ignoreChoice: bool)
    requires SameForm(t, u) && i < Size(t) == Size(u) && j < Size(t) && FlatT(t)[i] == FlatT(u)[i]
             && FlatT(t)[j] == FlatT(u)[j]
    ensures EqualAt(t, i, j, ignoreChoice) == EqualAt(u, i, j, ignoreChoice)
  {
    LoneForm(t, u, i);
    LoneForm(t, u, j);
  }

  // ----- A match in the pass is a match before it -----

  lemma AloneForm(t: Tree, u: Tree, i: nat)
    requires SameForm(t, u) && 0 < i < Size(t)
    ensures Size(t) == Size(u) && InnerAlone(t, i) == InnerAlone(u, i)
  {
    var q := PathTo(t, i);
    FormTyp(t, u);
    FormIndex(t, u, i);
    UpValid(t, q);
    UpValid(u, q);
    FormPath(t, u, Up(q));
    FormParts(At(t, Up(q)), At(u, Up(q)));
  }

  lemma PoorForm(t: Tree, u: Tree, i: nat)
    requires SameForm(t, u) && i < Size(t)
    ensures Size(t) == Size(u) && Poor(t, i) == Poor(u, i)
  {
    InnerForm(t, u, i);
  }

  lemma CandidateForm(t: Tree, u: Tree, q: Path, rules: Rules)
    requires SameForm(t, u) && q != [] && ValidPath(t, q)
    ensures ValidPath(u, q) && Candidate(t, q, rules) == Candidate(u, q, rules)
  {
    FormPath(t, u, q);
    FormParts(At(t, q), At(u, q));
    UpValid(t, q);
    UpValid(u, q);
    FormPath(t, u, Up(q));
    FormParts(At(t, Up(q)), At(u, Up(q)));
    hide Restricted, At, SameForm;
    RestrictedForm(t, u, q, rules);
  }

  /** Which of the two ways is tried. */
  predicate WholeFirst(t: Tree, i: nat, j: nat)
    requires 0 < i < Size(t) && 0 < j < Size(t)
  {
    var d := At(t, PathTo(t, j)).data;
    d.typ == List || (d.typ == Container && ((InnerAlone(t, i) && InnerAlone(t, j)) || InnerCount(t, j) == 0))
  }

  lemma MatchIs(t: Tree, i: nat, j: nat)
    requires 0 < i < Size(t) && 0 < j < Size(t)
    ensures MatchOf(t, i, j) == (if WholeFirst(t, i, j) && TreesEqual(t, i, j) then Whole
                                 else if InnerCount(t, i) != 0 && InnersEqual(t, i, j) then Inner else No)
  {
    hide At, PathTo, InnerAlone, InnerCount, TreesEqual, InnersEqual;
  }

  lemma WholeFirstForm(t: Tree, u: Tree, i: nat, j: nat)
    requires SameForm(t, u) && 0 < i < Size(t) && 0 < j < Size(t)
    ensures Size(t) == Size(u) && WholeFirst(t, i, j) == WholeFirst(u, i, j)
  {
    AloneForm(t, u, i);
    AloneForm(t, u, j);
    InnerForm(t, u, j);
    hide At, PathTo, InnerAlone, InnerCount, SameForm;
  }

  lemma MatchBack(t: Tree, u: Tree, i: nat, j: nat, lim: Limits, tags: set<nat>)
    requires Traced(t, u, i, tags) && FreshTree(t, lim, tags) && KeyLeaves(t) && 0 < i < j < Size(t) == Size(u)
    requires FlatT(t)[i] == FlatT(u)[i] && FlatT(t)[j] == FlatT(u)[j]
    ensures MatchOf(u, i, j) != No ==> MatchOf(t, i, j) == MatchOf(u, i, j)
  {
    hide *;
    TracedForm(t, u, i, tags);
    MatchIs(t, i, j);
    MatchIs(u, i, j);
    WholeFirstForm(t, u, i, j);
    InnerForm(t, u, i);
    TreesBack(t, u, i, j, i, lim, tags);
    InnersBack(t, u, i, j, i, lim, tags);
    if TreesEqual(t, i, j) && InnersEqual(u, i, j) {
      TreesAgain(t, u, i, j, tags);
    }
  }

  lemma FreshLeaves(t: Tree, lim: Limits, tags: set<nat>)
    requires FreshTree(t, lim, tags)
    ensures KeyLeaves(t)
  {
    forall a | 0 <= a < Size(t) && IsKeyVal(FlatT(t)[a].data) ensures FlatT(t)[a].desc == 0 {
      assert FreshCell(FlatT(t)[a], lim, tags);
    }
  }

  /** A node without a mark now had none before, and is the same. */
  lemma KeptPlain(t: Tree, u: Tree, k: nat, j: nat, tags: set<nat>)
    requires Traced(t, u, k, tags) && k <= j < Size(u) && At(u, PathTo(u, j)).data.ref == 0
    ensures j < Size(t) && FlatT(t)[j] == FlatT(u)[j] && PathTo(t, j) == PathTo(u, j)
    ensures At(t, PathTo(t, j)).data == At(u, PathTo(u, j)).data && At(t, PathTo(t, j)).id == At(u, PathTo(u, j)).id
  {
    TracedForm(t, u, k, tags);
    FormIndex(t, u, j);
    NodeCell(u, PathTo(u, j));
    NodeCell(t, PathTo(t, j));
  }

  /** One more mark. */
  lemma TracedSet(t: Tree, u: Tree, k: nat, j: nat, r: nat, kind: bool, tags: set<nat>)
    requires Traced(t, u, k, tags) && k <= j < Size(u) && At(u, PathTo(u, j)).data.ref == 0 && r != 0 && r !in tags
    requires !IsKeyVal(At(u, PathTo(u, j)).data)
    ensures var q := PathTo(u, j); Traced(t, SetData(u, q, Mark(At(u, q).data, r, kind)), k, tags)
  {
    var q := PathTo(u, j);
    var d := Mark(At(u, q).data, r, kind);
    var v := SetData(u, q, d);
    KeptPlain(t, u, k, j, tags);
    FormSet(u, q, d);
    FormTrans(t, u, v);
    SetDataFlat(u, q, d);
    NodeCell(u, q);
    hide At, PathTo, SetData, SameForm;
    forall a | k <= a < Size(t) && a < Size(v) ensures Kept(FlatT(t)[a], FlatT(v)[a], tags) {
      if a != j { assert Kept(FlatT(t)[a], FlatT(u)[a], tags); }
    }
  }

  /** What a round asks for before it marks a node. */
  lemma StepAsks(f: Found, i: nat, r: nat, j: nat, rules: Rules)
    requires 0 < i < j < Size(f.tree)
    ensures var s, t, q := Step(f, i, r, j, rules).0, f.tree, PathTo(f.tree, j);
            && (s.splittable && !f.splittable ==> SplitMatching(t, i, j, rules))
            && (if s.tree == t then true
                else (|| Matching(t, i, j, rules, Whole)
                      || (Matching(t, i, j, rules, Inner) && (s.splittable || !Poor(t, i)))))
            && (s.whole && !f.whole ==>
               Matching(t, i, j, rules, Whole) && s.tree == SetData(t, q, Mark(At(t, q).data, r, false)))
            && (s.inner && !f.inner ==> Matching(t, i, j, rules, Inner) && (s.splittable || !Poor(t, i)))
            && (f.splittable ==> s.splittable)
  {
    hide MatchOf, SetData, Mark, Poor, PathTo, At;
  }

  lemma MatchKey(t: Tree, i: nat, j: nat, rules: Rules, m: Match)
    requires KeyLeaves(t) && 0 < i < j < Size(t) && Matching(t, i, j, rules, m) && m != No
    ensures !IsKeyVal(At(t, PathTo(t, j)).data) && At(t, PathTo(t, j)).data.ref == 0 && MatchOf(t, i, j) == m
  {
    var q := PathTo(t, j);
    NodeCell(t, q);
    MatchCases(t, i, j);
    if MatchOf(t, i, j) == Inner {
      hide FlatT, At, PathTo;
      InnersParted(t, i, j);
      CountInner(t, j);
      SizeZero(At(t, q).kids);
    }
  }

  /** What the loop has found so far was there before the pass. */
  ghost predicate Sourced(t: Tree, f: Found, i: nat, rules: Rules, tags: set<nat>)
    requires 0 < i < Size(t)
  {
    && Traced(t, f.tree, i, tags)
    && (f.whole ==> Finds(t, i, rules, Whole)) && (f.inner ==> Finds(t, i, rules, Inner) && Rich(t, i, rules))
    && (f.splittable ==> Rich(t, i, rules))
  }

  lemma FindsAt(t: Tree, i: nat, j: nat, rules: Rules, m: Match)
    requires 0 < i < Size(t) && 0 < j < Size(t) && After(t, i, j) && Matching(t, i, j, rules, m)
    ensures Finds(t, i, rules, m)
    ensures m == Inner && rules.splittable(At(t, PathTo(t, j)).id) ==> Rich(t, i, rules)
  {
    hide After, Matching, Poor, At, PathTo;
    if m == Inner && rules.splittable(At(t, PathTo(t, j)).id) {
      assert SplitMatching(t, i, j, rules);
    }
  }

  lemma MatchingBack(t: Tree, u: Tree, i: nat, j: nat, rules: Rules, m: Match, lim: Limits, tags: set<nat>)
    requires Traced(t, u, i, tags) && FreshTree(t, lim, tags) && KeyLeaves(t) && 0 < i < j < Size(t) == Size(u)
    requires FlatT(t)[i] == FlatT(u)[i] && Matching(u, i, j, rules, m) && m != No
    ensures Matching(t, i, j, rules, m) && At(t, PathTo(t, j)).id == At(u, PathTo(u, j)).id
    ensures At(u, PathTo(u, j)).data.ref == 0 && !IsKeyVal(At(u, PathTo(u, j)).data)
  {
    MatchingIs(u, i, j, rules, m);
    hide *;
    KeptPlain(t, u, i, j, tags);
    MatchBack(t, u, i, j, lim, tags);
    MatchingThus(t, i, j, rules, m);
    MatchKey(t, i, j, rules, m);
  }

  lemma MatchingIs(t: Tree, i: nat, j: nat, rules: Rules, m: Match)
    requires 0 < i < Size(t) && 0 < j < Size(t) && Matching(t, i, j, rules, m)
    ensures var n := At(t, PathTo(t, j)); n.data.ref == 0 && rules.fit(n.id) && MatchOf(t, i, j) == m
  {
  }

  lemma MatchingThus(t: Tree, i: nat, j: nat, rules: Rules, m: Match)
    requires 0 < i < Size(t) && 0 < j < Size(t)
    requires var n := At(t, PathTo(t, j)); n.data.ref == 0 && rules.fit(n.id) && MatchOf(t, i, j) == m
    ensures Matching(t, i, j, rules, m)
  {
  }

  lemma StepSourced(f: Found, i: nat, r: nat, j: nat, rules: Rules, t: Tree, lim: Limits, tags: set<nat>)
    requires 0 < i < j < Size(f.tree) == Size(t) && After(t, i, j) && Sourced(t, f, i, rules, tags)
    requires FreshTree(t, lim, tags) && r != 0 && r !in tags && FlatT(t)[i] == FlatT(f.tree)[i]
    ensures var s := Step(f, i, r, j, rules).0;
            Sourced(t, s, i, rules, tags) && Size(s.tree) == Size(t) && FlatT(t)[i] == FlatT(s.tree)[i]
  {
    hide *;
    var s, u, q := Step(f, i, r, j, rules).0, f.tree, PathTo(f.tree, j);
    FreshLeaves(t, lim, tags);
    StepAsks(f, i, r, j, rules);
    StepTree(f, i, r, j, rules);
    SourcedParts(t, f, i, rules, tags);
    PoorForm(t, u, i) by { TracedForm(t, u, i, tags); }
    SplitIs(u, i, j, rules);
    RichPoor(t, i, rules);
    if Matching(u, i, j, rules, Whole) {
      MatchingBack(t, u, i, j, rules, Whole, lim, tags);
      FindsAt(t, i, j, rules, Whole);
    }
    if Matching(u, i, j, rules, Inner) {
      MatchingBack(t, u, i, j, rules, Inner, lim, tags);
      FindsAt(t, i, j, rules, Inner);
    }
    if s.tree != u {
      TracedSet(t, u, i, j, r, true, tags);
      TracedSet(t, u, i, j, r, false, tags);
      SetElsewhere(u, j, i, Mark(At(u, q).data, r, true));
      SetElsewhere(u, j, i, Mark(At(u, q).data, r, false));
    }
    SourcedThus(t, s, i, rules, tags);
  }

  lemma SetElsewhere(t: Tree, j: nat, i: nat, d: Data)
    requires i < Size(t) && j < Size(t) && i != j
    ensures var u := SetData(t, PathTo(t, j), d); Size(u) == Size(t) && FlatT(u)[i] == FlatT(t)[i]
  {
    SetDataFlat(t, PathTo(t, j), d);
  }

  lemma SplitIs(t: Tree, i: nat, j: nat, rules: Rules)
    requires 0 < i < Size(t) && 0 < j < Size(t)
    ensures SplitMatching(t, i, j, rules) ==>
            Matching(t, i, j, rules, Inner) && rules.splittable(At(t, PathTo(t, j)).id)
  {
    hide Matching, At, PathTo;
  }

  lemma RichPoor(t: Tree, i: nat, rules: Rules)
    requires 0 < i < Size(t)
    ensures !Poor(t, i) ==> Rich(t, i, rules)
  {
    hide Poor;
  }

  lemma SourcedParts(t: Tree, f: Found, i: nat, rules: Rules, tags: set<nat>)
    requires 0 < i < Size(t) && Sourced(t, f, i, rules, tags)
    ensures Traced(t, f.tree, i, tags)
    ensures (f.whole ==> Finds(t, i, rules, Whole)) && (f.inner ==> Finds(t, i, rules, Inner) && Rich(t, i, rules))
    ensures f.splittable ==> Rich(t, i, rules)
  {
    hide Traced, Finds, Rich;
  }

  lemma SourcedThus(t: Tree, f: Found, i: nat, rules: Rules, tags: set<nat>)
    requires 0 < i < Size(t) && Traced(t, f.tree, i, tags)
    requires (f.whole ==> Finds(t, i, rules, Whole)) && (f.inner ==> Finds(t, i, rules, Inner) && Rich(t, i, rules))
    requires f.splittable ==> Rich(t, i, rules)
    ensures Sourced(t, f, i, rules, tags)
  {
    hide Traced, Finds, Rich;
  }

  lemma {:induction false} SeekSourced(f: Found, i: nat, r: nat, j: nat, rules: Rules, t: Tree, lim: Limits,
                                       tags: set<nat>)
    requires 0 < i < j <= Size(f.tree) == Size(t) && i + Size(At(t, PathTo(t, i))) <= j && Sourced(t, f, i, rules, tags)
    requires FreshTree(t, lim, tags) && r != 0 && r !in tags && FlatT(t)[i] == FlatT(f.tree)[i]
    ensures Sourced(t, Seek(f, i, r, j, rules), i, rules, tags)
    decreases Size(f.tree) - j
  {
    hide *;
    if j == Size(f.tree) {
      SeekEnd(f, i, r, j, rules);
    } else {
      SeekNext(f, i, r, j, rules);
      AfterIs(t, i, j);
      StepSourced(f, i, r, j, rules, t, lim, tags);
      var s := Step(f, i, r, j, rules);
      SeekSourced(s.0, i, r, s.1, rules, t, lim, tags);
    }
  }

  lemma AfterIs(t: Tree, i: nat, j: nat)
    requires i < Size(t) && j < Size(t)
    ensures After(t, i, j) == (i + Size(At(t, PathTo(t, i))) <= j)
  {
  }

  // ----- The whole pass -----

  /** A class of a tree in the pass is mixed only if there was a conflict before. */
  lemma ClassUnmixed(t: Tree, u: Tree, i: nat, rules: Rules, lim: Limits, tags: set<nat>)
    requires Traced(t, u, i, tags) && FreshTree(t, lim, tags) && 0 < i < Size(t) == Size(u)
             && At(u, PathTo(u, i)).id != 0
    requires Candidate(u, PathTo(u, i), rules) && (Starts(u, i, rules) ==> Free(u, i, tags))
    requires !Conflict(t, i, rules)
    ensures var c := MarkClass(u, i, rules); !c.1 && Traced(t, c.0, i + 1, tags)
  {
    hide *;
    var p := PathTo(u, i);
    var l := At(u, p);
    ClassIs(u, i, rules);
    var f0 := Found(u, false, false, false);
    var g := Seek(f0, i, l.id, i + Size(l), rules);
    if !g.inner && !g.whole {
      SeekNone(f0, i, l.id, i + Size(l), rules);
      TracedLater(t, u, i, tags);
    } else {
      FreeKept(t, u, i, tags);
      TracedForm(t, u, i, tags);
      FormIndexSize(t, u, i);
      FormIndex(t, u, i);
      SourcedThus(t, f0, i, rules, tags);
      SeekSourced(f0, i, l.id, i + Size(l), rules, t, lim, tags);
      SourcedParts(t, g, i, rules, tags);
      CandidateForm(u, t, p, rules) by { FormBack(t, u); }
      if g.inner && g.whole { ConflictThus(t, i, rules); }
      TracedForm(t, g.tree, i, tags);
      TracedLead(t, g.tree, i, p, Mark(l.data, l.id, g.inner), tags)
        by { FormIndex(t, g.tree, i); FormTyps(t, u, g.tree, i); MarkTyp(l.data, l.id, g.inner); }
    }
  }

  lemma FormTyps(t: Tree, u: Tree, v: Tree, i: nat)
    requires SameForm(t, u) && SameForm(t, v) && i < Size(t)
    ensures Size(t) == Size(u) == Size(v) && At(u, PathTo(u, i)).data.typ == At(v, PathTo(v, i)).data.typ
  {
    FormTyp(t, u);
    FormTyp(t, v);
    FormIndex(t, u, i);
    FormIndex(t, v, i);
    FormTyp(At(t, PathTo(t, i)), At(u, PathTo(u, i)));
    FormTyp(At(t, PathTo(t, i)), At(v, PathTo(v, i)));
  }

  lemma ConflictThus(t: Tree, i: nat, rules: Rules)
    requires 0 < i < Size(t)
    requires Candidate(t, PathTo(t, i), rules) && Finds(t, i, rules, Whole) && Finds(t, i, rules, Inner)
             && Rich(t, i, rules)
    ensures Conflict(t, i, rules)
  {
  }

  lemma FreeKept(t: Tree, u: Tree, i: nat, tags: set<nat>)
    requires Traced(t, u, i, tags) && i < Size(t) == Size(u) && Free(u, i, tags)
    ensures FlatT(t)[i] == FlatT(u)[i] && At(u, PathTo(u, i)).id !in tags
  {
    UntagFlatT(u, tags);
    NodeCell(u, PathTo(u, i));
    assert Kept(FlatT(t)[i], FlatT(u)[i], tags);
  }

  lemma TracedLater(t: Tree, u: Tree, i: nat, tags: set<nat>)
    requires Traced(t, u, i, tags)
    ensures forall k :: k >= i ==> Traced(t, u, k, tags)
  {
  }

  lemma TracedLead(t: Tree, u: Tree, i: nat, p: Path, d: Data, tags: set<nat>)
    requires Traced(t, u, i, tags) && i < Size(u) && p == PathTo(u, i) && d.typ == At(u, p).data.typ
    ensures Traced(t, SetData(u, p, d), i + 1, tags)
  {
    var v := SetData(u, p, d);
    TracedForm(t, u, i, tags);
    FormSet(u, p, d);
    FormTrans(t, u, v);
    SetDataFlat(u, p, d);
    hide SetData, SameForm;
    forall a | i + 1 <= a < Size(t) && a < Size(v) ensures Kept(FlatT(t)[a], FlatT(v)[a], tags) {
      assert Kept(FlatT(t)[a], FlatT(u)[a], tags);
    }
  }

  ghost predicate Numbered(t: Tree) {
    forall a :: 0 < a < Size(t) ==> FlatT(t)[a].id != 0
  }

  lemma NumberedNode(t: Tree, u: Tree, i: nat)
    requires Numbered(t) && SameForm(t, u) && 0 < i < Size(u)
    ensures Size(t) == Size(u) && At(u, PathTo(u, i)).id != 0
  {
    FormTyp(t, u);
    NodeCell(u, PathTo(u, i));
    assert SameSpot(FlatT(t)[i], FlatT(u)[i]);
  }

  lemma {:induction false} MarkUnmixed(t: Tree, u: Tree, i: nat, rules: Rules, lim: Limits, tags: set<nat>)
    requires Traced(t, u, i, tags) && FreshTree(t, lim, tags) && Numbered(t) && 0 < i <= Size(u)
    requires Clean(u, i, rules, tags) && Unmixed(t, rules)
    ensures !MarkFrom(u, i, rules).1
    decreases Size(u) - i
  {
    hide Traced, FreshTree, Numbered, Unmixed, MarkClass, Candidate, At, PathTo, Pos, FlatT, SameForm, Starts, Free,
         BelowRec, Conflict;
    TracedForm(t, u, i, tags);
    if i < Size(u) {
      var q := PathTo(u, i);
      PosBound(u, q);
      TracedLater(t, u, i, tags);
      if At(u, q).data.ref != 0 && !BelowRec(u, q) {
        MarkUnmixed(t, u, i + Size(At(u, q)), rules, lim, tags);
      } else if !Candidate(u, q, rules) {
        MarkUnmixed(t, u, i + 1, rules, lim, tags);
      } else {
        NumberedNode(t, u, i);
        UnmixedAt(t, i, rules);
        ClassUnmixed(t, u, i, rules, lim, tags);
        MarkUnmixed(t, MarkClass(u, i, rules).0, i + 1, rules, lim, tags);
      }
    }
  }

  lemma UnmixedAt(t: Tree, i: nat, rules: Rules)
    requires Unmixed(t, rules) && 0 < i < Size(t)
    ensures !Conflict(t, i, rules)
  {
  }

  lemma TracedSelf(t: Tree, tags: set<nat>)
    ensures forall k :: Traced(t, t, k, tags)
  {
    FormSelf(t);
  }

  lemma UnmarkedParts(t: Tree, lim: Limits, tags: set<nat>, rules: Rules)
    requires Unmarked(t, lim, tags, rules)
    ensures FreshTree(t, lim, tags) && Numbered(t) && KeyLeaves(t)
  {
    hide FreshCell, Keyed, Guarded;
    FreshLeaves(t, lim, tags);
  }

  /** If no node equals some later nodes as a whole and shares only inner nodes with others, the meaning stays. */
  lemma UnmixedKeepsMeaning(t: Tree, lim: Limits, tags: set<nat>, rules: Rules)
    requires Unmarked(t, lim, tags, rules) && Clean(t, 1, rules, tags) && Unmixed(t, rules)
    ensures var r := MarkFrom(t, 1, rules).0;
            WellMarked(Untag(r, tags), lim.ids, lim.refs) && Meaning(Untag(r, tags)) == Meaning(Untag(t, tags))
  {
    hide *;
    UnmarkedParts(t, lim, tags, rules);
    TracedSelf(t, tags);
    MarkUnmixed(t, t, 1, rules, lim, tags);
    MarkingKeepsMeaning(t, lim, tags, rules);
  }

  /** Without recursive lenses a class never starts at or below a later node of another one. */
  lemma PlainClean(t: Tree, lim: Limits, rules: Rules)
    requires Unmarked(t, lim, {}, rules) && NoRec(t)
    ensures Clean(t, 1, rules, {})
  {
    hide *;
    UnmarkedSound(t, lim, {}, rules);
    UntagNoneT(t);
    UnmarkedGuard(t, lim, {}, rules);
    CleanWithoutRec(t, 1, rules, lim);
  }

  lemma UnmarkedGuard(t: Tree, lim: Limits, tags: set<nat>, rules: Rules)
    requires Unmarked(t, lim, tags, rules)
    ensures Guarded(t, rules, lim.refs)
  {
    hide FreshCell, Keyed, Guarded;
  }

  /** There the pass keeps the meaning exactly if no class is mixed, and so if there is no conflict. */
  lemma PlainKeepsMeaning(t: Tree, lim: Limits, rules: Rules)
    requires Unmarked(t, lim, {}, rules) && NoRec(t)
    ensures var r := MarkFrom(t, 1, rules);
            && WellMarked(r.0, lim.ids, lim.refs) && (Meaning(r.0) == Meaning(t) <==> !r.1)
               && (Unmixed(t, rules) ==> !r.1)
  {
    hide *;
    PlainClean(t, lim, rules);
    MarkingKeepsMeaning(t, lim, {}, rules);
    UntagNoneT(t);
    UntagNoneT(MarkFrom(t, 1, rules).0);
    if Unmixed(t, rules) {
      UnmarkedParts(t, lim, {}, rules);
      TracedSelf(t, {});
      MarkUnmixed(t, t, 1, rules, lim, {});
    }
  }
}
