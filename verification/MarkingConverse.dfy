/** When the marking pass loses meaning, told from the tree before the pass. */
module MarkingConverse {
  import opened YNodes
  import opened RoseTree
  import opened TreeLinks
  import opened TreeEdits
  import opened Expansion
  import opened Conversion
  import opened ConversionFacts
  import opened Groupings
  import opened GroupingSteps
  import opened GroupingRest
  import opened GroupingEdits
  import opened SameContent
  import opened MarkingMeaning
  import opened MarkingSteps
  import opened TreeForms
  import opened Marking
  import opened MarkingMatches
  import opened MarkingRun
  import opened MarkingConditions

  // ----- Nodes that match the same node are not nested -----

  lemma {:induction false} SimilarSizes(f: seq<Tree>, g: seq<Tree>)
    requires SimilarF(f, g)
    ensures SizeF(f) == SizeF(g)
    decreases SizeF(f), 1
  {
    if f != [] {
      SimilarSize(f[0], g[0]);
      SimilarSizes(f[1..], g[1..]);
    }
  }

  lemma {:induction false} SimilarSize(a: Tree, b: Tree)
    requires Similar(a, b)
    ensures Size(a) == Size(b)
    decreases Size(a), 0
  {
    SimilarSizes(a.kids, b.kids);
  }

  /** Equal nodes have as much below their keys. */
  lemma WholeCount(t: Tree, i: nat, j: nat)
    requires i < j < Size(t) && TreesEqual(t, i, j)
    ensures InnerCount(t, i) == InnerCount(t, j) && Size(At(t, PathTo(t, i))) == Size(At(t, PathTo(t, j)))
  {
    TreesSimilar(t, i, j);
    TreesParted(t, i, j);
    var l, m := At(t, PathTo(t, i)).kids, At(t, PathTo(t, j)).kids;
    hide TreesEqual, At, PathTo, SimilarF, Size, FlatT;
    SimilarInner(l, m);
    SimilarSlices(l, m, InnerIndex(l));
    SimilarSizes(l[InnerIndex(l)..], m[InnerIndex(l)..]);
  }

  lemma MatchCount(t: Tree, i: nat, j: nat)
    requires 0 < i < j < Size(t) && MatchOf(t, i, j) != No
    ensures InnerCount(t, i) == InnerCount(t, j)
    ensures InnerCount(t, i) == 0 ==> Size(At(t, PathTo(t, i))) == Size(At(t, PathTo(t, j)))
  {
    hide *;
    MatchIs(t, i, j);
    if MatchOf(t, i, j) == Whole {
      WholeCount(t, i, j);
    } else {
      InnersParted(t, i, j);
    }
  }

  /** Below a node there is less than it has itself. */
  lemma Deeper(t: Tree, i: nat, j: nat)
    requires KeyLeaves(t) && i < j < Size(t) && j < i + Size(At(t, PathTo(t, i))) && !IsKeyVal(At(t, PathTo(t, j)).data)
    ensures InnerCount(t, j) < InnerCount(t, i) && Size(At(t, PathTo(t, j))) < Size(At(t, PathTo(t, i)))
  {
    hide *;
    NodeSize(t, i);
    NodeSize(t, j);
    Nested(t, i, j);
    InnerBound(t, i);
    InnerBound(t, j);
    FrontCells(t, i);
  }

  lemma NodeSize(t: Tree, i: nat)
    requires i < Size(t)
    ensures var n := At(t, PathTo(t, i)); FlatT(t)[i] == Cell(n.id, n.data, Size(n) - 1) && Size(n) >= 1
  {
    NodeCell(t, PathTo(t, i));
  }

  lemma NotNested(t: Tree, i: nat, a: nat, b: nat, rules: Rules, x: Match, y: Match)
    requires KeyLeaves(t) && 0 < i < a < b < Size(t) && x != No && y != No
    requires Matching(t, i, a, rules, x) && Matching(t, i, b, rules, y)
    ensures a + Size(At(t, PathTo(t, a))) <= b
  {
    hide *;
    MatchKey(t, i, a, rules, x);
    MatchKey(t, i, b, rules, y);
    MatchCount(t, i, a);
    MatchCount(t, i, b);
    if b < a + Size(At(t, PathTo(t, a))) {
      Deeper(t, a, b);
    }
  }

  // ----- The same cells, the same matches -----

  /** From index `a` on, for `m` cells. */
  ghost predicate SameRange(t: Tree, u: Tree, a: nat, m: nat) {
    Size(t) == Size(u) && a + m <= Size(t) && forall k :: a <= k < a + m ==> FlatT(t)[k] == FlatT(u)[k]
  }

  lemma RangeRun(t: Tree, u: Tree, i: nat, j: nat, a: nat, b: nat, m: nat, n: nat)
    requires SameForm(t, u) && SameRange(t, u, a, n) && SameRange(t, u, b, n)
    requires a <= i && i + m <= a + n && b <= j && j + m <= b + n
    ensures RunEqual(t, i, j, m) == RunEqual(u, i, j, m)
  {
    hide EqualAt, FlatT;
    forall k: nat | k < m ensures EqualPair(t, i, j, k) == EqualPair(u, i, j, k) {
      EqualForth(t, u, i + k, j + k, false);
    }
  }

  /** Equality as a whole in other words. */
  lemma TreesEqualIs(t: Tree, i: nat, j: nat)
    requires i < j < Size(t)
    ensures var m := Size(At(t, PathTo(t, i))) - 1;
            && m >= 0 && i + 1 + m <= Size(t) && j + Size(At(t, PathTo(t, j))) <= Size(t)
            && (TreesEqual(t, i, j) ==
                (Size(At(t, PathTo(t, j))) == m + 1 && EqualAt(t, i, j, true) && RunEqual(t, i + 1, j + 1, m)))
  {
    PosBound(t, PathTo(t, i));
    PosBound(t, PathTo(t, j));
    hide FlatT, LinkT, At, PathTo, Pos, Size, RunEqual, EqualAt;
  }

  lemma InnersEqualIs(t: Tree, i: nat, j: nat)
    requires i < j < Size(t)
    ensures InnerStart(t, i) + InnerCount(t, i) == i + Size(At(t, PathTo(t, i))) <= Size(t) && i < InnerStart(t, i)
    ensures InnerStart(t, j) + InnerCount(t, j) == j + Size(At(t, PathTo(t, j))) <= Size(t) && j < InnerStart(t, j)
    ensures InnersEqual(t, i, j) == (InnerCount(t, i) != 0 && InnerCount(t, i) == InnerCount(t, j)
                                     && RunEqual(t, InnerStart(t, i), InnerStart(t, j), InnerCount(t, i)))
  {
    InnerBound(t, i);
    InnerBound(t, j);
    hide FlatT, LinkT, At, PathTo, Pos, Size, RunEqual, InnerCount, InnerStart;
  }

  lemma WholeSame(t: Tree, u: Tree, i: nat, j: nat)
    requires SameForm(t, u) && i < j < Size(t)
    requires SameRange(t, u, i, Size(At(t, PathTo(t, i)))) && SameRange(t, u, j, Size(At(t, PathTo(t, j))))
    ensures j < Size(u) && TreesEqual(t, i, j) == TreesEqual(u, i, j)
  {
    hide *;
    InnerForm(t, u, i);
    InnerForm(t, u, j);
    TreesEqualIs(t, i, j);
    TreesEqualIs(u, i, j);
    var m := Size(At(t, PathTo(t, i))) - 1;
    if Size(At(t, PathTo(t, j))) == m + 1 {
      RangeFirst(t, u, i, m + 1);
      RangeFirst(t, u, j, m + 1);
      EqualForth(t, u, i, j, true);
      RangeRun(t, u, i + 1, j + 1, i, j, m, m + 1);
    }
  }

  lemma RangeFirst(t: Tree, u: Tree, a: nat, m: nat)
    requires SameRange(t, u, a, m) && m > 0
    ensures Size(t) == Size(u) && a < Size(t) && FlatT(t)[a] == FlatT(u)[a]
  {
  }

  lemma InnersSame(t: Tree, u: Tree, i: nat, j: nat)
    requires SameForm(t, u) && i < j < Size(t)
    requires SameRange(t, u, i, Size(At(t, PathTo(t, i)))) && SameRange(t, u, j, Size(At(t, PathTo(t, j))))
    ensures j < Size(u) && InnersEqual(t, i, j) == InnersEqual(u, i, j)
  {
    hide *;
    InnerForm(t, u, i);
    InnerForm(t, u, j);
    InnersEqualIs(t, i, j);
    InnersEqualIs(u, i, j);
    var m := InnerCount(t, i);
    if m == InnerCount(t, j) {
      RangePart(t, u, i, Size(At(t, PathTo(t, i))), InnerStart(t, i), m);
      RangePart(t, u, j, Size(At(t, PathTo(t, j))), InnerStart(t, j), m);
      RangeRun(t, u, InnerStart(t, i), InnerStart(t, j), InnerStart(t, i), InnerStart(t, j), m, m);
    }
  }

  lemma RangePart(t: Tree, u: Tree, a: nat, m: nat, b: nat, n: nat)
    requires SameRange(t, u, a, m) && a <= b && b + n <= a + m
    ensures SameRange(t, u, b, n)
  {
  }

  /** Nodes of which no cell has changed match as before. */
  lemma MatchSame(t: Tree, u: Tree, i: nat, j: nat)
    requires SameForm(t, u) && 0 < i < j < Size(t)
    requires SameRange(t, u, i, Size(At(t, PathTo(t, i)))) && SameRange(t, u, j, Size(At(t, PathTo(t, j))))
    ensures j < Size(u) && MatchOf(t, i, j) == MatchOf(u, i, j)
  {
    hide *;
    WholeSame(t, u, i, j);
    InnersSame(t, u, i, j);
    WholeFirstForm(t, u, i, j);
    InnerForm(t, u, i);
    MatchIs(t, i, j);
    MatchIs(u, i, j);
  }

  lemma MatchingSame(t: Tree, u: Tree, i: nat, j: nat, rules: Rules, m: Match)
    requires SameForm(t, u) && 0 < i < j < Size(t)
    requires SameRange(t, u, i, Size(At(t, PathTo(t, i)))) && SameRange(t, u, j, Size(At(t, PathTo(t, j))))
    ensures j < Size(u) && Matching(t, i, j, rules, m) == Matching(u, i, j, rules, m)
    ensures PathTo(t, j) == PathTo(u, j) && At(t, PathTo(t, j)).id == At(u, PathTo(u, j)).id
    ensures At(t, PathTo(t, j)).data == At(u, PathTo(u, j)).data
            && Size(At(t, PathTo(t, j))) == Size(At(u, PathTo(u, j)))
  {
    MatchSame(t, u, i, j);
    hide SameForm, SameRange, MatchOf, Size, At, PathTo, FlatT;
    InnerForm(t, u, j);
    NodeSize(t, j);
    NodeSize(u, j);
    RangeFirst(t, u, j, Size(At(t, PathTo(t, j))));
  }

  // ----- The search finds every match it can reach -----

  /** Nothing between index `p` and the node at `j`, and above that node, has a mark. */
  ghost predicate Reached(t: Tree, p: nat, j: nat) {
    forall a: nat :: p <= a < j < Size(t) && j < a + Size(At(t, PathTo(t, a))) ==> At(t, PathTo(t, a)).data.ref == 0
  }

  lemma ReachedAt(t: Tree, p: nat, j: nat, a: nat)
    requires Reached(t, p, j) && p <= a < j < Size(t) && j < a + Size(At(t, PathTo(t, a)))
    ensures At(t, PathTo(t, a)).data.ref == 0
  {
  }

  lemma ReachedLater(t: Tree, p: nat, j: nat, k: nat)
    requires Reached(t, p, j) && p <= k
    ensures Reached(t, k, j)
  {
  }

  lemma StepFinds(f: Found, i: nat, r: nat, j: nat, rules: Rules, m: Match)
    requires 0 < i < j < Size(f.tree) && Matching(f.tree, i, j, rules, m)
    ensures var s := Step(f, i, r, j, rules).0;
            && (m == Whole ==> s.whole)
            && (m == Inner && (f.splittable || rules.splittable(At(f.tree, PathTo(f.tree, j)).id) || !Poor(f.tree, i))
                ==> s.inner)
  {
    hide MatchOf, SetData, Mark, Poor, PathTo, At;
  }

  /** How far a round goes. */
  lemma StepGoes(f: Found, i: nat, r: nat, j: nat, rules: Rules)
    requires 0 < i < j < Size(f.tree)
    ensures var s, t, n := Step(f, i, r, j, rules), f.tree, At(f.tree, PathTo(f.tree, j));
            || s.1 == j + 1
            || (s.1 == j + Size(n)
               && (n.data.ref != 0 || Matching(t, i, j, rules, Whole) || Matching(t, i, j, rules, Inner)))
    ensures f.splittable ==> Step(f, i, r, j, rules).0.splittable
  {
    hide MatchOf, SetData, Mark, Poor, PathTo, At;
  }

  lemma RangeStep(t: Tree, u: Tree, v: Tree, j: nat, d: Data, a: nat, m: nat)
    requires SameRange(t, u, a, m) && j < Size(u) && (j < a || a + m <= j)
    requires v == u || v == SetData(u, PathTo(u, j), d)
    ensures SameRange(t, v, a, m)
  {
    SetDataFlat(u, PathTo(u, j), d);
  }

  lemma RangeShift(t: Tree, u: Tree, a: nat, b: nat)
    requires a <= b <= Size(t) && SameRange(t, u, a, Size(t) - a)
    ensures SameRange(t, u, b, Size(t) - b)
  {
  }

  lemma RangeNode(t: Tree, u: Tree, a: nat, j: nat)
    requires a <= j < Size(t) && SameRange(t, u, a, Size(t) - a)
    ensures SameRange(t, u, j, Size(At(t, PathTo(t, j))))
  {
    PosBound(t, PathTo(t, j));
  }

  /** The tree `u` is the tree `t` of the start of the search, with marks on nodes before index `p`. */
  ghost predicate Begun(t: Tree, u: Tree, i: nat, p: nat) {
    && Size(t) == Size(u) && SameForm(t, u) && i < Size(t) && i + Size(At(t, PathTo(t, i))) <= p <= Size(t)
    && SameRange(t, u, i, Size(At(t, PathTo(t, i)))) && SameRange(t, u, p, Size(t) - p)
  }

  lemma BegunParts(t: Tree, u: Tree, i: nat, p: nat)
    requires Begun(t, u, i, p)
    ensures Size(t) == Size(u) && SameForm(t, u) && i < Size(t) && i + Size(At(t, PathTo(t, i))) <= p <= Size(t)
    ensures SameRange(t, u, i, Size(At(t, PathTo(t, i)))) && SameRange(t, u, p, Size(t) - p)
  {
  }

  lemma BegunNext(f: Found, i: nat, r: nat, p: nat, rules: Rules, t: Tree)
    requires Begun(t, f.tree, i, p) && 0 < i < p < Size(t)
    ensures Size(t) == Size(f.tree) && Begun(t, Step(f, i, r, p, rules).0.tree, i, Step(f, i, r, p, rules).1)
  {
    hide *;
    BegunParts(t, f.tree, i, p);
    var s := Step(f, i, r, p, rules);
    var m := At(f.tree, PathTo(f.tree, p)).data;
    StepTree(f, i, r, p, rules);
    FormSet(f.tree, PathTo(f.tree, p), Mark(m, r, true)) by { MarkTyp(m, r, true); }
    FormSet(f.tree, PathTo(f.tree, p), Mark(m, r, false)) by { MarkTyp(m, r, false); }
    if s.0.tree != f.tree { FormTrans(t, f.tree, s.0.tree); }
    var kind := s.0.tree == SetData(f.tree, PathTo(f.tree, p), Mark(m, r, true));
    RangeShift(t, f.tree, p, s.1);
    RangeStep(t, f.tree, s.0.tree, p, Mark(m, r, kind), i, Size(At(t, PathTo(t, i))));
    RangeStep(t, f.tree, s.0.tree, p, Mark(m, r, kind), s.1, Size(t) - s.1);
    BegunThus(t, s.0.tree, i, s.1);
  }

  lemma BegunThus(t: Tree, u: Tree, i: nat, p: nat)
    requires Size(t) == Size(u) && SameForm(t, u) && i < Size(t) && i + Size(At(t, PathTo(t, i))) <= p <= Size(t)
    requires SameRange(t, u, i, Size(At(t, PathTo(t, i)))) && SameRange(t, u, p, Size(t) - p)
    ensures Begun(t, u, i, p)
  {
  }

  /** A round does not jump over a match. */
  lemma NoJump(f: Found, i: nat, r: nat, p: nat, rules: Rules, t: Tree, j: nat, m: Match)
    requires Begun(t, f.tree, i, p) && 0 < i < p < j < Size(t) == Size(f.tree) && KeyLeaves(t)
    requires Matching(t, i, j, rules, m) && m != No && Reached(t, p, j)
    ensures Step(f, i, r, p, rules).1 <= j
  {
    hide *;
    var u := f.tree;
    BegunParts(t, u, i, p);
    RangeNode(t, u, p, p);
    StepGoes(f, i, r, p, rules);
    MatchingSame(t, u, i, p, rules, Whole);
    MatchingSame(t, u, i, p, rules, Inner);
    if Matching(t, i, p, rules, Whole) { NotNested(t, i, p, j, rules, Whole, m); }
    if Matching(t, i, p, rules, Inner) { NotNested(t, i, p, j, rules, Inner, m); }
    if At(t, PathTo(t, p)).data.ref != 0 && j < p + Size(At(t, PathTo(t, p))) { ReachedAt(t, p, j, p); }
  }

  lemma {:induction false} SeekFinds(f: Found, i: nat, r: nat, p: nat, rules: Rules, t: Tree, j: nat, m: Match)
    requires Begun(t, f.tree, i, p) && 0 < i < p <= j < Size(t) == Size(f.tree) && KeyLeaves(t)
    requires Matching(t, i, j, rules, m) && m != No && Reached(t, p, j)
    ensures var g := Seek(f, i, r, p, rules);
            && (m == Whole ==> g.whole)
            && (m == Inner && (f.splittable || rules.splittable(At(t, PathTo(t, j)).id) || !Poor(t, i)) ==> g.inner)
    decreases Size(t) - p
  {
    hide *;
    var s := Step(f, i, r, p, rules);
    SeekNext(f, i, r, p, rules);
    BegunNext(f, i, r, p, rules, t);
    BegunParts(t, f.tree, i, p);
    if p == j {
      RangeNode(t, f.tree, p, j);
      MatchingSame(t, f.tree, i, j, rules, m);
      PoorForm(t, f.tree, i);
      StepFinds(f, i, r, j, rules, m);
      SeekGrows(s.0, i, r, s.1, rules);
    } else {
      NoJump(f, i, r, p, rules, t, j, m);
      StepGoes(f, i, r, p, rules);
      ReachedLater(t, p, j, s.1);
      SeekFinds(s.0, i, r, s.1, rules, t, j, m);
    }
  }

  lemma ClassFinds(t: Tree, i: nat, rules: Rules, j: nat, m: Match)
    requires 0 < i < j < Size(t) && KeyLeaves(t) && After(t, i, j) && Matching(t, i, j, rules, m) && m != No
    requires Reached(t, i + Size(At(t, PathTo(t, i))), j)
    ensures var g := ClassSeek(t, i, rules);
            && (m == Whole ==> g.whole)
            && (m == Inner && (rules.splittable(At(t, PathTo(t, j)).id) || !Poor(t, i)) ==> g.inner)
  {
    hide *;
    ClassSeekIs(t, i, rules);
    AfterIs(t, i, j);
    var l := At(t, PathTo(t, i));
    FormSelf(t);
    SelfRange(t, i, Size(l));
    SelfRange(t, i + Size(l), Size(t) - (i + Size(l)));
    BegunThus(t, t, i, i + Size(l));
    SeekFinds(Found(t, false, false, false), i, l.id, i + Size(l), rules, t, j, m);
  }

  lemma SelfRange(t: Tree, a: nat, m: nat)
    requires a + m <= Size(t)
    ensures SameRange(t, t, a, m)
  {
  }

  // ----- What earlier classes have taken -----

  predicate Takes(t: Tree, h: nat, a: nat, rules: Rules)
    requires 0 < h < Size(t)
  {
    && Candidate(t, PathTo(t, h), rules) && After(t, h, a)
    && (Matching(t, h, a, rules, Whole) || Matching(t, h, a, rules, Inner))
  }

  /** The node at index `a` matches a node before index `b` that may be the first of a class. */
  ghost predicate Claimed(t: Tree, a: nat, b: nat, rules: Rules) {
    exists h: nat :: 0 < h < b && h < Size(t) && Takes(t, h, a, rules)
  }

  /** Neither node is in the other. */
  predicate Disjoint(t: Tree, a: nat, b: nat)
    requires a < Size(t) && b < Size(t)
  {
    a + Size(At(t, PathTo(t, a))) <= b || b + Size(At(t, PathTo(t, b))) <= a
  }

  /** No earlier class can take a node of the class at index `i`, nor one above or below. */
  ghost predicate Apart(t: Tree, i: nat, rules: Rules)
    requires 0 < i < Size(t)
  {
    forall a: nat :: a < Size(t) && Claimed(t, a, i, rules) ==>
      Disjoint(t, a, i) && forall j: nat :: j < Size(t) && Takes(t, i, j, rules) ==> Disjoint(t, a, j)
  }

  /** From index `k` on, only what was claimed before index `b` has changed. */
  ghost predicate Origin(t: Tree, u: Tree, k: nat, b: nat, rules: Rules) {
    Size(t) == Size(u) && forall a: nat :: k <= a < Size(t) && FlatT(u)[a] != FlatT(t)[a] ==> Claimed(t, a, b, rules)
  }

  lemma OriginLater(t: Tree, u: Tree, k: nat, b: nat, rules: Rules, k': nat, b': nat)
    requires Origin(t, u, k, b, rules) && k <= k' && b <= b'
    ensures Origin(t, u, k', b', rules)
  {
    hide Takes, FlatT;
    forall a: nat | k' <= a < Size(t) && FlatT(u)[a] != FlatT(t)[a] ensures Claimed(t, a, b', rules) {
      ClaimedLater(t, a, b, b', rules);
    }
  }

  lemma ClaimedLater(t: Tree, a: nat, b: nat, b': nat, rules: Rules)
    requires Claimed(t, a, b, rules) && b <= b'
    ensures Claimed(t, a, b', rules)
  {
    hide Takes;
  }

  lemma ClaimedBy(t: Tree, h: nat, a: nat, rules: Rules)
    requires 0 < h < Size(t) && Takes(t, h, a, rules)
    ensures Claimed(t, a, h + 1, rules)
  {
    hide Takes;
  }

  lemma TakesThus(t: Tree, h: nat, a: nat, rules: Rules, m: Match)
    requires 0 < h < Size(t) && Candidate(t, PathTo(t, h), rules) && After(t, h, a) && Matching(t, h, a, rules, m)
             && m != No
    ensures Takes(t, h, a, rules) && h < a < Size(t)
  {
    hide Candidate, Matching, At, PathTo;
  }

  lemma OriginSet(t: Tree, u: Tree, k: nat, b: nat, rules: Rules, j: nat, d: Data)
    requires Origin(t, u, k, b, rules) && j < Size(u) && (Claimed(t, j, b, rules) || j < k)
    ensures Origin(t, SetData(u, PathTo(u, j), d), k, b, rules)
  {
    hide Claimed;
    SetDataFlat(u, PathTo(u, j), d);
  }

  lemma StepOrigin(f: Found, i: nat, r: nat, j: nat, rules: Rules, t: Tree, lim: Limits, tags: set<nat>)
    requires 0 < i < j < Size(f.tree) == Size(t) && After(t, i, j) && Sourced(t, f, i, rules, tags)
    requires FreshTree(t, lim, tags) && FlatT(t)[i] == FlatT(f.tree)[i]
    requires Candidate(t, PathTo(t, i), rules) && Origin(t, f.tree, i + 1, i + 1, rules)
    ensures Origin(t, Step(f, i, r, j, rules).0.tree, i + 1, i + 1, rules)
  {
    hide *;
    var s, u, q := Step(f, i, r, j, rules).0, f.tree, PathTo(f.tree, j);
    FreshLeaves(t, lim, tags);
    SourcedParts(t, f, i, rules, tags);
    StepAsks(f, i, r, j, rules);
    StepTree(f, i, r, j, rules);
    if s.tree != u {
      var m := if Matching(u, i, j, rules, Whole) then Whole else Inner;
      MatchingBack(t, u, i, j, rules, m, lim, tags);
      TakesThus(t, i, j, rules, m);
      ClaimedBy(t, i, j, rules);
      OriginSet(t, u, i + 1, i + 1, rules, j, Mark(At(u, q).data, r, true));
      OriginSet(t, u, i + 1, i + 1, rules, j, Mark(At(u, q).data, r, false));
    }
  }

  lemma {:induction false} SeekOrigin(f: Found, i: nat, r: nat, j: nat, rules: Rules, t: Tree, lim: Limits,
                                      tags: set<nat>)
    requires 0 < i < j <= Size(f.tree) == Size(t) && i + Size(At(t, PathTo(t, i))) <= j && Sourced(t, f, i, rules, tags)
    requires FreshTree(t, lim, tags) && r != 0 && r !in tags && FlatT(t)[i] == FlatT(f.tree)[i]
    requires Candidate(t, PathTo(t, i), rules) && Origin(t, f.tree, i + 1, i + 1, rules)
    ensures Origin(t, Seek(f, i, r, j, rules).tree, i + 1, i + 1, rules)
    decreases Size(f.tree) - j
  {
    hide *;
    if j == Size(f.tree) {
      SeekEnd(f, i, r, j, rules);
    } else {
      SeekNext(f, i, r, j, rules);
      AfterIs(t, i, j);
      StepSourced(f, i, r, j, rules, t, lim, tags);
      StepOrigin(f, i, r, j, rules, t, lim, tags);
      var s := Step(f, i, r, j, rules);
      SeekOrigin(s.0, i, r, s.1, rules, t, lim, tags);
    }
  }

  /** A class changes only nodes that match its first node. */
  lemma ClassOrigin(t: Tree, u: Tree, i: nat, rules: Rules, lim: Limits, tags: set<nat>)
    requires Traced(t, u, i, tags) && FreshTree(t, lim, tags) && 0 < i < Size(t) == Size(u)
             && At(u, PathTo(u, i)).id != 0
    requires Candidate(u, PathTo(u, i), rules) && (Starts(u, i, rules) ==> Free(u, i, tags))
             && Origin(t, u, i, i, rules)
    ensures var c := MarkClass(u, i, rules).0; Traced(t, c, i + 1, tags) && Origin(t, c, i + 1, i + 1, rules)
  {
    hide *;
    var p := PathTo(u, i);
    var l := At(u, p);
    ClassIs(u, i, rules);
    OriginLater(t, u, i, i, rules, i + 1, i + 1);
    var f0 := Found(u, false, false, false);
    var g := Seek(f0, i, l.id, i + Size(l), rules);
    if !g.inner && !g.whole {
      SeekNone(f0, i, l.id, i + Size(l), rules);
      TracedLater(t, u, i, tags);
    } else {
      FreeKept(t, u, i, tags);
      TracedForm(t, u, i, tags);
      FormIndexSize(t, u, i);
      FormIndex(t, u, i);
      SourcedThus(t, f0, i, rules, tags);
      CandidateForm(u, t, p, rules) by { FormBack(t, u); }
      SeekSourced(f0, i, l.id, i + Size(l), rules, t, lim, tags);
      SeekOrigin(f0, i, l.id, i + Size(l), rules, t, lim, tags);
      SourcedParts(t, g, i, rules, tags);
      TracedForm(t, g.tree, i, tags);
      FormIndex(t, g.tree, i);
      OriginSet(t, g.tree, i + 1, i + 1, rules, i, Mark(l.data, l.id, g.inner));
      TracedLead(t, g.tree, i, p, Mark(l.data, l.id, g.inner), tags)
        by { FormTyps(t, u, g.tree, i); MarkTyp(l.data, l.id, g.inner); }
    }
  }

  // ----- The whole pass -----

  ghost predicate NoRefs(t: Tree) {
    forall a :: 0 <= a < Size(t) ==> FlatT(t)[a].data.ref == 0
  }

  /** A node with a mark was claimed. */
  lemma MarkedClaimed(t: Tree, u: Tree, k: nat, b: nat, rules: Rules, a: nat)
    requires Origin(t, u, k, b, rules) && NoRefs(t) && k <= a < Size(u) && At(u, PathTo(u, a)).data.ref != 0
    ensures Claimed(t, a, b, rules)
  {
    NodeCell(u, PathTo(u, a));
  }

  lemma ApartFrom(t: Tree, i: nat, rules: Rules, a: nat)
    requires 0 < i < Size(t) && Apart(t, i, rules) && a < Size(t) && Claimed(t, a, i, rules)
    ensures Disjoint(t, a, i) && forall j: nat :: j < Size(t) && Takes(t, i, j, rules) ==> Disjoint(t, a, j)
  {
  }

  lemma DisjointIs(t: Tree, a: nat, b: nat)
    requires a < Size(t) && b < Size(t) && Disjoint(t, a, b)
    ensures a + Size(At(t, PathTo(t, a))) <= b || b + Size(At(t, PathTo(t, b))) <= a
    ensures Size(At(t, PathTo(t, a))) >= 1 && Size(At(t, PathTo(t, b))) >= 1 && a != b
  {
    PosBound(t, PathTo(t, a));
    PosBound(t, PathTo(t, b));
  }

  /** What stands in a node that claimed nodes are disjoint from has not changed. */
  lemma UntouchedRange(t: Tree, u: Tree, i: nat, rules: Rules, j: nat)
    requires Origin(t, u, i, i, rules) && i <= j < Size(t)
    requires forall a: nat :: a < Size(t) && Claimed(t, a, i, rules) ==> Disjoint(t, a, j)
    ensures SameRange(t, u, j, Size(At(t, PathTo(t, j))))
  {
    hide Claimed, Disjoint, At, PathTo, FlatT;
    var m := Size(At(t, PathTo(t, j)));
    PosBound(t, PathTo(t, j));
    forall k: nat | j <= k < j + m ensures FlatT(t)[k] == FlatT(u)[k] {
      if FlatT(t)[k] != FlatT(u)[k] {
        assert Claimed(t, k, i, rules);
        DisjointIs(t, k, j);
      }
    }
  }

  lemma UntouchedReach(t: Tree, u: Tree, i: nat, rules: Rules, j: nat, p: nat)
    requires Origin(t, u, i, i, rules) && SameForm(t, u) && NoRefs(t) && i <= p && j < Size(t)
    requires forall a: nat :: a < Size(t) && Claimed(t, a, i, rules) ==> Disjoint(t, a, j)
    ensures Reached(u, p, j)
  {
    hide Claimed, Disjoint, At, PathTo, FlatT, SameForm;
    forall a: nat | p <= a < j < Size(u) && j < a + Size(At(u, PathTo(u, a)))
      ensures At(u, PathTo(u, a)).data.ref == 0
    {
      if At(u, PathTo(u, a)).data.ref != 0 {
        MarkedClaimed(t, u, i, i, rules, a);
        DisjointIs(t, a, j);
        FormIndexSize(t, u, a);
      }
    }
  }

  lemma LeavesForm(t: Tree, u: Tree)
    requires SameForm(t, u) && KeyLeaves(t)
    ensures KeyLeaves(u)
  {
    FormTyp(t, u);
    forall a | 0 <= a < Size(u) && IsKeyVal(FlatT(u)[a].data) ensures FlatT(u)[a].desc == 0 {
      assert SameSpot(FlatT(t)[a], FlatT(u)[a]);
    }
  }

  /** A match of an untouched class is found. */
  lemma UntouchedFound(t: Tree, u: Tree, i: nat, rules: Rules, j: nat, m: Match)
    requires Origin(t, u, i, i, rules) && SameForm(t, u) && NoRefs(t) && KeyLeaves(t) && 0 < i < Size(t)
             && Apart(t, i, rules)
    requires Candidate(t, PathTo(t, i), rules) && After(t, i, j) && Matching(t, i, j, rules, m) && m != No
    ensures i < Size(u)
    ensures var g := ClassSeek(u, i, rules);
            && (m == Whole ==> g.whole)
            && (m == Inner && (rules.splittable(At(t, PathTo(t, j)).id) || !Poor(t, i)) ==> g.inner)
  {
    hide *;
    TakesThus(t, i, j, rules, m);
    FormTyp(t, u);
    forall a: nat | a < Size(t) && Claimed(t, a, i, rules) ensures Disjoint(t, a, i) && Disjoint(t, a, j) {
      ApartFrom(t, i, rules, a);
    }
    UntouchedRange(t, u, i, rules, i);
    UntouchedRange(t, u, i, rules, j);
    FormIndexSize(t, u, i);
    MatchingSame(t, u, i, j, rules, m);
    LeavesForm(t, u);
    AfterIs(t, i, j);
    AfterIs(u, i, j);
    UntouchedReach(t, u, i, rules, j, i + Size(At(u, PathTo(u, i)))) by { NodeSize(u, i); }
    PoorForm(t, u, i);
    ClassFinds(u, i, rules, j, m);
  }

  lemma ConflictFound(t: Tree, u: Tree, i: nat, rules: Rules)
    requires Origin(t, u, i, i, rules) && SameForm(t, u) && NoRefs(t) && KeyLeaves(t) && 0 < i < Size(t)
             && Apart(t, i, rules)
    requires Conflict(t, i, rules)
    ensures i < Size(u) && MarkClass(u, i, rules).1 && Candidate(u, PathTo(u, i), rules)
  {
    hide *;
    var j, k := ConflictNodes(t, i, rules);
    FormIndex(t, u, i);
    CandidateForm(t, u, PathTo(t, i), rules);
    UntouchedFound(t, u, i, rules, j, Whole);
    UntouchedFound(t, u, i, rules, k, Inner);
    ClassIs(u, i, rules);
  }

  lemma ConflictNodes(t: Tree, i: nat, rules: Rules) returns (j: nat, k: nat)
    requires 0 < i < Size(t) && Conflict(t, i, rules)
    ensures Candidate(t, PathTo(t, i), rules) && After(t, i, j) && After(t, i, k) && i < j < Size(t) && i < k < Size(t)
    ensures Matching(t, i, j, rules, Whole) && Matching(t, i, k, rules, Inner)
    ensures rules.splittable(At(t, PathTo(t, k)).id) || !Poor(t, i)
  {
    hide Candidate, Matching, Poor, At, PathTo;
    j :| After(t, i, j) && Matching(t, i, j, rules, Whole);
    if Poor(t, i) {
      k :| After(t, i, k) && SplitMatching(t, i, k, rules);
    } else {
      k :| After(t, i, k) && Matching(t, i, k, rules, Inner);
    }
  }

  lemma {:induction false} RunMixed(t: Tree, u: Tree, p: nat, i: nat, rules: Rules, lim: Limits)
    requires Traced(t, u, p, {}) && Origin(t, u, p, p, rules) && 0 < p <= i < Size(t) == Size(u)
             && Clean(u, p, rules, {})
    requires FreshTree(t, lim, {}) && Numbered(t) && NoRec(t) && NoRefs(t) && Conflict(t, i, rules)
             && Apart(t, i, rules)
    ensures MarkFrom(u, p, rules).1
    decreases i - p
  {
    hide Traced, Origin, FreshTree, Numbered, NoRec, NoRefs, Conflict, Apart, MarkClass, Candidate, At, PathTo, Pos,
         FlatT, SameForm,
      Starts, Free, BelowRec, Claimed, Disjoint;
    TracedForm(t, u, p, {});
    NoRecForm(t, u);
    var q := PathTo(u, p);
    NotBelowRec(u, q);
    PosBound(u, q);
    TracedLater(t, u, p, {});
    if At(u, q).data.ref != 0 {
      MarkedClaimed(t, u, p, p, rules, p);
      ClaimedLater(t, p, p, i, rules);
      ApartFrom(t, i, rules, p);
      DisjointIs(t, p, i);
      FormIndexSize(t, u, p);
      OriginLater(t, u, p, p, rules, p + Size(At(u, q)), p + Size(At(u, q)));
      RunMixed(t, u, p + Size(At(u, q)), i, rules, lim);
    } else if p == i {
      FreshLeaves(t, lim, {});
      ConflictFound(t, u, i, rules);
    } else if !Candidate(u, q, rules) {
      OriginLater(t, u, p, p, rules, p + 1, p + 1);
      RunMixed(t, u, p + 1, i, rules, lim);
    } else {
      NumberedNode(t, u, p);
      ClassOrigin(t, u, p, rules, lim, {});
      RunMixed(t, MarkClass(u, p, rules).0, p + 1, i, rules, lim);
    }
  }

  /** A conflict that no earlier class can take apart makes the pass lose meaning. */
  lemma ConflictLosesMeaning(t: Tree, lim: Limits, rules: Rules, i: nat)
    requires Unmarked(t, lim, {}, rules) && NoRec(t) && NoRefs(t) && 0 < i < Size(t)
    requires Conflict(t, i, rules) && Apart(t, i, rules)
    ensures var r := MarkFrom(t, 1, rules); r.1 && Meaning(r.0) != Meaning(t)
  {
    hide *;
    UnmarkedParts(t, lim, {}, rules);
    PlainClean(t, lim, rules);
    TracedSelf(t, {});
    OriginSelf(t, rules);
    RunMixed(t, t, 1, i, rules, lim);
    PlainKeepsMeaning(t, lim, rules);
  }

  lemma OriginSelf(t: Tree, rules: Rules)
    ensures Origin(t, t, 1, 1, rules)
  {
  }
}
