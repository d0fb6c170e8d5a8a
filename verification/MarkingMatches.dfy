/** What it means for the content of two nodes that the pass finds them equal. */
module MarkingMatches {
  import opened YNodes
  import opened RoseTree
  import opened TreeLinks
  import opened TreeEdits
  import opened Expansion
  import opened Conversion
  import opened ConversionFacts
  import opened Groupings
  import opened GroupingSteps
  import opened GroupingRest
  import opened GroupingEdits
  import opened SameContent
  import opened MarkingMeaning
  import opened MarkingSteps
  import opened TreeForms
  import opened Marking

  // ----- From node equality to equal content -----

  lemma SubtreeCells(t: Tree, q: Path)
    requires ValidPath(t, q)
    ensures Pos(t, q) + Size(At(t, q)) <= Size(t)
    ensures FlatT(t)[Pos(t, q)..Pos(t, q) + Size(At(t, q))] == FlatT(At(t, q))
  {
    if q == [] {
      assert FlatT(t)[0..Size(t)] == FlatT(t);
    } else {
      HeadRange(t, q);
    }
  }

  /** Subtrees are nested intervals. */
  lemma Nested(t: Tree, i: nat, j: nat)
    requires i < Size(t) && j < Size(t) && i <= j <= i + FlatT(t)[i].desc
    ensures j + FlatT(t)[j].desc <= i + FlatT(t)[i].desc
  {
    var p := PathTo(t, i);
    var s := At(t, p);
    NodeCell(t, p);
    SubtreeCells(t, p);
    var q := PathTo(s, j - i);
    NodeCell(s, q);
    PosBound(s, q);
    assert FlatT(t)[i..i + Size(s)][j - i] == FlatT(t)[j];
  }

  lemma SameNodeData(x: Cell, y: Cell, lone: bool, ignoreChoice: bool)
    requires SameNode(x, y, lone, ignoreChoice)
    ensures x.desc == y.desc && SameData(x.data, y.data)
  {
    var a, b := x.data, y.data;
    var mask := if ignoreChoice then CMP_MASK - {ChoiceMandFalse} else CMP_MASK;
    assert forall f :: f in KEPT_FLAGS ==> f in mask;
    assert forall f :: f in mask ==> (f in a.flags <==> f in a.flags * mask) && (f in b.flags <==> f in b.flags * mask);
    assert a.flags * KEPT_FLAGS == b.flags * KEPT_FLAGS;
    assert GroupingChildren in mask;
  }

  lemma SliceAt<T>(c: seq<T>, s: nat, m: nat, k: nat)
    requires s + m <= |c| && k < m
    ensures c[s..s + m][k] == c[s + k]
  {
  }

  lemma RunCells(t: Tree, s1: nat, s2: nat, m: nat)
    requires s1 + m <= Size(t) && s2 + m <= Size(t) && RunEqual(t, s1, s2, m)
    ensures SameCells(FlatT(t)[s1..s1 + m], FlatT(t)[s2..s2 + m])
  {
    var c := FlatT(t);
    var x, y := c[s1..s1 + m], c[s2..s2 + m];
    forall a: nat | a < m ensures x[a].desc == y[a].desc && SameData(x[a].data, y[a].data) {
      SliceAt(c, s1, m, a);
      SliceAt(c, s2, m, a);
      assert EqualPair(t, s1, s2, a);
      SameNodeData(c[s1 + a], c[s2 + a], Lone(t, s1 + a) || Lone(t, s2 + a), false);
    }
  }

  /** The cells of the children from `k` on. */
  lemma RestCells(t: Tree, q: Path, k: nat)
    requires ValidPath(t, q) && k <= |At(t, q).kids|
    ensures var f, s := At(t, q).kids[k..], RangeStart(t, q, k);
            && Pos(t, q) < s && s + SizeF(f) == Pos(t, q) + Size(At(t, q)) <= Size(t)
            && FlatT(t)[s..s + SizeF(f)] == FlatF(f)
  {
    var f := At(t, q).kids;
    AllKids(t, q);
    RangeCells(t, q, 0, k);
    RangeCells(t, q, k, |f|);
    assert f[k..|f|] == f[k..];
  }

  lemma RunSimilar(t: Tree, p: Path, k: nat, q: Path, m: nat)
    requires ValidPath(t, p) && ValidPath(t, q) && k <= |At(t, p).kids| && m <= |At(t, q).kids|
    requires SizeF(At(t, p).kids[k..]) == SizeF(At(t, q).kids[m..])
    requires var z := SizeF(At(t, p).kids[k..]);
             && RangeStart(t, p, k) + z <= Size(t) && RangeStart(t, q, m) + z <= Size(t)
             && RunEqual(t, RangeStart(t, p, k), RangeStart(t, q, m), z)
    ensures SimilarF(At(t, p).kids[k..], At(t, q).kids[m..])
  {
    hide FlatT, FlatF, RunEqual, SameCells, RangeStart;
    RestCells(t, p, k);
    RestCells(t, q, m);
    RunCells(t, RangeStart(t, p, k), RangeStart(t, q, m), SizeF(At(t, p).kids[k..]));
    CellsSimilarF(At(t, p).kids[k..], At(t, q).kids[m..]);
  }

  /** Whole trees that match. */
  lemma TreesSimilar(t: Tree, i: nat, j: nat)
    requires i < j < Size(t) && TreesEqual(t, i, j)
    ensures var l, m := At(t, PathTo(t, i)), At(t, PathTo(t, j));
            SimilarF(l.kids, m.kids) && PayloadOf(l.data) == PayloadOf(m.data)
  {
    var p, q := PathTo(t, i), PathTo(t, j);
    var l, m := At(t, p), At(t, q);
    TreesParts(t, i, j);
    hide FlatT, FlatF, Size, SizeF, At, PathTo, Pos, RunEqual, SimilarF, RangeStart, TreesEqual;
    assert l.kids[0..] == l.kids && m.kids[0..] == m.kids;
    RunSimilar(t, p, 0, q, 0);
  }

  lemma TreesParts(t: Tree, i: nat, j: nat)
    requires i < j < Size(t) && TreesEqual(t, i, j)
    ensures var p, q := PathTo(t, i), PathTo(t, j);
            var l, m := At(t, p), At(t, q);
            && PayloadOf(l.data) == PayloadOf(m.data) && SizeF(l.kids) == SizeF(m.kids)
            && RangeStart(t, p, 0) + SizeF(l.kids) <= Size(t) && RangeStart(t, q, 0) + SizeF(m.kids) <= Size(t)
            && RunEqual(t, RangeStart(t, p, 0), RangeStart(t, q, 0), SizeF(l.kids))
  {
    hide FlatF, At, PathTo, Pos, RunEqual, SimilarF, RangeStart, SameNode, Lone, LinkT;
    var p, q := PathTo(t, i), PathTo(t, j);
    PosBound(t, p);
    PosBound(t, q);
    NodeCell(t, p);
    NodeCell(t, q);
    SameNodeData(FlatT(t)[i], FlatT(t)[j], Lone(t, i) || Lone(t, j), true);
    AllKids(t, p);
    AllKids(t, q);
  }

  /** Inner nodes that match. */
  lemma InnersSimilar(t: Tree, i: nat, j: nat)
    requires i < j < Size(t) && InnersEqual(t, i, j)
    ensures var l, m := At(t, PathTo(t, i)), At(t, PathTo(t, j));
            SimilarF(l.kids[InnerIndex(l.kids)..], m.kids[InnerIndex(m.kids)..])
            && InnerIndex(l.kids) < |l.kids| && InnerIndex(m.kids) < |m.kids|
  {
    var p, q := PathTo(t, i), PathTo(t, j);
    var l, m := At(t, p), At(t, q);
    InnerBound(t, i);
    InnerBound(t, j);
    assert l.kids[|l.kids|..] == [] && m.kids[|m.kids|..] == [];
    RunSimilar(t, p, InnerIndex(l.kids), q, InnerIndex(m.kids));
  }

  // ----- Trees of the same form -----

  /** Both trees link their nodes in the same way. */
  lemma LoneForm(t: Tree, u: Tree, i: nat)
    requires SameForm(t, u) && i < Size(t)
    ensures Size(t) == Size(u) && Lone(t, i) == Lone(u, i)
  {
    FormTyp(t, u);
    FormLinksT(t, u, 0, NULL, NULL);
  }

  lemma InnerForm(t: Tree, u: Tree, i: nat)
    requires SameForm(t, u) && i < Size(t)
    ensures Size(t) == Size(u) && InnerCount(t, i) == InnerCount(u, i) && InnerStart(t, i) == InnerStart(u, i)
    ensures var q := PathTo(t, i);
            && PathTo(u, i) == q && InnerIndex(At(t, q).kids) == InnerIndex(At(u, q).kids)
               && |At(t, q).kids| == |At(u, q).kids|
            && At(t, q).id == At(u, q).id && At(t, q).data.typ == At(u, q).data.typ && Size(At(t, q)) == Size(At(u, q))
  {
    FormTyp(t, u);
    FormIndex(t, u, i);
    var q := PathTo(t, i);
    var a, b := At(t, q), At(u, q);
    FormParts(a, b);
    FormSlices(a.kids, b.kids, InnerIndex(a.kids));
  }

  lemma MatchCases(t: Tree, i: nat, j: nat)
    requires 0 < i < Size(t) && 0 < j < Size(t)
    ensures MatchOf(t, i, j) == Whole ==> TreesEqual(t, i, j) && !IsKeyVal(At(t, PathTo(t, j)).data)
    ensures MatchOf(t, i, j) == Inner ==> InnersEqual(t, i, j) && InnerCount(t, i) != 0
  {
  }

  // ----- Trees without the numbers of the other pass -----

  lemma UntagSame(x: Cell, y: Cell, lone: bool, ignoreChoice: bool, tags: set<nat>)
    requires SameNode(x, y, lone, ignoreChoice)
    ensures SameNode(UntagCell(x, tags), UntagCell(y, tags), lone, ignoreChoice)
  {
  }

  lemma EqualUntag(t: Tree, i: nat, j: nat, ignoreChoice: bool, tags: set<nat>)
    requires i < Size(t) && j < Size(t) && EqualAt(t, i, j, ignoreChoice)
    ensures Size(Untag(t, tags)) == Size(t) && EqualAt(Untag(t, tags), i, j, ignoreChoice)
  {
    UntagForm(t, tags);
    UntagFlatT(t, tags);
    LoneForm(t, Untag(t, tags), i);
    LoneForm(t, Untag(t, tags), j);
    UntagSame(FlatT(t)[i], FlatT(t)[j], Lone(t, i) || Lone(t, j), ignoreChoice, tags);
  }

  lemma RunUntag(t: Tree, i: nat, j: nat, m: nat, tags: set<nat>)
    requires i + m <= Size(t) && j + m <= Size(t) && RunEqual(t, i, j, m)
    ensures Size(Untag(t, tags)) == Size(t) && RunEqual(Untag(t, tags), i, j, m)
  {
    hide EqualAt;
    UntagForm(t, tags);
    FormTyp(t, Untag(t, tags));
    forall k: nat | k < m ensures EqualPair(Untag(t, tags), i, j, k) {
      assert EqualPair(t, i, j, k);
      EqualUntag(t, i + k, j + k, false, tags);
    }
  }

  lemma TreesUntag(t: Tree, i: nat, j: nat, tags: set<nat>)
    requires i < Size(t) && j < Size(t) && TreesEqual(t, i, j)
    ensures Size(Untag(t, tags)) == Size(t) && TreesEqual(Untag(t, tags), i, j)
  {
    hide RunEqual, EqualAt, FlatT, At, PathTo, Pos, InnerIndex, InnerStart, InnerCount;
    var u := Untag(t, tags);
    UntagForm(t, tags);
    InnerForm(t, u, i);
    InnerForm(t, u, j);
    if i != j {
      PosBound(t, PathTo(t, i));
      PosBound(t, PathTo(t, j));
      PosBound(u, PathTo(u, i));
      PosBound(u, PathTo(u, j));
      EqualUntag(t, i, j, true, tags);
      RunUntag(t, i + 1, j + 1, Size(At(t, PathTo(t, i))) - 1, tags);
    }
  }

  lemma InnersUntag(t: Tree, i: nat, j: nat, tags: set<nat>)
    requires i < Size(t) && j < Size(t) && InnersEqual(t, i, j)
    ensures Size(Untag(t, tags)) == Size(t) && InnersEqual(Untag(t, tags), i, j)
  {
    hide RunEqual, FlatT, At, PathTo, Pos, InnerIndex, InnerStart, InnerCount;
    var u := Untag(t, tags);
    UntagForm(t, tags);
    InnerForm(t, u, i);
    InnerForm(t, u, j);
    if i != j {
      InnerBound(t, i);
      InnerBound(t, j);
      InnerBound(u, i);
      InnerBound(u, j);
      RunUntag(t, InnerStart(t, i), InnerStart(t, j), InnerCount(t, i), tags);
    }
  }
}
