/** Every merge makes progress, and no sequence of merges is endless. */
module CaseSteps {
  import opened YNodes
  import opened RoseTree
  import opened CaseMerging
  import opened CaseCounts
  import opened CaseMerges
  import opened CaseRuns

  // ----- What becomes of two branches -----

  /** No node is made up, and unless nodes are dropped every label stays. */
  ghost predicate Kept(t: Tree, u: Tree, lost: bool) {
    && (forall q :: Among(u, q) <= Among(t, q))
    && (!lost ==> forall l :: Among(t, Labelled(l)) > 0 ==> Among(u, Labelled(l)) > 0)
  }

  /** The same for two branches that become one. */
  ghost predicate BothKept(r: Tree, a: Tree, b: Tree, lost: bool) {
    && (forall q :: Among(r, q) <= Among(a, q) + Among(b, q))
    && (!lost ==> forall l :: Among(a, Labelled(l)) + Among(b, Labelled(l)) > 0 ==> Among(r, Labelled(l)) > 0)
  }

  lemma FirstAmong(a: Tree, q: Query)
    requires Sound(a)
    ensures Among(a, q) >= Bit(Answers(q, First(a)))
  {
    FirstSound(a);
    CountNode(First(a));
    if IsCase(a) {
      CaseParts(a, First(a), Rest(a));
    }
    hide Sound, Answers, Among, AmongF;
  }

  /** The part of equality that labels need. */
  ghost predicate SameShapes(f: seq<Tree>, g: seq<Tree>) {
    |f| == |g| && forall i :: 0 <= i < |f| ==>
      f[i].data.typ == g[i].data.typ && f[i].data.labelLens == g[i].data.labelLens && KidsEqual(f[i].kids, g[i].kids)
  }

  lemma ShapesAre(f: seq<Tree>, g: seq<Tree>)
    requires KidsEqual(f, g) || RootsEqual(f, g)
    ensures SameShapes(f, g)
  {
  }

  lemma {:induction false} ShapeLabels(f: seq<Tree>, g: seq<Tree>, l: Lens)
    requires SameShapes(f, g)
    ensures AmongF(f, Labelled(l)) == AmongF(g, Labelled(l))
    decreases f
  {
    if f != [] {
      ShapesAre(f[0].kids, g[0].kids);
      ShapeLabels(f[0].kids, g[0].kids, l);
      CountNode(f[0]);
      CountNode(g[0]);
      ShapeLabels(f[1..], g[1..], l);
    }
  }

  lemma EqualLabels(f: seq<Tree>, g: seq<Tree>)
    requires KidsEqual(f, g) || RootsEqual(f, g)
    ensures forall l :: AmongF(f, Labelled(l)) == AmongF(g, Labelled(l))
  {
    ShapesAre(f, g);
    forall l ensures AmongF(f, Labelled(l)) == AmongF(g, Labelled(l)) { ShapeLabels(f, g, l); }
  }

  lemma ValuedRedone(a: Tree, b: Tree)
    requires Sound(a) && Sound(b)
    ensures var r := Valued(a, b);
            && Sound(r) && IsCase(r) == IsCase(a) && Plain(r) == Plain(a) && forall q :: Among(r, q) == Among(a, q)
  {
    FirstSound(a);
    FirstSound(b);
    var x, r := First(a), Valued(a, b);
    assert Redone(x, Revalued(x, First(b)));
    RedoneSame(x, Revalued(x, First(b)));
    hide Sound, First, Rest, Revalued, Plain, Among;
    if IsCase(a) {
      CaseParts(a, x, Rest(a));
      CaseParts(r, r.kids[0], Rest(a));
    }
  }

  lemma ValuedCounts(a: Tree, b: Tree)
    requires Matching(a, b) && SameBut(a, b)
    ensures var r := Valued(a, b);
            && Sound(r) && Plain(r) < Plain(a) + Plain(b)
            && BothKept(r, a, b, false)
  {
    MatchingIs(a, b);
    ValuedRedone(a, b);
    SomePlain(b);
    FirstSound(a);
    FirstSound(b);
    var x, y := First(a), First(b);
    EqualLabels(x.kids, y.kids);
    EqualLabels(Rest(a), Rest(b));
    CountNode(x);
    CountNode(y);
    SoundNode(x);
    SoundNode(y);
    if IsCase(a) {
      CaseParts(a, x, Rest(a));
      CaseParts(b, y, Rest(b));
    }
    hide Sound, First, Rest, Valued, Plain, Among, AmongF, PlainF, KidsEqual, RootsEqual, SameBut, Matching;
    forall l ensures Among(a, Labelled(l)) == Among(b, Labelled(l)) {
      assert Answers(Labelled(l), x) == Answers(Labelled(l), y);
    }
  }

  lemma RepeatedCounts(a: Tree, b: Tree)
    requires Matching(a, b) && Repeats(a, b)
    ensures var r := Repeated(a, b);
            && Sound(r) && Plain(r) < Plain(a) + Plain(b)
            && BothKept(r, a, b, false)
  {
    CountNode(a);
    CountNode(b);
    CountNode(Repeated(a, b));
    CountNone();
    hide Plain, Among, AmongF, PlainF;
  }

  /** Nodes go, or come to lie below others, or both branches begin with a case and become tighter. */
  ghost predicate Gains(r: Tree, a: Tree, b: Tree) {
    || Plain(r) < Plain(a) + Plain(b)
    || (Plain(r) == Plain(a) + Plain(b) && (Under(r) > Under(a) + Under(b) || Tighter(r, a, b)))
  }

  lemma MergedKeeps(a: Tree, b: Tree, n: nat)
    requires Matching(a, b) && !Fails(a, b)
    ensures var r := MergeBranches(a, b, n);
            && Sound(r) && Gains(r, a, b) && BothKept(r, a, b, Loses(a, b))
  {
    var r, y, l := MergeBranches(a, b, n), First(b), Loses(a, b);
    MatchingIs(a, b);
    FirstSound(a);
    MergeCounts(a, b, n);
    MergedIs(r, a, b, l);
    SumIs(r, a, b, y, l);
    SoundNode(First(a));
    hide Sound, First, Rest, Loses, MergeBranches, Fails, Merged, Sum, Plain, Among, Tighter, Matching;
    forall q ensures Among(r, q) <= Among(a, q) + Among(b, q) {
      assert if l then Among(r, q) + Bit(Answers(q, y)) <= Among(a, q) + Among(b, q)
             else Among(r, q) + Bit(Answers(q, y)) == Among(a, q) + Among(b, q);
    }
    if !l {
      forall lens | Among(a, Labelled(lens)) + Among(b, Labelled(lens)) > 0 ensures Among(r, Labelled(lens)) > 0 {
        var q := Labelled(lens);
        assert Among(r, q) + Bit(Answers(q, y)) == Among(a, q) + Among(b, q);
        FirstAmong(a, q);
        FirstAmong(b, q);
        assert Answers(q, y) ==> Answers(q, First(a));
      }
    }
  }

  lemma UnionCounts(a: Tree, b: Tree, n: nat)
    requires Matching(a, b) && !Blocked(a, b)
    ensures var r := Union(a, b, n);
            && Sound(r) && Gains(r, a, b) && BothKept(r, a, b, Drop(a, b))
  {
    hide Sound, Plain, Under, Among, Tighter, Repeats, SameBut, MergeBranches, Loses, BothKept, Valued, Repeated, Fails;
    MatchingIs(a, b);
    if Repeats(a, b) {
      RepeatedCounts(a, b);
    } else if SameBut(a, b) {
      ValuedCounts(a, b);
    } else {
      MergedKeeps(a, b, n);
    }
  }

  // ----- The second branch goes -----

  lemma FusedParts(f: seq<Tree>, i: nat, j: nat, r: Tree) returns (m: seq<Tree>)
    requires i < j < |f|
    ensures RedoneF(f[i + 1..j], m) && Fused(f, i, j, r) == f[..i] + [r] + m + f[j + 1..]
    ensures f == f[..i] + [f[i]] + f[i + 1..j] + [f[j]] + f[j + 1..]
    ensures Fused(f, i, j, r)[0] == if i > 0 then f[0] else r
  {
    var stray := if IsCase(r) && !IsCase(f[i]) then {ChoiceMandFalse} else {};
    StylesRedone(f[i + 1..j], stray, None, None);
    m := FlagAt(f[i + 1..j], stray);
  }

  lemma FusedCounts(f: seq<Tree>, i: nat, j: nat, r: Tree)
    requires i < j < |f|
    ensures var g := Fused(f, i, j, r);
            && PlainF(g) + Plain(f[i]) + Plain(f[j]) == PlainF(f) + Plain(r)
            && UnderF(g) + Under(f[i]) + Under(f[j]) == UnderF(f) + Under(r)
            && NestedF(g) + Nested(f[i]) + Nested(f[j]) == NestedF(f) + Nested(r)
            && DepthF(g) + Depth(f[i]) + Depth(f[j]) == DepthF(f) + Depth(r)
            && (forall q :: AmongF(g, q) + Among(f[i], q) + Among(f[j], q) == AmongF(f, q) + Among(r, q))
            && (forall q :: AmongF(g, q) >= Among(r, q))
            && (SoundF(f) && Sound(r) ==> SoundF(g))
  {
    var m := FusedParts(f, i, j, r);
    hide PlainF, UnderF, NestedF, DepthF, AmongF, Plain, Under, Nested, Depth, Among, Sound, SoundF, Fused,
         RedoneF, Head;
    var x, y, z := f[..i], f[i + 1..j], f[j + 1..];
    RedoneSameF(y, m);
    MiddleCounts(x + [r], m, z);
    CountConcat(x, [r]);
    MiddleCounts(x + [f[i]] + y, [f[j]], z);
    MiddleCounts(x, [f[i]], y);
    CountOne(r);
    CountOne(f[i]);
    CountOne(f[j]);
    if SoundF(f) && Sound(r) {
      SoundSplit(f, i);
      SoundSplit(f, j + 1);
      SoundSplit(f, j);
      SoundSplit(f[..j], i + 1);
      assert f[..j][i + 1..] == y;
      SoundOne(r);
      SoundConcat(x, [r]);
      SoundConcat(x + [r], m);
      SoundConcat(x + [r] + m, z);
    }
  }

  /** The step before a lone branch is freed. */
  lemma FusedBetter(t: Tree, i: nat, j: nat, n: nat)
    requires SoundF(t.kids) && Partners(t.kids, i, j) && !Blocked(t.kids[i], t.kids[j])
    ensures var u := t.(kids := Fused(t.kids, i, j, Union(t.kids[i], t.kids[j], n)));
            SoundF(u.kids) && Better(t, u) && Kept(t, u, Drop(t.kids[i], t.kids[j]))
  {
    hide Sound, SoundF, Plain, Under, Among, Nested, Depth, Chain, PlainF, UnderF, AmongF, NestedF, DepthF, Head;
    hide Blocked, Union, Drop, Fused, Matching, Answers;
    SoundKids(t, i);
    SoundKids(t, j);
    var f, a, b := t.kids, t.kids[i], t.kids[j];
    UnionCounts(a, b, n);
    var r := Union(a, b, n);
    var g := Fused(f, i, j, r);
    var u := t.(kids := g);
    FusedCounts(f, i, j, r);
    var m := FusedParts(f, i, j, r);
    HeadIs(f);
    HeadIs(g);
    CountNode(t);
    CountNode(u);
    forall q ensures Answers(q, u) == Answers(q, t) { AnswersData(q, t, u); }
    FusedKept(t, u, a, b, r, Drop(a, b));
  }

  lemma FusedKept(t: Tree, u: Tree, a: Tree, b: Tree, r: Tree, lost: bool)
    requires BothKept(r, a, b, lost) && forall q :: Among(u, q) + Among(a, q) + Among(b, q) == Among(t, q) + Among(r, q)
    requires forall q :: Among(u, q) >= Among(r, q)
    ensures Kept(t, u, lost)
  {
    hide Among;
    forall q ensures Among(u, q) <= Among(t, q) {
      assert Among(r, q) <= Among(a, q) + Among(b, q);
    }
    if !lost {
      forall l | Among(t, Labelled(l)) > 0 ensures Among(u, Labelled(l)) > 0 {
        assert Among(u, Labelled(l)) >= Among(r, Labelled(l));
      }
    }
  }

  lemma AnswersData(q: Query, t: Tree, u: Tree)
    requires t.id == u.id && t.data == u.data
    ensures Answers(q, t) == Answers(q, u)
  {
  }

  // ----- Branches alone in their choice -----

  lemma ReleasedSame(t: Tree)
    requires Sound(t) && IsCase(t)
    ensures RedoneF(t.kids, Released(t)) && SameCounts(Released(t), t.kids) && Head(Released(t)) == Head(t.kids)
    ensures SoundF(Released(t)) && Released(t) != [] && IsCase(Released(t)[0]) == IsCase(t.kids[0])
  {
    SoundNode(t);
    assert RedoneF(t.kids, Released(t));
    RedoneSameF(t.kids, Released(t));
  }

  lemma FreedCase(t: Tree, i: nat)
    requires i < |t.kids| && SoundF(t.kids) && IsCase(t.kids[i])
    ensures var u := t.(kids := t.kids[..i] + Released(t.kids[i]) + t.kids[i + 1..]);
            SoundF(u.kids) && NotWorse(t, u) && Kept(t, u, false) && u.kids != []
  {
    hide Sound, SoundF, Plain, Under, Among, Nested, Depth, Chain, PlainF, UnderF, AmongF, NestedF, DepthF, Head;
    var f, c := t.kids, t.kids[i];
    var g := Released(c);
    var u := t.(kids := f[..i] + g + f[i + 1..]);
    SoundKids(t, i);
    SoundNode(c);
    ReleasedSame(c);
    SoundSplit(f, i);
    SoundSplit(f, i + 1);
    SoundConcat(f[..i], g);
    SoundConcat(f[..i] + g, f[i + 1..]);
    KidParts(f, i, c);
    MiddleCounts(f[..i], [c], f[i + 1..]);
    MiddleCounts(f[..i], g, f[i + 1..]);
    CountOne(c);
    CountNode(c);
    CountNode(t);
    CountNode(u);
    HeadIs(f);
    HeadIs(u.kids);
    HeadIs(g);
    assert u.kids[0] == if i > 0 then f[0] else g[0];
    forall q ensures Answers(q, u) == Answers(q, t) && Bit(Answers(q, c)) == 0 { }
  }

  /** Other data of the children do not count. */
  lemma StyledNode(t: Tree, g: seq<Tree>)
    requires RedoneF(t.kids, g) && SoundF(t.kids)
    ensures var u := t.(kids := g); SoundF(g) && NotWorse(t, u) && Kept(t, u, false)
  {
    var u := t.(kids := g);
    RedoneSameF(t.kids, g);
    CountNode(t);
    CountNode(u);
    hide Sound, SoundF, Plain, Under, Among, Nested, Depth, Chain, PlainF, UnderF, AmongF, NestedF, DepthF, Head;
    forall q ensures Answers(q, u) == Answers(q, t) { }
  }

  lemma FreedStyles(f: seq<Tree>, i: nat)
    requires i < |f|
    ensures RedoneF(f, Untimed(f[i := Chosen(f[i], None)], i))
    ensures RedoneF(f, Untimed(if |f| == 1 then [Chosen(f[0], None)] else f, i))
  {
  }

  lemma KeptKept(t: Tree, u: Tree, v: Tree, lost: bool, lost': bool)
    requires Kept(t, u, lost) && Kept(u, v, lost')
    ensures Kept(t, v, lost || lost')
  {
    hide Among;
    forall q ensures Among(v, q) <= Among(t, q) {
      assert Among(u, q) <= Among(t, q);
    }
  }

  lemma SettleNotWorse(t: Tree, i: nat)
    requires i < |t.kids| && SoundF(t.kids)
    ensures var u := t.(kids := Settle(t.kids, i));
            SoundF(u.kids) && (u == t || NotWorse(t, u)) && Kept(t, u, false) && u.kids != []
  {
    hide Sound, SoundF, Plain, Under, Among, Nested, Depth, Chain, Alone, Untimed;
    var f := t.kids;
    if Alone(f, i) {
      if IsCase(f[i]) {
        var v := t.(kids := f[..i] + Released(f[i]) + f[i + 1..]);
        FreedCase(t, i);
        FreedSome(f, i);
        FreedStyles(v.kids, i);
        StyledNode(v, Untimed(if |v.kids| == 1 then [Chosen(v.kids[0], None)] else v.kids, i));
        KeptKept(t, v, t.(kids := Settle(f, i)), false, false);
      } else {
        FreedStyles(f, i);
        StyledNode(t, Untimed(f[i := Chosen(f[i], None)], i));
      }
    }
  }

  lemma FreedSome(f: seq<Tree>, i: nat)
    requires i < |f| && SoundF(f) && IsCase(f[i])
    ensures i < |f[..i] + Released(f[i]) + f[i + 1..]|
  {
    SoundAt(f, i);
  }

  // ----- Every step makes progress -----

  lemma StepAtBetter(t: Tree, i: nat, j: nat, n: nat)
    requires SoundF(t.kids) && Partners(t.kids, i, j) && !Blocked(t.kids[i], t.kids[j])
    ensures var u := StepTree(t, i, j, n);
            && SoundF(u.kids) && Better(t, u) && Kept(t, u, Drop(t.kids[i], t.kids[j]))
            && u.data == t.data && u.id == t.id && u.kids != []
  {
    hide Sound, SoundF, Union, Blocked, Drop, Matching, Settle, Better, NotWorse, Kept;
    SoundKids(t, i);
    SoundKids(t, j);
    FusedBetter(t, i, j, n);
    var v := t.(kids := Fused(t.kids, i, j, Union(t.kids[i], t.kids[j], n)));
    SettleNotWorse(v, i);
    var u := StepTree(t, i, j, n);
    if u != v { BetterBetter(t, v, u); }
    KeptKept(t, v, u, Drop(t.kids[i], t.kids[j]), false);
  }

  lemma KeptKid(t: Tree, i: nat, c: Tree, lost: bool)
    requires i < |t.kids| && Kept(t.kids[i], c, lost)
    ensures Kept(t, t.(kids := t.kids[i := c]), lost)
  {
    KidCounts(t, i, c);
    var k, u := t.kids[i], t.(kids := t.kids[i := c]);
    hide Among;
    forall q ensures Among(u, q) <= Among(t, q) {
      assert Among(c, q) <= Among(k, q);
    }
    if !lost {
      forall l | Among(t, Labelled(l)) > 0 ensures Among(u, Labelled(l)) > 0 {
        assert Among(k, Labelled(l)) > 0 ==> Among(c, Labelled(l)) > 0;
        OtherKids(t, i, c, Labelled(l));
      }
    }
  }

  /** A child answers for no more than its parent. */
  lemma OtherKids(t: Tree, i: nat, c: Tree, q: Query)
    requires i < |t.kids|
    ensures Among(t, q) >= Among(t.kids[i], q) && Among(t.(kids := t.kids[i := c]), q) >= Among(c, q)
  {
    var u := t.(kids := t.kids[i := c]);
    KidParts(t.kids, i, c);
    hide AmongF, Among, PlainF, UnderF, NestedF, DepthF;
    MiddleCounts(t.kids[..i], [t.kids[i]], t.kids[i + 1..]);
    MiddleCounts(t.kids[..i], [c], t.kids[i + 1..]);
    CountOne(t.kids[i]);
    CountOne(c);
    CountNode(t);
    CountNode(u);
  }

  lemma SoundUpdate(f: seq<Tree>, i: nat, c: Tree)
    requires SoundF(f) && i < |f| && Sound(c)
    ensures SoundF(f[i := c])
  {
  }

  /** Every merge, wherever it happens, makes progress and keeps the labels unless nodes are dropped. */
  lemma {:induction false} StepBetter(t: Tree, u: Tree, lost: bool)
    requires SoundF(t.kids) && Step(t, u, lost)
    ensures SoundF(u.kids) && Better(t, u) && Kept(t, u, lost)
    ensures u.data == t.data && u.id == t.id && u.kids != []
    decreases t
  {
    hide Sound, SoundF, Plain, Under, Among, Nested, Depth, Chain, Better, Kept, Partners, Blocked, Drop, StepTree;
    if exists i: nat, j: nat, n: nat :: StepAt(t, u, lost, i, j, n) {
      var i: nat, j: nat, n: nat :| StepAt(t, u, lost, i, j, n);
      StepAtBetter(t, i, j, n);
    } else {
      var i: nat :| StepBelow(t, u, lost, i);
      SoundKids(t, i);
      var k, c := t.kids[i], u.kids[i];
      StepBetter(k, c, lost);
      SoundNode(k);
      SoundNode(c);
      BetterKid(t, i, c);
      KeptKid(t, i, c, lost);
      SoundUpdate(t.kids, i, c);
    }
  }

  lemma Descent(t: Tree, u: Tree)
    requires Better(t, u)
    ensures || Plain(u) < Plain(t) || (Plain(u) == Plain(t) && Room(u) < Room(t))
            || (Plain(u) == Plain(t) && Room(u) == Room(t) && Nested(u) < Nested(t))
            || (Plain(u) == Plain(t) && Room(u) == Room(t) && Nested(u) == Nested(t) && Slack(u) < Slack(t))
  {
    hide Plain, Under, Nested, Depth, Chain;
  }

  ghost predicate Stops(s: nat -> Tree, m: nat) {
    !SoundF(s(m).kids) || (!Step(s(m), s(m + 1), false) && !Step(s(m), s(m + 1), true))
  }

  /** No sequence of merges goes on for ever, whatever is merged in whatever order. */
  lemma {:induction false} NoEndlessRun(s: nat -> Tree, k: nat)
    requires SoundF(s(k).kids)
    ensures exists m :: m >= k && Stops(s, m)
    decreases Plain(s(k)), Room(s(k)), Nested(s(k)), Slack(s(k))
  {
    if Stops(s, k) {
    } else {
      var lost := Step(s(k), s(k + 1), true);
      StepBetter(s(k), s(k + 1), lost);
      Descent(s(k), s(k + 1));
      hide Step, Better;
      NoEndlessRun(s, k + 1);
      var m :| m >= k + 1 && Stops(s, m);
    }
  }
}
