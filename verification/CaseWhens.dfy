/** Only values make whens: without them none arises, and the end of the pass is plain. */
module CaseWhens {
  import opened YNodes
  import opened RoseTree
  import opened CaseMerging
  import opened CaseCounts
  import opened CaseMerges
  import opened CaseRuns
  import opened CaseSteps
  import opened CasePass

  /** No values and no whens. */
  predicate Timeless(t: Tree) {
    t.data.valueLens.None? && t.data.when.None? && TimelessF(t.kids)
  }

  predicate TimelessF(f: seq<Tree>) {
    forall i :: 0 <= i < |f| ==> Timeless(f[i])
  }

  lemma TimelessSplit(f: seq<Tree>, i: nat, j: nat)
    requires TimelessF(f) && i <= j <= |f|
    ensures TimelessF(f[i..j])
  {
  }

  lemma TimelessConcat(f: seq<Tree>, g: seq<Tree>)
    requires TimelessF(f) && TimelessF(g)
    ensures TimelessF(f + g)
  {
  }

  lemma StylesTimeless(f: seq<Tree>, fs: set<Flag>, c: Option<nat>, i: nat)
    requires TimelessF(f)
    ensures TimelessF(FlagAt(f, fs)) && TimelessF(AllChosen(f, c)) && TimelessF(Arrived(f)) && TimelessF(Untimed(f, i))
    ensures WhenAt(f, None) == f && (i < |f| ==> TimelessF(f[i := Chosen(f[i], c)]))
  {
    if i < |f| { assert Timeless(f[i]) && Timeless(Chosen(f[i], c)); }
  }

  lemma InsertTimeless(f: seq<Tree>, c: Option<nat>, n: nat)
    requires f != [] && TimelessF(f)
    ensures TimelessF(CaseInsert(f, c, n))
  {
    if !IsCase(f[0]) && |f| > 1 {
      var x := if c.None? || f[0].data.choice.None? then Flagged(f[0], {ChoiceCreated}) else f[0];
      assert TimelessF([Timed(x, None)] + f[1..]);
    }
  }

  lemma JoinedTimeless(f: seq<Tree>, g: seq<Tree>, n: nat)
    requires f != [] && TimelessF(f) && TimelessF(g)
    ensures TimelessF(Joined(f, g, n))
  {
    hide Timeless, CaseInsert, InChoice;
    if g != [] {
      StylesTimeless(g, {}, f[0].data.choice, 0);
      InsertTimeless(g, f[0].data.choice, n + 1);
      InsertTimeless(f, g[0].data.choice, n);
      InsertTimeless(f, None, n);
      InsertTimeless(g, None, n + 1);
    }
  }

  lemma MergedTimeless(a: Tree, b: Tree, n: nat)
    requires Sound(a) && Sound(b) && !Fails(a, b) && Timeless(a) && Timeless(b)
    ensures Timeless(MergeBranches(a, b, n))
  {
    FirstSound(a);
    FirstSound(b);
    var x, y, t := First(a), First(b), Target(a, b);
    assert Timeless(x) && Timeless(y) && TimelessF(Rest(a)) && TimelessF(Rest(b));
    assert When1(x, y) == None && When2(x, y) == None;
    FirstTimeless(x, y, t, n);
    StylesTimeless(Rest(a), {ChoiceMandFalse}, None, 0);
    StylesTimeless(Rest(b), {}, None, 0);
    if Rest(a) != [] { JoinedTimeless(Rest(a), Rest(b), n + 2); }
    hide TimelessF, MergeFirst, Joined, Arrived, FlagAt, Target, When1, When2;
    var m := MergeFirst(x, y, t, n);
    KidsTimeless([m], Rest(a));
    KidsTimeless([m], FlagAt(Rest(a), {ChoiceMandFalse}));
    KidsTimeless([Chosen(m, None)], Arrived(Rest(b)));
    if Rest(a) != [] { KidsTimeless([m], Joined(Rest(a), Rest(b), n + 2)); }
  }

  lemma KidsTimeless(x: seq<Tree>, f: seq<Tree>)
    requires |x| == 1 && x[0].data.valueLens.None? && x[0].data.when.None? && TimelessF(x[0].kids) && TimelessF(f)
    ensures TimelessF(x + f)
  {
  }

  lemma FirstTimeless(x: Tree, y: Tree, target: bool, n: nat)
    requires Timeless(x) && Timeless(y)
    ensures Timeless(MergeFirst(x, y, target, n))
  {
    assert When1(x, y) == None && When2(x, y) == None;
    var fs := if ValueInChoice in FirstData(x, y, target).flags then {} else {ChoiceMandFalse};
    StylesTimeless(x.kids, fs, None, 0);
    StylesTimeless(y.kids, fs, None, 0);
    StylesTimeless(Arrived(y.kids), fs, None, 0);
    if x.kids != [] { JoinedTimeless(x.kids, y.kids, n); }
    hide TimelessF, Joined, Arrived, FlagAt, When1, When2, ValueFlags;
  }

  lemma UnionTimeless(a: Tree, b: Tree, n: nat)
    requires Sound(a) && Sound(b) && !Blocked(a, b) && Timeless(a) && Timeless(b)
    ensures Timeless(Union(a, b, n))
  {
    hide MergeBranches, Fails, SameBut;
    if Repeats(a, b) {
    } else if SameBut(a, b) {
      FirstSound(a);
      FirstSound(b);
      assert Timeless(First(a)) && Timeless(First(b)) && TimelessF(Rest(a));
      if IsCase(a) { KidsTimeless([Revalued(First(a), First(b))], Rest(a)); }
    } else {
      MergedTimeless(a, b, n);
    }
  }

  lemma StepTimeless(t: Tree, i: nat, j: nat, n: nat)
    requires SoundF(t.kids) && Partners(t.kids, i, j) && !Blocked(t.kids[i], t.kids[j]) && TimelessF(t.kids)
    ensures TimelessF(StepTree(t, i, j, n).kids)
  {
    var f := t.kids;
    SoundKids(t, i);
    SoundKids(t, j);
    UnionTimeless(f[i], f[j], n);
    hide Timeless, Union, Blocked, Sound, SoundF, Matching;
    FusedTimeless(f, i, j, Union(f[i], f[j], n));
    SettleTimeless(Fused(f, i, j, Union(f[i], f[j], n)), i);
  }

  lemma FusedTimeless(f: seq<Tree>, i: nat, j: nat, r: Tree)
    requires i < j < |f| && TimelessF(f) && Timeless(r)
    ensures TimelessF(Fused(f, i, j, r))
  {
    hide Timeless;
    var stray := if IsCase(r) && !IsCase(f[i]) then {ChoiceMandFalse} else {};
    TimelessSplit(f, i + 1, j);
    StylesTimeless(f[i + 1..j], stray, None, 0);
  }

  lemma ReleasedTimeless(t: Tree)
    requires Timeless(t)
    ensures TimelessF(Released(t))
  {
    var f := Released(t);
    forall i | 0 <= i < |f| ensures Timeless(f[i]) {
      assert Timeless(t.kids[i]);
    }
  }

  lemma SettleTimeless(g: seq<Tree>, i: nat)
    requires i < |g| && TimelessF(g)
    ensures TimelessF(Settle(g, i))
  {
    hide Alone, Untimed, Timeless;
    if Alone(g, i) {
      if IsCase(g[i]) {
        var c := Released(g[i]);
        ReleasedTimeless(g[i]);
        TimelessSplit(g, 0, i);
        TimelessSplit(g, i + 1, |g|);
        TimelessConcat(g[..i], c);
        TimelessConcat(g[..i] + c, g[i + 1..]);
        var h := g[..i] + c + g[i + 1..];
        if |h| == 1 {
          StylesTimeless(h, {}, None, 0);
          assert h[0 := Chosen(h[0], None)] == [Chosen(h[0], None)];
        }
        StylesTimeless(if |h| == 1 then [Chosen(h[0], None)] else h, {}, None, i);
      } else {
        StylesTimeless(g, {}, None, i);
        StylesTimeless(g[i := Chosen(g[i], None)], {}, None, i);
      }
    }
  }

  lemma {:induction false} SiblingsTimeless(t: Tree, i: nat, n: nat)
    requires SoundF(t.kids) && TimelessF(t.kids)
    ensures TimelessF(Siblings(t, i, n).tree.kids)
    decreases Plain(t), Room(t), Nested(t), Slack(t), |t.kids| - i
  {
    hide SoundF, Sound, Blocked, Drop, StepTree, Partners, Better, Timeless, TimelessF;
    if i < |t.kids| {
      var j := PartnerOf(t.kids, i);
      if j == |t.kids| {
        SiblingsTimeless(t, i + 1, n);
      } else {
        SoundKids(t, i);
        SoundKids(t, j);
        if !Blocked(t.kids[i], t.kids[j]) {
          StepAtBetter(t, i, j, n);
          StepTimeless(t, i, j, n);
          Descent(t, StepTree(t, i, j, n));
          SiblingsTimeless(StepTree(t, i, j, n), i, n + 4);
        }
      }
    }
  }

  lemma {:induction false} ChildrenTimeless(t: Tree, n: nat)
    requires SoundF(t.kids) && TimelessF(t.kids)
    ensures TimelessF(Children(t, n).tree.kids)
    decreases t, 1
  {
    hide SoundF, Sound, Timeless, TimelessF;
    BelowTimeless(t.kids, n);
    var l := Below(t.kids, n);
    if l.ok { SiblingsTimeless(t.(kids := l.kids), 0, l.n); }
  }

  lemma {:induction false} BelowTimeless(f: seq<Tree>, n: nat)
    requires SoundF(f) && TimelessF(f)
    ensures TimelessF(Below(f, n).kids)
    decreases f, 0
  {
    if f != [] {
      SoundNode(f[0]);
      assert Timeless(f[0]);
      ChildrenTimeless(f[0], n);
      var c := Children(f[0], n);
      assert Timeless(c.tree);
      if c.ok { BelowTimeless(f[1..], c.n); }
    }
  }

  /** Without values the pass ends with no two branches of a choice that begin with the same label. */
  lemma {:induction false} AllTimeless(t: Tree, n: nat)
    requires SoundF(t.kids) && TimelessF(t.kids)
    ensures TimelessF(All(t, n).tree.kids)
    decreases Plain(t), Room(t), Nested(t), Slack(t)
  {
    hide SoundF, Sound, Children, Better, Kept, Ran, Plain, Room, Nested, Slack, Timeless, TimelessF;
    var o := Children(t, n);
    ChildrenTimeless(t, n);
    ChildrenRan(t, n);
    RanBetter(t, o.tree, o.merged, o.lost);
    if o.ok && o.merged {
      Descent(t, o.tree);
      AllTimeless(o.tree, o.n);
    }
  }

  /** Siblings of one choice, with all between them in it, begin with different labels. */
  ghost predicate Distinct(f: seq<Tree>)
    requires SoundF(f)
  {
    forall i, j :: 0 <= i < j < |f| && InChoice(f[i..j + 1]) ==>
      First(f[i]).data.labelLens != First(f[j]).data.labelLens
  }

  ghost predicate DistinctBelow(t: Tree)
    requires SoundF(t.kids)
  {
    Distinct(t.kids) && forall i :: 0 <= i < |t.kids| ==> (SoundNode(t.kids[i]); DistinctBelow(t.kids[i]))
  }

  lemma {:induction false} SettledDistinct(t: Tree)
    requires SoundF(t.kids) && Settled(t) && TimelessF(t.kids)
    ensures DistinctBelow(t)
    decreases t
  {
    var f := t.kids;
    forall i, j | 0 <= i < j < |f| && InChoice(f[i..j + 1])
      ensures First(f[i]).data.labelLens != First(f[j]).data.labelLens
    {
      assert !Partners(f, i, j) && Timeless(f[i]) && Timeless(f[j]);
      assert f[i..j + 1][0] == f[i];
      assert forall k :: i < k <= j ==> f[i..j + 1][k - i] == f[k];
      assert Matching(f[i], f[j]) == (First(f[i]).data.labelLens == First(f[j]).data.labelLens);
    }
    forall i | 0 <= i < |f| ensures (SoundNode(f[i]); DistinctBelow(f[i])) {
      SoundNode(f[i]);
      assert Timeless(f[i]);
      SettledDistinct(f[i]);
    }
  }

  lemma AllDistinct(t: Tree, n: nat)
    requires SoundF(t.kids) && TimelessF(t.kids) && All(t, n).ok
    ensures DistinctBelow(All(t, n).tree)
  {
    AllTimeless(t, n);
    AllSettled(t, n);
    SettledDistinct(All(t, n).tree);
  }
}
