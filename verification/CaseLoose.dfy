/** A wider condition: only what stands in a choice needs to be tidy. */
module CaseLoose {
  import opened YNodes
  import opened RoseTree
  import opened CaseMerging
  import opened CaseCounts
  import opened CaseMerges
  import opened CaseRuns
  import opened CaseSteps
  import opened CasePass
  import opened CaseTidy

  /** Nodes in no choice, in any order with branches of any choices; the cases and the branches are tidy. */
  predicate Loose(f: seq<Tree>) {
    forall i :: 0 <= i < |f| ==> LooseNode(f[i])
  }

  predicate LooseNode(t: Tree) {
    if IsCase(t) || t.data.choice.Some? then Tidy(t) else Loose(t.kids)
  }

  lemma {:induction false} TidyLoose(t: Tree)
    requires Tidy(t)
    ensures Loose(t.kids) && LooseNode(t)
    decreases t
  {
    forall i | 0 <= i < |t.kids| ensures LooseNode(t.kids[i]) { TidyLoose(t.kids[i]); }
  }

  lemma {:induction false} LooseSound(f: seq<Tree>)
    requires Loose(f)
    ensures SoundF(f)
    decreases f
  {
    forall i | 0 <= i < |f| ensures Sound(f[i]) {
      assert LooseNode(f[i]);
      if IsCase(f[i]) || f[i].data.choice.Some? { TidySound(f[i]); } else { LooseSound(f[i].kids); }
    }
  }

  lemma LooseAt(f: seq<Tree>, i: nat)
    requires Loose(f) && i < |f|
    ensures LooseNode(f[i]) && (f[i].data.choice.Some? ==> Tidy(f[i]))
    ensures IsCase(f[i]) || f[i].data.choice.Some? || Loose(f[i].kids)
  {
  }

  /** Other flags, whens and numbers do not matter. */
  lemma StyledLoose(t: Tree, u: Tree)
    requires LooseNode(t) && Styled(t, u)
    ensures LooseNode(u)
  {
    if Tidy(t) { SameTidy(t, u); }
  }

  /** Out of its choice. */
  lemma OutLoose(t: Tree)
    requires LooseNode(t)
    ensures LooseNode(Chosen(t, None))
  {
    var u := Chosen(t, None);
    if IsCase(t) {
      ChosenTidy(t, u);
    } else if t.data.choice.Some? {
      TidyLoose(t);
    }
  }

  lemma UntimedLoose(f: seq<Tree>, i: nat)
    requires Loose(f)
    ensures Loose(Untimed(f, i))
  {
    hide LooseNode;
    StylesAre(f, {}, None, i);
    var g := Untimed(f, i);
    forall k | 0 <= k < |g| ensures LooseNode(g[k]) {
      assert Styled(f[k], g[k]);
      StyledLoose(f[k], g[k]);
    }
  }

  lemma ReleasedLoose(t: Tree)
    requires Tidy(t) && IsCase(t)
    ensures Loose(Released(t)) && |Released(t)| >= 2
  {
    ReleasedTidy(t);
    hide Tidy, Released;
    forall k | 0 <= k < |Released(t)| ensures LooseNode(Released(t)[k]) { TidyLoose(Released(t)[k]); }
  }

  lemma SettleLoose(f: seq<Tree>, i: nat)
    requires Loose(f) && i < |f| && f[i].data.choice.Some?
    ensures Loose(Settle(f, i))
  {
    LooseAt(f, i);
    hide LooseNode, Tidy, Released, Alone, Untimed;
    if Alone(f, i) {
      if IsCase(f[i]) {
        ReleasedLoose(f[i]);
        var g := f[..i] + Released(f[i]) + f[i + 1..];
        assert Loose(g);
        UntimedLoose(g, i);
      } else {
        OutLoose(f[i]);
        UntimedLoose(f[i := Chosen(f[i], None)], i);
      }
    }
  }

  lemma FusedLoose(f: seq<Tree>, i: nat, j: nat, r: Tree)
    requires Loose(f) && i < j < |f| && Tidy(r)
    ensures Loose(Fused(f, i, j, r))
  {
    TidyLoose(r);
    hide LooseNode, Tidy, Fused;
    var g := Fused(f, i, j, r);
    forall k | 0 <= k < |g| ensures LooseNode(g[k]) {
      FusedAt(f, i, j, r, k);
      if k < j && k != i { StyledLoose(f[k], g[k]); }
    }
  }

  lemma StepLoose(t: Tree, i: nat, j: nat, n: nat)
    requires Loose(t.kids) && SoundF(t.kids) && Partners(t.kids, i, j)
    ensures var f := t.kids; !Blocked(f[i], f[j]) && !Drop(f[i], f[j]) && Loose(StepTree(t, i, j, n).kids)
  {
    var f := t.kids;
    LooseAt(f, i);
    LooseAt(f, j);
    SoundKids(t, i);
    SoundKids(t, j);
    NeverFails(f[i], f[j]);
    UnionTidy(f[i], f[j], n);
    var r := Union(f[i], f[j], n);
    FusedLoose(f, i, j, r);
    SettleLoose(Fused(f, i, j, r), i);
    hide Tidy, Loose, Union, Fused, Settle, Sound, SoundF, Blocked, Drop;
  }

  // ----- The pass -----

  /** What the pass leaves of a loose tree. */
  ghost predicate Well(o: Outcome) {
    o.ok && !o.lost && Loose(o.tree.kids)
  }

  lemma {:induction false} SiblingsLoose(t: Tree, i: nat, n: nat)
    requires SoundF(t.kids) && Loose(t.kids)
    ensures Well(Siblings(t, i, n))
    decreases Plain(t), Room(t), Nested(t), Slack(t), |t.kids| - i
  {
    hide Loose, SoundF, Sound, Blocked, Drop, StepTree, Partners, Better;
    if i < |t.kids| {
      var j := PartnerOf(t.kids, i);
      if j == |t.kids| {
        SiblingsLoose(t, i + 1, n);
      } else {
        StepLoose(t, i, j, n);
        StepAtBetter(t, i, j, n);
        Descent(t, StepTree(t, i, j, n));
        SiblingsLoose(StepTree(t, i, j, n), i, n + 4);
      }
    }
  }

  lemma {:induction false} ChildrenLoose(t: Tree, n: nat)
    requires SoundF(t.kids) && Loose(t.kids)
    ensures Well(Children(t, n))
    decreases t, 1
  {
    var l := Below(t.kids, n);
    BelowLoose(t.kids, n);
    hide Loose, SoundF, Sound;
    SiblingsLoose(t.(kids := l.kids), 0, l.n);
  }

  /** One child. */
  lemma {:induction false} ChildLoose(t: Tree, n: nat)
    requires Sound(t) && LooseNode(t)
    ensures SoundF(t.kids) && var c := Children(t, n); c.ok && !c.lost && LooseNode(c.tree)
    decreases t, 2
  {
    SoundNode(t);
    var c := Children(t, n);
    if IsCase(t) || t.data.choice.Some? {
      CaseKids(t);
      ChildrenTidy(t, n);
      ChildTidy(t, c.tree);
    } else {
      ChildrenLoose(t, n);
    }
  }

  lemma {:induction false} BelowLoose(f: seq<Tree>, n: nat)
    requires SoundF(f) && Loose(f)
    ensures var l := Below(f, n); l.ok && !l.lost && Loose(l.kids)
    decreases f, 0
  {
    hide LooseNode;
    if f != [] {
      SoundNode(f[0]);
      LooseAt(f, 0);
      ChildLoose(f[0], n);
      BelowLoose(f[1..], Children(f[0], n).n);
    }
  }

  /**
   If the cases and the branches of all choices are tidy, the whole pass neither fails nor drops nodes,
   and leaves such a tree. Above them siblings may have several choices, with nodes between and behind them.
  */
  lemma {:induction false} AllLoose(t: Tree, n: nat)
    requires Loose(t.kids)
    ensures SoundF(t.kids) && Well(All(t, n))
    decreases Plain(t), Room(t), Nested(t), Slack(t)
  {
    LooseSound(t.kids);
    hide Loose, SoundF, Sound, Children, Better, Kept, Ran, Plain, Room, Nested, Slack;
    ChildrenLoose(t, n);
    var o := Children(t, n);
    ChildrenRan(t, n);
    RanBetter(t, o.tree, o.merged, o.lost);
    if o.merged {
      Descent(t, o.tree);
      AllLoose(o.tree, o.n);
    }
  }

  /** Tidy trees are loose. */
  lemma TidyIsLoose(f: seq<Tree>)
    requires TidyF(f)
    ensures Loose(f)
  {
    hide Tidy, LooseNode;
    forall i | 0 <= i < |f| ensures LooseNode(f[i]) { TidyLoose(f[i]); }
  }
}
