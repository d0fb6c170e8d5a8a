/** ay_ynode_merge_cases: the loops that merge branches until no two of one choice begin with the same label. */
module CasePass {
  import opened YNodes
  import opened RoseTree
  import opened CaseMerging
  import opened CaseCounts
  import opened CaseMerges
  import opened CaseRuns
  import opened CaseSteps

  // ----- The pass as a function -----

  /** The tree so far and the next id, whether branches were merged and nodes dropped, and whether the program goes
      on; it fails where it follows NULL. */
  datatype Outcome = Outcome(tree: Tree, n: nat, merged: bool, lost: bool, ok: bool)
  datatype Level = Level(kids: seq<Tree>, n: nat, merged: bool, lost: bool, ok: bool)

  /** The first branch from `j` on to merge with the one at `i`, or the end. */
  function Partner(f: seq<Tree>, i: nat, j: nat): (r: nat)
    requires SoundF(f) && i < j <= |f| && f[i].data.choice.Some?
    requires forall k :: i < k < j ==> f[k].data.choice == f[i].data.choice
    ensures j <= r <= |f| && (r < |f| ==> Partners(f, i, r))
    ensures forall k :: j <= k < r ==> !Partners(f, i, k)
    decreases |f| - j
  {
    if j == |f| || f[j].data.choice != f[i].data.choice then |f|
    else if f[i].data.when.None? && f[j].data.when.None? && Matching(f[i], f[j]) then j
    else Partner(f, i, j + 1)
  }

  function PartnerOf(f: seq<Tree>, i: nat): (r: nat)
    requires SoundF(f) && i < |f|
    ensures i < r <= |f| && (r < |f| ==> Partners(f, i, r)) && (r == |f| ==> forall k :: !Partners(f, i, k))
  {
    if f[i].data.choice.None? then |f| else Partner(f, i, i + 1)
  }

  function Siblings(t: Tree, i: nat, n: nat): (o: Outcome)
    requires SoundF(t.kids)
    ensures SoundF(o.tree.kids) && o.tree.id == t.id && o.tree.data == t.data && (t.kids != [] ==> o.tree.kids != [])
    decreases Plain(t), Room(t), Nested(t), Slack(t), |t.kids| - i
  {
    if i >= |t.kids| then Outcome(t, n, false, false, true)
    else
      var j := PartnerOf(t.kids, i);
      if j == |t.kids| then Siblings(t, i + 1, n)
      else if Blocked(t.kids[i], t.kids[j]) then Outcome(t, n, false, false, false)
      else
        StepAtBetter(t, i, j, n);
        Descent(t, StepTree(t, i, j, n));
        var o := Siblings(StepTree(t, i, j, n), i, n + 4);
        o.(merged := true, lost := o.lost || Drop(t.kids[i], t.kids[j]))
  }

  /** ay_ynode_merge_cases_r: first below the children, then among them. */
  function Children(t: Tree, n: nat): (o: Outcome)
    requires SoundF(t.kids)
    ensures SoundF(o.tree.kids) && o.tree.id == t.id && o.tree.data == t.data && (t.kids != [] ==> o.tree.kids != [])
    decreases t, 1
  {
    var l := Below(t.kids, n);
    var u := t.(kids := l.kids);
    if !l.ok then Outcome(u, l.n, l.merged, l.lost, false)
    else
      var o := Siblings(u, 0, l.n);
      o.(merged := l.merged || o.merged, lost := l.lost || o.lost)
  }

  function Below(f: seq<Tree>, n: nat): (l: Level)
    requires SoundF(f)
    ensures SoundF(l.kids) && |l.kids| == |f|
    decreases f, 0
  {
    if f == [] then Level([], n, false, false, true)
    else
      SoundNode(f[0]);
      var c := Children(f[0], n);
      SoundNode(c.tree);
      if !c.ok then Level([c.tree] + f[1..], c.n, c.merged, c.lost, false)
      else
        var r := Below(f[1..], c.n);
        Level([c.tree] + r.kids, r.n, c.merged || r.merged, c.lost || r.lost, r.ok)
  }

  // ----- Progress -----

  /** What a pass comes to. */
  ghost predicate Ran(t: Tree, u: Tree, merged: bool, lost: bool) {
    (if merged then Better(t, u) else u == t && !lost) && Kept(t, u, lost)
  }

  lemma RanNone(t: Tree)
    ensures Ran(t, t, false, false)
  {
  }

  lemma RanRan(t: Tree, u: Tree, v: Tree, m: bool, m': bool, l: bool, l': bool)
    requires Ran(t, u, m, l) && Ran(u, v, m', l')
    ensures Ran(t, v, m || m', l || l')
  {
    KeptKept(t, u, v, l, l');
    if m && m' { BetterBetter(t, u, v); }
    hide Better, Kept;
  }

  lemma RanKid(t: Tree, i: nat, c: Tree, m: bool, l: bool)
    requires i < |t.kids| && Ran(t.kids[i], c, m, l)
    ensures Ran(t, t.(kids := t.kids[i := c]), m, l)
  {
    KeptKid(t, i, c, l);
    if m { BetterKid(t, i, c); } else { assert t.kids[i := c] == t.kids; }
    hide Better, Kept;
  }

  lemma {:induction false} SiblingsRan(t: Tree, i: nat, n: nat)
    requires SoundF(t.kids)
    ensures var o := Siblings(t, i, n); Ran(t, o.tree, o.merged, o.lost)
    decreases Plain(t), Room(t), Nested(t), Slack(t), |t.kids| - i
  {
    hide Better, Kept, Ran, SoundF, Sound, Blocked, Drop, StepTree, Partners;
    if i >= |t.kids| {
      RanNone(t);
    } else {
      var j := PartnerOf(t.kids, i);
      SoundKids(t, i);
      if j < |t.kids| { SoundKids(t, j); }
      if j == |t.kids| {
        SiblingsRan(t, i + 1, n);
      } else if Blocked(t.kids[i], t.kids[j]) {
        RanNone(t);
      } else {
        var u := StepTree(t, i, j, n);
        StepAtBetter(t, i, j, n);
        Descent(t, u);
        SiblingsRan(u, i, n + 4);
        RanIs(t, u, Drop(t.kids[i], t.kids[j]));
        var o := Siblings(u, i, n + 4);
        RanRan(t, u, o.tree, true, o.merged, Drop(t.kids[i], t.kids[j]), o.lost);
      }
    }
  }

  lemma RanIs(t: Tree, u: Tree, lost: bool)
    requires Better(t, u) && Kept(t, u, lost)
    ensures Ran(t, u, true, lost)
  {
  }

  lemma RanBetter(t: Tree, u: Tree, merged: bool, lost: bool)
    requires Ran(t, u, merged, lost)
    ensures (if merged then Better(t, u) else u == t && !lost) && Kept(t, u, lost)
  {
  }

  lemma {:induction false} ChildrenRan(t: Tree, n: nat)
    requires SoundF(t.kids)
    ensures var o := Children(t, n); Ran(t, o.tree, o.merged, o.lost)
    decreases t, 1
  {
    hide Better, Kept, Ran, SoundF, Sound;
    var l := Below(t.kids, n);
    var u := t.(kids := l.kids);
    assert [] + t.kids == t.kids && [] + l.kids == l.kids;
    BelowRan(t, [], t.kids, n);
    if l.ok {
      SiblingsRan(u, 0, l.n);
      var o := Siblings(u, 0, l.n);
      RanRan(t, u, o.tree, l.merged, o.merged, l.lost, o.lost);
    }
  }

  lemma {:induction false} BelowRan(t: Tree, e: seq<Tree>, f: seq<Tree>, n: nat)
    requires SoundF(f) && t.kids == e + f
    ensures var l := Below(f, n); Ran(t, t.(kids := e + l.kids), l.merged, l.lost)
    decreases f, 0
  {
    hide Better, Kept, Ran, Sound;
    if f == [] {
      RanNone(t);
    } else {
      SoundNode(f[0]);
      var c := Children(f[0], n);
      ChildrenRan(f[0], n);
      assert t.kids[|e|] == f[0];
      RanKid(t, |e|, c.tree, c.merged, c.lost);
      var u := t.(kids := t.kids[|e| := c.tree]);
      assert u.kids == e + [c.tree] + f[1..] && e + ([c.tree] + f[1..]) == u.kids;
      if c.ok {
        var r := Below(f[1..], c.n);
        BelowRan(u, e + [c.tree], f[1..], c.n);
        assert e + ([c.tree] + r.kids) == e + [c.tree] + r.kids;
        RanRan(t, u, u.(kids := e + [c.tree] + r.kids), c.merged, r.merged, c.lost, r.lost);
      }
    }
  }

  /** The pass is repeated until nothing is merged. */
  function All(t: Tree, n: nat): (o: Outcome)
    requires SoundF(t.kids)
    ensures SoundF(o.tree.kids) && o.tree.id == t.id && o.tree.data == t.data
    decreases Plain(t), Room(t), Nested(t), Slack(t)
  {
    var o := Children(t, n);
    if !o.ok || !o.merged then o
    else
      ChildrenRan(t, n);
      RanBetter(t, o.tree, true, o.lost);
      Descent(t, o.tree);
      var p := All(o.tree, o.n);
      p.(merged := true, lost := o.lost || p.lost)
  }

  /** Nothing is made up, and unless nodes are dropped every label is still there. */
  lemma {:induction false} AllKept(t: Tree, n: nat)
    requires SoundF(t.kids)
    ensures var o := All(t, n); Ran(t, o.tree, o.merged, o.lost) && Kept(t, o.tree, o.lost)
    decreases Plain(t), Room(t), Nested(t), Slack(t)
  {
    hide Better, Kept, Ran, SoundF, Sound, Children, Plain, Room, Nested, Slack;
    var o := Children(t, n);
    ChildrenRan(t, n);
    RanBetter(t, o.tree, o.merged, o.lost);
    if o.ok && o.merged {
      Descent(t, o.tree);
      AllKept(o.tree, o.n);
      var p := All(o.tree, o.n);
      RanRan(t, o.tree, p.tree, true, p.merged, o.lost, p.lost);
      RanBetter(t, p.tree, true, o.lost || p.lost);
    }
  }

  // ----- The end -----

  /** No two branches of a choice begin with the same label, unless one of them has a when. */
  ghost predicate Settled(t: Tree)
    requires SoundF(t.kids)
    decreases t, 1
  {
    SettledF(t.kids)
  }

  ghost predicate SettledF(f: seq<Tree>)
    requires SoundF(f)
    decreases f, 0
  {
    && (forall i: nat, j: nat :: !Partners(f, i, j))
    && forall i :: 0 <= i < |f| ==> (SoundNode(f[i]); Settled(f[i]))
  }

  lemma {:induction false} SiblingsSettled(t: Tree, i: nat, n: nat)
    requires SoundF(t.kids) && Siblings(t, i, n).ok && !Siblings(t, i, n).merged
    ensures forall k: nat, j: nat :: i <= k ==> !Partners(t.kids, k, j)
    decreases |t.kids| - i
  {
    hide SoundF, Sound;
    if i < |t.kids| {
      var j := PartnerOf(t.kids, i);
      assert j == |t.kids|;
      SiblingsSettled(t, i + 1, n);
    }
  }

  lemma {:induction false} ChildrenSettled(t: Tree, n: nat)
    requires SoundF(t.kids) && Children(t, n).ok && !Children(t, n).merged
    ensures Settled(t)
    decreases t, 1
  {
    BelowSettled(t.kids, n);
    ChildrenRan(t, n);
    BelowSame(t.kids, n);
    hide Partners, SoundF, Sound, Siblings;
    SiblingsSettled(t, 0, Below(t.kids, n).n);
  }

  lemma {:induction false} BelowSame(f: seq<Tree>, n: nat)
    requires SoundF(f) && !Below(f, n).merged
    ensures Below(f, n).kids == f
    decreases f
  {
    if f != [] {
      SoundNode(f[0]);
      ChildrenRan(f[0], n);
      var c := Children(f[0], n);
      if c.ok { BelowSame(f[1..], c.n); }
    }
  }

  lemma {:induction false} BelowSettled(f: seq<Tree>, n: nat)
    requires SoundF(f) && Below(f, n).ok && !Below(f, n).merged
    ensures forall i :: 0 <= i < |f| ==> (SoundNode(f[i]); Settled(f[i]))
    decreases f, 0
  {
    hide Settled, Partners;
    if f != [] {
      SoundNode(f[0]);
      ChildrenSettled(f[0], n);
      BelowSettled(f[1..], Children(f[0], n).n);
      forall i | 0 <= i < |f| ensures (SoundNode(f[i]); Settled(f[i])) {
        assert i > 0 ==> f[i] == f[1..][i - 1];
      }
    }
  }

  lemma {:induction false} AllSettled(t: Tree, n: nat)
    requires SoundF(t.kids) && All(t, n).ok
    ensures Settled(All(t, n).tree)
    decreases Plain(t), Room(t), Nested(t), Slack(t)
  {
    hide Better, Kept, SoundF, Sound, Children, Plain, Room, Nested, Slack, Settled, Ran;
    var o := Children(t, n);
    ChildrenRan(t, n);
    RanBetter(t, o.tree, o.merged, o.lost);
    if o.merged {
      Descent(t, o.tree);
      AllSettled(o.tree, o.n);
    } else {
      ChildrenSettled(t, n);
    }
  }

  // ----- The loops -----

  method FindPartner(f: seq<Tree>, i: nat) returns (j: nat)
    requires SoundF(f) && i < |f|
    ensures j == PartnerOf(f, i)
  {
    if f[i].data.choice.None? {
      return |f|;
    }
    hide Sound, Matching, Partners;
    j := i + 1;
    while j < |f| && f[j].data.choice == f[i].data.choice
      invariant i < j <= |f| && (forall k :: i < k < j ==> f[k].data.choice == f[i].data.choice)
      invariant PartnerOf(f, i) == Partner(f, i, j)
    {
      if f[i].data.when.None? && f[j].data.when.None? && Matching(f[i], f[j]) {
        return;
      }
      j := j + 1;
    }
    j := |f|;
  }

  function Later(o: Outcome, merged: bool, lost: bool): Outcome {
    o.(merged := merged || o.merged, lost := lost || o.lost)
  }

  method MergeSiblings(t: Tree, n: nat) returns (o: Outcome)
    requires SoundF(t.kids)
    ensures o == Siblings(t, 0, n)
  {
    hide SoundF, Sound, Blocked, Drop, StepTree, Partners, Better, Kept;
    var u, m, merged, lost, i := t, n, false, false, 0;
    while i < |u.kids|
      invariant SoundF(u.kids) && 0 <= i && Siblings(t, 0, n) == Later(Siblings(u, i, m), merged, lost)
      decreases Plain(u), Room(u), Nested(u), Slack(u), |u.kids| - i
    {
      var j := FindPartner(u.kids, i);
      if j == |u.kids| {
        i := i + 1;
      } else {
        SoundKids(u, i);
        SoundKids(u, j);
        if Blocked(u.kids[i], u.kids[j]) {
          return Outcome(u, m, merged, lost, false);
        }
        StepAtBetter(u, i, j, m);
        Descent(u, StepTree(u, i, j, m));
        lost := lost || Drop(u.kids[i], u.kids[j]);
        u, m, merged := StepTree(u, i, j, m), m + 4, true;
      }
    }
    o := Outcome(u, m, merged, lost, true);
  }

  /** One child more. */
  lemma BelowNext(e: seq<Tree>, f: seq<Tree>, n: nat)
    requires f != [] && SoundF(f) && SoundF(f[0].kids) && SoundF(f[1..])
    ensures var c, l := Children(f[0], n), Below(f, n);
            if !c.ok then l == Level([c.tree] + f[1..], c.n, c.merged, c.lost, false)
              && e + l.kids == e + [c.tree] + f[1..]
            else var r := Below(f[1..], c.n);
              && l == Level([c.tree] + r.kids, r.n, c.merged || r.merged, c.lost || r.lost, r.ok)
              && e + l.kids == e + [c.tree] + r.kids
  {
  }

  method MergeBelow(t: Tree, n: nat) returns (l: Level)
    requires SoundF(t.kids)
    ensures l == Below(t.kids, n)
    decreases t, 0
  {
    hide SoundF, Sound, Below;
    var done, m, merged, lost, i := [], n, false, false, 0;
    assert t.kids[0..] == t.kids && [] + Below(t.kids, n).kids == Below(t.kids, n).kids;
    while i < |t.kids|
      invariant 0 <= i <= |t.kids| && SoundF(t.kids[i..])
      invariant var r := Below(t.kids[i..], m);
                Below(t.kids, n) == Level(done + r.kids, r.n, merged || r.merged, lost || r.lost, r.ok)
    {
      var f := t.kids[i..];
      assert f[0] == t.kids[i] && f[1..] == t.kids[i + 1..];
      SoundKids(t, i);
      SoundSplit(t.kids, i + 1);
      var c := MergeChildren(t.kids[i], m);
      BelowNext(done, f, m);
      done, m, merged, lost := done + [c.tree], c.n, merged || c.merged, lost || c.lost;
      if !c.ok {
        return Level(done + f[1..], m, merged, lost, false);
      }
      i := i + 1;
    }
    BelowNone(t.kids[i..], m);
    l := Level(done, m, merged, lost, true);
  }

  lemma BelowNone(f: seq<Tree>, n: nat)
    requires f == [] && SoundF(f)
    ensures Below(f, n) == Level([], n, false, false, true)
  {
  }

  method MergeChildren(t: Tree, n: nat) returns (o: Outcome)
    requires SoundF(t.kids)
    ensures o == Children(t, n)
    decreases t, 1
  {
    var l := MergeBelow(t, n);
    var u := t.(kids := l.kids);
    if !l.ok {
      return Outcome(u, l.n, l.merged, l.lost, false);
    }
    var s := MergeSiblings(u, l.n);
    o := s.(merged := l.merged || s.merged, lost := l.lost || s.lost);
  }

  /**
   The whole pass. It ends; if the program has not failed, no two branches of a choice without a when begin with the
   same label; no node is made up, and no label is gone unless nodes were dropped.
  */
  method MergeCases(t: Tree, n: nat) returns (o: Outcome)
    requires SoundF(t.kids)
    ensures o == All(t, n)
    ensures o.ok ==> Settled(o.tree)
    ensures Ran(t, o.tree, o.merged, o.lost) && Kept(t, o.tree, o.lost)
  {
    hide SoundF, Sound, Children, Better, Kept, Ran, Settled;
    AllKept(t, n);
    if All(t, n).ok { AllSettled(t, n); }
    var again, merged, lost := true, false, false;
    o := Outcome(t, n, false, false, true);
    while again
      invariant SoundF(o.tree.kids)
      invariant if again then All(t, n) == Later(All(o.tree, o.n), merged, lost) else o == All(t, n)
      decreases again, Plain(o.tree), Room(o.tree), Nested(o.tree), Slack(o.tree)
    {
      var c := MergeChildren(o.tree, o.n);
      ChildrenRan(o.tree, o.n);
      RanBetter(o.tree, c.tree, c.merged, c.lost);
      again := c.ok && c.merged;
      if again { Descent(o.tree, c.tree); }
      merged, lost := merged || c.merged, lost || c.lost;
      o := c.(merged := merged, lost := lost);
    }
  }
}
