/** When the marking pass keeps its classes apart in trees of recursive lenses, told from the tree before the pass. */
module MarkingRecursion {
  import opened YNodes
  import opened RoseTree
  import opened TreeLinks
  import opened TreeEdits
  import opened Expansion
  import opened Conversion
  import opened ConversionFacts
  import opened Groupings
  import opened GroupingSteps
  import opened GroupingRest
  import opened GroupingEdits
  import opened SameContent
  import opened MarkingMeaning
  import opened MarkingSteps
  import opened TreeForms
  import opened Marking
  import opened MarkingMatches
  import opened MarkingRun
  import opened MarkingConditions
  import opened MarkingConverse

  /** The node at index `i` is the one at `r` or below it. */
  predicate Under(t: Tree, r: nat, i: nat)
    requires r < Size(t)
  {
    r <= i < r + Size(At(t, PathTo(t, r)))
  }

  ghost predicate FindsAny(t: Tree, i: nat, rules: Rules)
    requires 0 < i < Size(t)
  {
    Finds(t, i, rules, Whole) || Finds(t, i, rules, Inner)
  }

  /** The node at index `i` may start a class, with the node at `r` above it a child of a recursion. */
  ghost predicate Exposed(t: Tree, r: nat, i: nat, rules: Rules)
    requires 0 < r < Size(t)
  {
    0 < i < Size(t) && Under(t, r, i) && BelowRec(t, PathTo(t, r)) && Candidate(t, PathTo(t, i), rules)
      && FindsAny(t, i, rules)
  }

  /** No class starts in a child of a recursion that itself belongs to an earlier class, or with one that has a
      number of the other pass. */
  ghost predicate RecSafe(t: Tree, rules: Rules, tags: set<nat>) {
    forall r: nat, i: nat :: 0 < r < Size(t) && Exposed(t, r, i, rules) ==>
      !Claimed(t, r, r, rules) && (i == r ==> FlatT(t)[r].id !in tags)
  }

  /** The first node with a number of the other pass has its own id as number. */
  ghost predicate TagHeads(t: Tree, tags: set<nat>) {
    forall a :: 0 <= a < Size(t) && FlatT(t)[a].id in tags ==> FlatT(t)[a].data.ref != 0
  }

  // ----- A class in the pass was there before -----

  lemma {:induction false} SeekFirst(f: Found, i: nat, r: nat, p: nat, rules: Rules) returns (j: nat, m: Match)
    requires 0 < i < p <= Size(f.tree) && !f.inner && !f.whole
    requires var g := Seek(f, i, r, p, rules); g.inner || g.whole
    ensures p <= j < Size(f.tree) && m != No && Matching(f.tree, i, j, rules, m)
    decreases Size(f.tree) - p
  {
    hide *;
    if p == Size(f.tree) {
      SeekEnd(f, i, r, p, rules);
      assert false;
    }
    SeekNext(f, i, r, p, rules);
    StepAsks(f, i, r, p, rules);
    var s := Step(f, i, r, p, rules);
    if Matching(f.tree, i, p, rules, Whole) {
      j, m := p, Whole;
    } else if Matching(f.tree, i, p, rules, Inner) {
      j, m := p, Inner;
    } else {
      j, m := SeekFirst(s.0, i, r, s.1, rules);
    }
  }

  /** A match in the pass is one before it, though perhaps one of the whole node. */
  lemma MatchWas(t: Tree, u: Tree, i: nat, j: nat, lim: Limits, tags: set<nat>)
    requires Traced(t, u, i, tags) && FreshTree(t, lim, tags) && 0 < i < j < Size(t) == Size(u)
             && MatchOf(u, i, j) != No
    ensures MatchOf(t, i, j) != No
  {
    hide *;
    TracedForm(t, u, i, tags);
    MatchIs(t, i, j);
    MatchIs(u, i, j);
    WholeFirstForm(t, u, i, j);
    InnerForm(t, u, i);
    TreesBack(t, u, i, j, i, lim, tags);
    InnersBack(t, u, i, j, i, lim, tags);
  }

  lemma StartsFinds(t: Tree, u: Tree, i: nat, rules: Rules, lim: Limits, tags: set<nat>)
    requires Traced(t, u, i, tags) && FreshTree(t, lim, tags) && 0 < i < Size(t) == Size(u) && Starts(u, i, rules)
    ensures FindsAny(t, i, rules)
  {
    hide *;
    var l := At(u, PathTo(u, i));
    ClassIs(u, i, rules);
    var j, m := SeekFirst(Found(u, false, false, false), i, l.id, i + Size(l), rules);
    MatchingIs(u, i, j, rules, m);
    KeptPlain(t, u, i, j, tags);
    MatchWas(t, u, i, j, lim, tags);
    TracedForm(t, u, i, tags);
    FormIndexSize(t, u, i);
    AfterIs(t, i, j);
    MatchingThus(t, i, j, rules, MatchOf(t, i, j));
    FindsAt(t, i, j, rules, MatchOf(t, i, j));
    FindsThus(t, i, rules, MatchOf(t, i, j));
  }

  lemma FindsThus(t: Tree, i: nat, rules: Rules, m: Match)
    requires 0 < i < Size(t) && Finds(t, i, rules, m) && m != No
    ensures FindsAny(t, i, rules)
  {
    hide Finds;
  }

  // ----- What a class leaves alone -----

  lemma {:induction false} SeekBefore(f: Found, i: nat, r: nat, p: nat, rules: Rules, a: nat)
    requires 0 < i < p <= Size(f.tree) && a < p
    ensures a < Size(f.tree) == Size(Seek(f, i, r, p, rules).tree)
            && FlatT(Seek(f, i, r, p, rules).tree)[a] == FlatT(f.tree)[a]
    decreases Size(f.tree) - p
  {
    hide *;
    if p == Size(f.tree) {
      SeekEnd(f, i, r, p, rules);
    } else {
      SeekNext(f, i, r, p, rules);
      StepTree(f, i, r, p, rules);
      var m := At(f.tree, PathTo(f.tree, p)).data;
      SetElsewhere(f.tree, p, a, Mark(m, r, true));
      SetElsewhere(f.tree, p, a, Mark(m, r, false));
      var s := Step(f, i, r, p, rules);
      SeekBefore(s.0, i, r, s.1, rules, a);
    }
  }

  lemma ClassBefore(t: Tree, i: nat, rules: Rules, a: nat)
    requires 0 < i < Size(t) && a < i
    ensures var c := MarkClass(t, i, rules).0; Size(c) == Size(t) && FlatT(c)[a] == FlatT(t)[a]
  {
    hide *;
    ClassIs(t, i, rules);
    var l := At(t, PathTo(t, i));
    var f0 := Found(t, false, false, false);
    var g := Seek(f0, i, l.id, i + Size(l), rules);
    SeekBefore(f0, i, l.id, i + Size(l), rules, a);
    SeekSize(f0, i, l.id, i + Size(l), rules);
    SeekKeepsPath(t, i, g.tree, l, rules);
    SetElsewhere(g.tree, i, a, Mark(l.data, l.id, g.inner));
  }

  lemma SeekSize(f: Found, i: nat, r: nat, p: nat, rules: Rules)
    requires 0 < i < p <= Size(f.tree)
    ensures Size(Seek(f, i, r, p, rules).tree) == Size(f.tree)
  {
  }

  lemma {:induction false} SeekForm(f: Found, i: nat, r: nat, p: nat, rules: Rules)
    requires 0 < i < p <= Size(f.tree)
    ensures SameForm(f.tree, Seek(f, i, r, p, rules).tree)
    decreases Size(f.tree) - p
  {
    hide *;
    FormSelf(f.tree);
    if p == Size(f.tree) {
      SeekEnd(f, i, r, p, rules);
    } else {
      SeekNext(f, i, r, p, rules);
      StepTree(f, i, r, p, rules);
      var q := PathTo(f.tree, p);
      var m := At(f.tree, q).data;
      FormSet(f.tree, q, Mark(m, r, true)) by { MarkTyp(m, r, true); }
      FormSet(f.tree, q, Mark(m, r, false)) by { MarkTyp(m, r, false); }
      var s := Step(f, i, r, p, rules);
      SeekForm(s.0, i, r, s.1, rules);
      FormTrans(f.tree, s.0.tree, Seek(s.0, i, r, s.1, rules).tree);
    }
  }

  lemma SeekKeepsPath(t: Tree, i: nat, g: Tree, l: Tree, rules: Rules)
    requires 0 < i < Size(t) && l == At(t, PathTo(t, i)) && i + Size(l) <= Size(t) && Size(l) >= 1
    requires g == Seek(Found(t, false, false, false), i, l.id, i + Size(l), rules).tree
    ensures Size(g) == Size(t) && PathTo(g, i) == PathTo(t, i)
  {
    hide *;
    SeekForm(Found(t, false, false, false), i, l.id, i + Size(l), rules);
    FormTyp(t, g);
    FormIndex(t, g, i);
  }

  // ----- Members passed -----

  predicate MemberAt(u: Tree, a: nat, tags: set<nat>)
    requires a < Size(u)
  {
    var c := FlatT(u)[a];
    RoleOf(c.id, Untagged(c.data, tags)) == Member
  }

  /** Every later node of a class before index `i` was claimed. */
  ghost predicate Passed(t: Tree, u: Tree, i: nat, rules: Rules, tags: set<nat>) {
    forall a: nat :: a < i && a < Size(u) && MemberAt(u, a, tags) ==> Claimed(t, a, a, rules)
  }

  /** Every later node of a class above index `i` is a child of a recursion. */
  ghost predicate Entered(u: Tree, i: nat, tags: set<nat>) {
    forall a: nat ::
      0 < a < i && a < Size(u) && i < a + Size(At(u, PathTo(u, a))) && MemberAt(u, a, tags) ==>
        BelowRec(u, PathTo(u, a))
  }

  lemma EnteredNext(u: Tree, i: nat, tags: set<nat>)
    requires 0 < i < Size(u) && Entered(u, i, tags) && (MemberAt(u, i, tags) ==> BelowRec(u, PathTo(u, i)))
    ensures Entered(u, i + 1, tags)
  {
    hide MemberAt, BelowRec, At, PathTo;
    forall a: nat | 0 < a < i + 1 && a < Size(u) && i + 1 < a + Size(At(u, PathTo(u, a))) && MemberAt(u, a, tags)
      ensures BelowRec(u, PathTo(u, a))
    {
    }
  }

  lemma EnteredSkip(u: Tree, i: nat, tags: set<nat>)
    requires 0 < i < Size(u) && Entered(u, i, tags)
    ensures Entered(u, i + Size(At(u, PathTo(u, i))), tags)
  {
    hide MemberAt, BelowRec, At, PathTo, FlatT, Size;
    var e := i + Size(At(u, PathTo(u, i)));
    NodeSize(u, i);
    forall a: nat | 0 < a < e && a < Size(u) && e < a + Size(At(u, PathTo(u, a))) && MemberAt(u, a, tags)
      ensures BelowRec(u, PathTo(u, a))
    {
      if i <= a {
        NodeSize(u, a);
        Nested(u, i, a);
      }
    }
  }

  /** A fresh node is no later node of a class. */
  lemma FreshNoMember(t: Tree, u: Tree, a: nat, lim: Limits, tags: set<nat>)
    requires FreshTree(t, lim, tags) && a < Size(t) == Size(u) && MemberAt(u, a, tags)
    ensures FlatT(u)[a] != FlatT(t)[a]
  {
    assert FreshCell(FlatT(t)[a], lim, tags);
  }

  lemma PassedNext(t: Tree, u: Tree, i: nat, rules: Rules, lim: Limits, tags: set<nat>, k: nat)
    requires Passed(t, u, i, rules, tags) && Origin(t, u, i, i, rules) && FreshTree(t, lim, tags) && i <= k
    ensures Passed(t, u, k, rules, tags)
  {
    hide MemberAt, FreshTree, Claimed;
    forall a: nat | a < k && a < Size(u) && MemberAt(u, a, tags) ensures Claimed(t, a, a, rules) {
      if i <= a {
        FreshNoMember(t, u, a, lim, tags);
        ClaimedLater(t, a, i, a, rules);
      }
    }
  }

  lemma PassedMove(t: Tree, u: Tree, c: Tree, i: nat, rules: Rules, tags: set<nat>)
    requires Passed(t, u, i, rules, tags) && i < Size(u) == Size(c)
             && forall a: nat :: a < i ==> FlatT(c)[a] == FlatT(u)[a]
    requires MemberAt(c, i, tags) ==> Claimed(t, i, i, rules)
    ensures Passed(t, c, i + 1, rules, tags)
  {
    hide Claimed, FlatT, Size;
  }

  lemma EnteredMove(u: Tree, c: Tree, i: nat, tags: set<nat>)
    requires Entered(u, i, tags) && SameForm(u, c) && 0 < i < Size(u) == Size(c)
             && forall a: nat :: a < i ==> FlatT(c)[a] == FlatT(u)[a]
    ensures Entered(c, i, tags)
  {
    hide FlatT, Size, SameForm, BelowRec, At, PathTo;
    forall a: nat | 0 < a < i && a < Size(c) && i < a + Size(At(c, PathTo(c, a))) && MemberAt(c, a, tags)
      ensures BelowRec(c, PathTo(c, a))
    {
      FormIndexSize(u, c, a);
      FormIndex(u, c, a);
      BelowForm(u, c, PathTo(u, a));
    }
  }

  lemma BelowForm(t: Tree, u: Tree, q: Path)
    requires SameForm(t, u) && q != [] && ValidPath(t, q)
    ensures ValidPath(u, q) && BelowRec(t, q) == BelowRec(u, q)
  {
    FormPath(t, u, q);
    UpValid(t, q);
    UpValid(u, q);
    FormPath(t, u, Up(q));
    FormTyp(At(t, Up(q)), At(u, Up(q)));
  }

  /** The first node of a class is no later node of one. */
  lemma LeadNoMember(u: Tree, i: nat, rules: Rules, tags: set<nat>)
    requires 0 < i < Size(u) && Starts(u, i, rules) && At(u, PathTo(u, i)).id !in tags
             && At(u, PathTo(u, i)).data.typ != Leafref
    ensures Size(MarkClass(u, i, rules).0) == Size(u) && !MemberAt(MarkClass(u, i, rules).0, i, tags)
  {
    hide *;
    ClassIs(u, i, rules);
    var l := At(u, PathTo(u, i));
    var g := Seek(Found(u, false, false, false), i, l.id, i + Size(l), rules);
    SeekKeepsPath(u, i, g.tree, l, rules);
    SeekForm(Found(u, false, false, false), i, l.id, i + Size(l), rules);
    FormIndex(u, g.tree, i);
    LeadCell(u, g.tree, i, Mark(l.data, l.id, g.inner));
    LeadRole(l, g.inner, tags, MarkClass(u, i, rules).0, i);
  }

  lemma LeadCell(u: Tree, g: Tree, i: nat, d: Data)
    requires i < Size(u) == Size(g) && PathTo(u, i) == PathTo(g, i) && SameForm(u, g)
    ensures var c := SetData(g, PathTo(u, i), d);
            Size(c) == Size(u) && FlatT(c)[i].id == At(u, PathTo(u, i)).id && FlatT(c)[i].data == d
  {
    SetDataFlat(g, PathTo(u, i), d);
    NodeCell(u, PathTo(u, i));
    assert SameSpot(FlatT(u)[i], FlatT(g)[i]);
  }

  lemma LeadRole(l: Tree, split: bool, tags: set<nat>, c: Tree, i: nat)
    requires i < Size(c) && FlatT(c)[i].id == l.id && FlatT(c)[i].data == Mark(l.data, l.id, split) && l.id !in tags
    ensures !MemberAt(c, i, tags)
  {
  }

  // ----- The whole pass -----

  lemma RecSafeAt(t: Tree, rules: Rules, tags: set<nat>, r: nat, i: nat)
    requires RecSafe(t, rules, tags) && 0 < r <= i < Size(t) && i < r + Size(At(t, PathTo(t, r)))
             && BelowRec(t, PathTo(t, r))
    requires Candidate(t, PathTo(t, i), rules) && FindsAny(t, i, rules)
    ensures !Claimed(t, r, r, rules) && (i == r ==> FlatT(t)[r].id !in tags)
  {
    hide Claimed, Candidate, FindsAny, BelowRec;
    assert Exposed(t, r, i, rules);
  }

  /** Where a class starts, the conditions for its first node hold. */
  lemma StartFree(t: Tree, u: Tree, i: nat, rules: Rules, lim: Limits, tags: set<nat>)
    requires Traced(t, u, i, tags) && FreshTree(t, lim, tags) && 0 < i < Size(t) == Size(u)
             && Sound(Untag(u, tags), lim, i)
    requires Passed(t, u, i, rules, tags) && Entered(u, i, tags) && Origin(t, u, i, i, rules)
    requires RecSafe(t, rules, tags) && TagHeads(t, tags) && Candidate(u, PathTo(u, i), rules) && Starts(u, i, rules)
    requires At(u, PathTo(u, i)).data.ref != 0 ==> BelowRec(u, PathTo(u, i))
    ensures Free(u, i, tags)
  {
    hide *;
    StartsFinds(t, u, i, rules, lim, tags);
    TracedForm(t, u, i, tags);
    FormBack(t, u);
    FormIndex(t, u, i);
    FormIndexSize(t, u, i);
    CandidateForm(u, t, PathTo(u, i), rules);
    NodeSize(u, i);
    var c := FlatT(Untag(u, tags));
    UntagFlatT(u, tags);
    StartOwn(t, u, i, rules, lim, tags);
    forall a: nat | 0 < a < i && a < Size(u) && i < a + Size(At(u, PathTo(u, a))) ensures !MemberAt(u, a, tags) {
      if MemberAt(u, a, tags) {
        EnteredAt(u, i, tags, a);
        FormIndex(t, u, a);
        FormIndexSize(t, u, a);
        BelowForm(u, t, PathTo(u, a));
        RecSafeAt(t, rules, tags, a, i);
        PassedAt(t, u, i, rules, tags, a);
      }
    }
    OpenThus(u, i, tags, lim);
    FreeThus(u, i, tags);
  }

  lemma EnteredAt(u: Tree, i: nat, tags: set<nat>, a: nat)
    requires Entered(u, i, tags) && 0 < a < i && a < Size(u) && i < a + Size(At(u, PathTo(u, a)))
             && MemberAt(u, a, tags)
    ensures BelowRec(u, PathTo(u, a))
  {
  }

  lemma PassedAt(t: Tree, u: Tree, i: nat, rules: Rules, tags: set<nat>, a: nat)
    requires Passed(t, u, i, rules, tags) && a < i && a < Size(u) && MemberAt(u, a, tags)
    ensures Claimed(t, a, a, rules)
  {
  }

  lemma OpenThus(u: Tree, i: nat, tags: set<nat>, lim: Limits)
    requires i < Size(u) && Sound(Untag(u, tags), lim, i)
    requires forall a: nat :: 0 < a < i && a < Size(u) && i < a + Size(At(u, PathTo(u, a))) ==> !MemberAt(u, a, tags)
    ensures OpenAt(FlatT(Untag(u, tags)), i)
  {
    var c := FlatT(Untag(u, tags));
    UntagFlatT(u, tags);
    hide Sound, At, PathTo, FlatT, Untag, MemberAt;
    forall a | 0 <= a < |c| && a < i <= a + c[a].desc ensures RoleOf(c[a].id, c[a].data) != Member {
      NodeSize(u, a);
      if a == 0 { RootNoMember(Untag(u, tags), lim, i); } else { MemberIs(u, a, tags); }
    }
  }

  lemma MemberIs(u: Tree, a: nat, tags: set<nat>)
    requires a < Size(u)
    ensures Size(Untag(u, tags)) == Size(u)
            && MemberAt(u, a, tags) == (RoleOf(FlatT(Untag(u, tags))[a].id, FlatT(Untag(u, tags))[a].data) == Member)
  {
    UntagFlatT(u, tags);
  }

  lemma RootNoMember(u: Tree, lim: Limits, i: nat)
    requires Sound(u, lim, i)
    ensures RoleOf(FlatT(u)[0].id, FlatT(u)[0].data) != Member
  {
  }

  lemma FreeThus(u: Tree, i: nat, tags: set<nat>)
    requires i < Size(u) && At(u, PathTo(u, i)).id !in tags && Untagged(At(u, PathTo(u, i)).data, tags).ref == 0
    requires OpenAt(FlatT(Untag(u, tags)), i)
    ensures Free(u, i, tags)
  {
    UntagFlatT(u, tags);
    NodeCell(u, PathTo(u, i));
  }

  lemma StartOwn(t: Tree, u: Tree, i: nat, rules: Rules, lim: Limits, tags: set<nat>)
    requires Traced(t, u, i, tags) && FreshTree(t, lim, tags) && 0 < i < Size(t) == Size(u)
             && Sound(Untag(u, tags), lim, i)
    requires Origin(t, u, i, i, rules) && RecSafe(t, rules, tags) && TagHeads(t, tags)
    requires PathTo(t, i) == PathTo(u, i) && Candidate(t, PathTo(t, i), rules) && FindsAny(t, i, rules)
    requires At(u, PathTo(u, i)).data.ref != 0 ==> BelowRec(u, PathTo(u, i))
    ensures var l := At(u, PathTo(u, i)); l.id !in tags && Untagged(l.data, tags).ref == 0
  {
    var l := At(u, PathTo(u, i));
    NodeSize(t, i);
    NodeSize(u, i);
    OwnCell(t, u, i, lim, tags);
    hide Candidate, FindsAny, BelowRec, Claimed, FlatT, At, PathTo, Size, Sound, RecSafe, Untag, FreshTree;
    TracedForm(t, u, i, tags);
    assert SameSpot(FlatT(t)[i], FlatT(u)[i]) by { FormSpot(t, u, i); }
    if l.data.ref != 0 {
      BelowForm(u, t, PathTo(u, i)) by { FormBack(t, u); }
      RecSafeAt(t, rules, tags, i, i);
    }
  }

  lemma FormSpot(t: Tree, u: Tree, i: nat)
    requires SameForm(t, u) && i < Size(t)
    ensures i < Size(u) && SameSpot(FlatT(t)[i], FlatT(u)[i])
  {
  }

  /** What is known of a node without looking further. */
  lemma OwnCell(t: Tree, u: Tree, i: nat, lim: Limits, tags: set<nat>)
    requires Traced(t, u, i, tags) && FreshTree(t, lim, tags) && i < Size(t) == Size(u) && TagHeads(t, tags)
    ensures var x, y := FlatT(t)[i], FlatT(u)[i];
            && (y.data.typ != Leafref && Untagged(y.data, tags).ref != 0 ==> x != y && y.data.ref != 0)
            && (x.id in tags ==> y.data.ref != 0)
  {
    var x, y := FlatT(t)[i], FlatT(u)[i];
    assert MarkingConditions.Kept(x, y, tags);
    assert FreshCell(x, lim, tags);
  }

  lemma {:induction false} CleanRun(t: Tree, u: Tree, i: nat, rules: Rules, lim: Limits, tags: set<nat>)
    requires Traced(t, u, i, tags) && FreshTree(t, lim, tags) && Numbered(t) && 0 < i <= Size(u) == Size(t)
    requires Passed(t, u, i, rules, tags) && Entered(u, i, tags) && Origin(t, u, i, i, rules)
    requires RecSafe(t, rules, tags) && TagHeads(t, tags) && Sound(Untag(u, tags), lim, i)
             && Guarded(u, rules, lim.refs)
    ensures Clean(u, i, rules, tags)
    decreases Size(u) - i
  {
    hide Traced, FreshTree, Numbered, Passed, Entered, Origin, RecSafe, TagHeads, Sound, Guarded, MarkClass,
         Candidate, At, PathTo, Pos,
      FlatT, SameForm, Starts, Free, BelowRec, Untag, MemberAt;
    if i < Size(u) {
      var q := PathTo(u, i);
      PosBound(u, q);
      TracedLater(t, u, i, tags);
      MarkPass(Untag(u, tags), i, lim);
      if At(u, q).data.ref != 0 && !BelowRec(u, q) {
        var k := i + Size(At(u, q));
        PassedNext(t, u, i, rules, lim, tags, k);
        EnteredSkip(u, i, tags);
        OriginLater(t, u, i, i, rules, k, k);
        CleanRun(t, u, k, rules, lim, tags);
      } else if !Candidate(u, q, rules) {
        PassedNext(t, u, i, rules, lim, tags, i + 1);
        if MemberAt(u, i, tags) { PlainMember(u, i, tags); }
        EnteredNext(u, i, tags);
        OriginLater(t, u, i, i, rules, i + 1, i + 1);
        CleanRun(t, u, i + 1, rules, lim, tags);
      } else {
        CleanClass(t, u, i, rules, lim, tags);
        CleanRun(t, MarkClass(u, i, rules).0, i + 1, rules, lim, tags);
      }
    }
  }

  lemma PlainMember(u: Tree, i: nat, tags: set<nat>)
    requires i < Size(u) && MemberAt(u, i, tags)
    ensures At(u, PathTo(u, i)).data.ref != 0
  {
    NodeCell(u, PathTo(u, i));
  }

  /** One class. */
  lemma CleanClass(t: Tree, u: Tree, i: nat, rules: Rules, lim: Limits, tags: set<nat>)
    requires Traced(t, u, i, tags) && FreshTree(t, lim, tags) && Numbered(t) && 0 < i < Size(u) == Size(t)
    requires Passed(t, u, i, rules, tags) && Entered(u, i, tags) && Origin(t, u, i, i, rules)
    requires RecSafe(t, rules, tags) && TagHeads(t, tags) && Sound(Untag(u, tags), lim, i)
             && Guarded(u, rules, lim.refs)
    requires Candidate(u, PathTo(u, i), rules)
    requires At(u, PathTo(u, i)).data.ref != 0 ==> BelowRec(u, PathTo(u, i))
    ensures Starts(u, i, rules) ==> Free(u, i, tags)
    ensures var c := MarkClass(u, i, rules).0;
            && Traced(t, c, i + 1, tags) && Size(c) == Size(u) && Passed(t, c, i + 1, rules, tags)
               && Entered(c, i + 1, tags)
            && Origin(t, c, i + 1, i + 1, rules) && Sound(Untag(c, tags), lim, i + 1) && Guarded(c, rules, lim.refs)
  {
    hide *;
    var c := MarkClass(u, i, rules).0;
    if Starts(u, i, rules) { StartFree(t, u, i, rules, lim, tags); }
    TracedForm(t, u, i, tags);
    NumberedNode(t, u, i);
    CandidateApart(u, i, rules, lim.refs);
    ClassTrend(u, i, rules, lim, tags);
    ClassOrigin(t, u, i, rules, lim, tags);
    FormTyp(u, c);
    GuardedForm(u, c, rules, lim.refs);
    forall a: nat | a < i ensures FlatT(c)[a] == FlatT(u)[a] { ClassBefore(u, i, rules, a); }
    EnteredMove(u, c, i, tags);
    if Starts(u, i, rules) {
      FreeParts(u, i, tags);
      CandidateTyp(u, PathTo(u, i), rules);
      LeadNoMember(u, i, rules, tags);
    } else if MemberAt(c, i, tags) {
      PassedNext(t, u, i, rules, lim, tags, i + 1);
      PassedAt(t, u, i + 1, rules, tags, i);
      PlainMember(u, i, tags);
    }
    PassedMove(t, u, c, i, rules, tags);
    EnteredNext(c, i, tags);
  }

  lemma CandidateTyp(t: Tree, q: Path, rules: Rules)
    requires q != [] && ValidPath(t, q) && Candidate(t, q, rules)
    ensures At(t, q).data.typ != Leafref
  {
    hide Restricted;
  }

  /** The condition on the tree before the pass suffices. */
  lemma SafeClean(t: Tree, lim: Limits, tags: set<nat>, rules: Rules)
    requires Unmarked(t, lim, tags, rules) && RecSafe(t, rules, tags) && TagHeads(t, tags)
    ensures Clean(t, 1, rules, tags)
  {
    hide *;
    UnmarkedParts(t, lim, tags, rules);
    UnmarkedSound(t, lim, tags, rules);
    UnmarkedGuard(t, lim, tags, rules);
    TracedSelf(t, tags);
    OriginSelf(t, rules);
    NothingPassed(t, rules, lim, tags);
    CleanRun(t, t, 1, rules, lim, tags);
  }

  lemma NothingPassed(t: Tree, rules: Rules, lim: Limits, tags: set<nat>)
    requires Sound(Untag(t, tags), lim, 1)
    ensures Passed(t, t, 1, rules, tags) && Entered(t, 1, tags) && Size(t) >= 1
  {
    MemberIs(t, 0, tags);
    RootNoMember(Untag(t, tags), lim, 1);
  }

  /** Marking trees of recursive lenses, with all conditions on the tree before the pass. */
  lemma SafeKeepsMeaning(t: Tree, lim: Limits, tags: set<nat>, rules: Rules)
    requires Unmarked(t, lim, tags, rules) && RecSafe(t, rules, tags) && TagHeads(t, tags)
    ensures var r := MarkFrom(t, 1, rules);
            && WellMarked(Untag(r.0, tags), lim.ids, lim.refs)
            && (Meaning(Untag(r.0, tags)) == Meaning(Untag(t, tags)) <==> !r.1)
            && (Unmixed(t, rules) ==> !r.1)
  {
    hide *;
    SafeClean(t, lim, tags, rules);
    MarkingKeepsMeaning(t, lim, tags, rules);
    if Unmixed(t, rules) {
      UnmarkedParts(t, lim, tags, rules);
      TracedSelf(t, tags);
      MarkUnmixed(t, t, 1, rules, lim, tags);
    }
  }
}
