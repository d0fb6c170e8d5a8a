/** A condition on the tree before the pass under which no merge fails or drops nodes. */
module CaseTidy {
  import opened YNodes
  import opened RoseTree
  import opened CaseMerging
  import opened CaseCounts
  import opened CaseMerges
  import opened CaseRuns
  import opened CaseSteps
  import opened CasePass

  // ----- Tidy trees -----

  /** The nodes in front that are in no choice. */
  function Lead(f: seq<Tree>): (k: nat)
    ensures k <= |f| && (k < |f| ==> f[k].data.choice.Some?)
    ensures forall i :: 0 <= i < k ==> f[i].data.choice.None?
  {
    if f == [] || f[0].data.choice.Some? then 0
    else
      var k := Lead(f[1..]);
      assert forall i :: 0 < i < k + 1 ==> f[i] == f[1..][i - 1];
      1 + k
  }

  /** In front nodes in no choice that are no cases, then at most one choice, of two branches or more. */
  predicate InOrder(f: seq<Tree>) {
    var k := Lead(f);
    && (forall i :: 0 <= i < k ==> !IsCase(f[i]))
    && (k < |f| ==> k + 2 <= |f| && InChoice(f[k..]))
  }

  /** All siblings are so, and a case begins with a node in no choice and goes on. */
  predicate Tidy(t: Tree) {
    (IsCase(t) ==> t.data.labelLens == None && CaseList(t.kids)) && TidyF(t.kids)
  }

  predicate TidyF(f: seq<Tree>) {
    InOrder(f) && forall i :: 0 <= i < |f| ==> Tidy(f[i])
  }

  predicate CaseList(f: seq<Tree>) {
    |f| >= 2 && f[0].data.choice.None?
  }

  lemma {:induction false} TidySound(t: Tree)
    requires Tidy(t)
    ensures Sound(t) && SoundF(t.kids)
    decreases t, 1
  {
    TidySoundF(t.kids);
  }

  lemma {:induction false} TidySoundF(f: seq<Tree>)
    requires TidyF(f)
    ensures SoundF(f)
    decreases f, 0
  {
    forall i | 0 <= i < |f| ensures Sound(f[i]) { TidySound(f[i]); }
  }

  /** Where the choice begins is determined. */
  lemma {:induction false} LeadIs(f: seq<Tree>, k: nat)
    requires k <= |f| && (k < |f| ==> f[k].data.choice.Some?) && forall i :: 0 <= i < k ==> f[i].data.choice.None?
    ensures Lead(f) == k
    decreases |f|
  {
    if f != [] && k > 0 {
      assert f[1..][k - 1..] == f[k..];
      LeadIs(f[1..], k - 1);
    }
  }

  lemma ChoiceFrom(f: seq<Tree>, k: nat)
    requires k < |f|
    ensures InChoice(f[k..]) <==>
            f[k].data.choice.Some? && forall i :: k <= i < |f| ==> f[i].data.choice == f[k].data.choice
  {
    if InChoice(f[k..]) {
      forall i | k <= i < |f| ensures f[i].data.choice == f[k].data.choice { assert f[i] == f[k..][i - k]; }
    }
  }

  /** Siblings in order, with the place where the choice begins. */
  lemma OrderIs(f: seq<Tree>, k: nat)
    requires k <= |f| && forall i :: 0 <= i < k ==> f[i].data.choice.None? && !IsCase(f[i])
    requires k < |f| ==>
             && k + 2 <= |f| && f[k].data.choice.Some?
             && forall i :: k <= i < |f| ==> f[i].data.choice == f[k].data.choice
    ensures InOrder(f) && Lead(f) == k
  {
    LeadIs(f, k);
    if k < |f| { ChoiceFrom(f, k); }
  }

  lemma OrderOf(f: seq<Tree>)
    requires InOrder(f)
    ensures var k := Lead(f);
            && (forall i :: 0 <= i < k ==> f[i].data.choice.None? && !IsCase(f[i]))
            && (k < |f| ==>
                  && k + 2 <= |f| && f[k].data.choice.Some?
                  && forall i :: k <= i < |f| ==> f[i].data.choice == f[k].data.choice)
  {
    if Lead(f) < |f| { ChoiceFrom(f, Lead(f)); }
  }

  // ----- What does not matter -----

  /** Other flags, whens and numbers. */
  ghost predicate Styled(t: Tree, u: Tree) {
    && u.kids == t.kids && IsCase(u) == IsCase(t) && u.data.labelLens == t.data.labelLens
       && u.data.choice == t.data.choice
  }

  ghost predicate StyledF(f: seq<Tree>, g: seq<Tree>) {
    |f| == |g| && forall i :: 0 <= i < |f| ==> Styled(f[i], g[i])
  }

  lemma StyledTidy(f: seq<Tree>, g: seq<Tree>)
    requires TidyF(f) && StyledF(f, g)
    ensures TidyF(g) && Lead(g) == Lead(f) && (CaseList(f) ==> CaseList(g))
  {
    OrderOf(f);
    hide InOrder;
    OrderIs(g, Lead(f));
    forall i | 0 <= i < |g| ensures Tidy(g[i]) { assert Styled(f[i], g[i]) && Tidy(f[i]); }
  }

  lemma StylesAre(f: seq<Tree>, fs: set<Flag>, w: Option<When>, i: nat)
    ensures StyledF(f, FlagAt(f, fs)) && StyledF(f, WhenAt(f, w)) && StyledF(f, Untimed(f, i))
  {
  }

  /** In order, the children that come alone are in no choice already. */
  lemma ArrivedTidy(g: seq<Tree>)
    requires TidyF(g)
    ensures TidyF(Arrived(g)) && Lead(Arrived(g)) == Lead(g) && |Arrived(g)| == |g|
  {
    OrderOf(g);
    StylesAre(g, {ChoiceMandFalse}, None, 0);
    hide InOrder, FlagAt;
    assert StyledF(g, Arrived(g));
    StyledTidy(g, Arrived(g));
  }

  // ----- Joining siblings -----

  lemma LeadNode(f: seq<Tree>)
    requires f != [] && InOrder(f) && !InChoice(f)
    ensures f[0].data.choice.None? && !IsCase(f[0])
  {
    OrderOf(f);
  }

  lemma InsertTidy(f: seq<Tree>, c: Option<nat>, n: nat)
    requires f != [] && TidyF(f) && !InChoice(f)
    ensures var r := CaseInsert(f, c, n); |r| == 1 && Tidy(r[0]) && r[0].data.choice == CaseChoice(c)
  {
    LeadNode(f);
    hide InOrder, Tidy, TidyF;
    var x := Flagged(f[0], {ChoiceCreated});
    var r := CaseInsert(f, c, n);
    if |f| > 1 {
      var g := [Timed(x, None)] + f[1..];
      assert StyledF(f, g);
      StyledTidy(f, g);
      assert CaseList(f);
      CaseIsTidy(r[0]);
    } else {
      assert Styled(f[0], Chosen(r[0], f[0].data.choice));
      KidTidy(f, 0);
      ChosenTidy(f[0], r[0]);
    }
  }

  lemma CaseIsTidy(t: Tree)
    requires TidyF(t.kids) && CaseList(t.kids) && t.data.labelLens == None
    ensures Tidy(t)
  {
  }

  lemma KidTidy(f: seq<Tree>, i: nat)
    requires TidyF(f) && i < |f|
    ensures Tidy(f[i])
  {
  }

  /** The choice of a node itself does not matter. */
  lemma ChosenTidy(t: Tree, u: Tree)
    requires Tidy(t) && u.kids == t.kids && IsCase(u) == IsCase(t) && u.data.labelLens == t.data.labelLens
    ensures Tidy(u)
  {
  }

  /** Siblings in one choice. */
  lemma GroupTidy(f: seq<Tree>)
    requires |f| >= 2 && InChoice(f) && forall i :: 0 <= i < |f| ==> Tidy(f[i])
    ensures TidyF(f) && Lead(f) == 0
  {
    hide Tidy;
    OrderIs(f, 0);
  }

  lemma ChoicesTidy(g: seq<Tree>, c: Option<nat>)
    requires TidyF(g)
    ensures forall i :: 0 <= i < |g| ==> Tidy(AllChosen(g, c)[i])
  {
    hide InOrder;
    forall i | 0 <= i < |g| ensures Tidy(AllChosen(g, c)[i]) { ChosenTidy(g[i], AllChosen(g, c)[i]); }
  }

  /** Joined siblings are in one choice, and all of them arrive. */
  lemma JoinedTidy(f: seq<Tree>, g: seq<Tree>, n: nat)
    requires f != [] && g != [] && TidyF(f) && TidyF(g)
    ensures var r := Joined(f, g, n); TidyF(r) && |r| >= 2 && Lead(r) == 0
    ensures !Drops(g)
  {
    DropsNot(g);
    hide Tidy, InOrder, CaseInsert, Drops;
    var r := Joined(f, g, n);
    if InChoice(f) && InChoice(g) {
      ChoicesTidy(g, f[0].data.choice);
      GroupTidy(r);
    } else if InChoice(f) {
      InsertTidy(g, f[0].data.choice, n + 1);
      assert CaseInsert(g, f[0].data.choice, n + 1)[..1] == CaseInsert(g, f[0].data.choice, n + 1);
      GroupTidy(r);
    } else if InChoice(g) {
      InsertTidy(f, g[0].data.choice, n);
      var a := CaseInsert(f, g[0].data.choice, n);
      assert a[..1] == a && a[1..] == [];
      GroupTidy(r);
    } else {
      InsertTidy(f, None, n);
      InsertTidy(g, None, n + 1);
      assert CaseInsert(g, None, n + 1)[..1] == CaseInsert(g, None, n + 1);
      GroupTidy(r);
    }
  }

  lemma DropsNot(g: seq<Tree>)
    requires TidyF(g)
    ensures !Drops(g)
  {
    OrderOf(g);
    hide InOrder, Tidy;
    if |g| > 1 && IsCase(g[0]) { assert Lead(g) == 0; }
  }

  // ----- Merging branches -----

  lemma FirstTidy(x: Tree, y: Tree, target: bool, n: nat)
    requires Tidy(x) && Tidy(y) && !IsCase(x)
    ensures Tidy(MergeFirst(x, y, target, n)) && !IsCase(MergeFirst(x, y, target, n))
  {
    hide InOrder, Joined, FlagAt, WhenAt, Arrived, When1, When2, ValueFlags, Drops;
    var r := MergeFirst(x, y, target, n);
    var f, g := WhenAt(x.kids, When1(x, y)), WhenAt(y.kids, When2(x, y));
    var fs := if ValueInChoice in FirstData(x, y, target).flags then {} else {ChoiceMandFalse};
    StylesAre(x.kids, {}, When1(x, y), 0);
    StylesAre(y.kids, {}, When2(x, y), 0);
    StyledTidy(x.kids, f);
    StyledTidy(y.kids, g);
    hide Tidy;
    if g == [] {
      StylesAre(f, fs, None, 0);
      StyledTidy(f, FlagAt(f, fs));
    } else if f == [] {
      ArrivedTidy(g);
      StylesAre(Arrived(g), fs, None, 0);
      StyledTidy(Arrived(g), FlagAt(Arrived(g), fs));
    } else {
      JoinedTidy(f, g, n);
    }
    PlainTidy(r);
  }

  lemma PlainTidy(t: Tree)
    requires !IsCase(t) && TidyF(t.kids)
    ensures Tidy(t)
  {
  }

  /** A tidy branch from its first node on. */
  lemma BranchParts(a: Tree)
    requires Tidy(a)
    ensures Sound(a) && Tidy(First(a)) && !IsCase(First(a)) && TidyF(Rest(a))
    ensures IsCase(a) ==>
            Rest(a) != [] && First(a).data.choice == None && a.data.labelLens == None && a.kids == [First(a)] + Rest(a)
    ensures !IsCase(a) ==> First(a) == a && Rest(a) == []
  {
    TidySound(a);
    if IsCase(a) {
      var f := a.kids;
      OrderOf(f);
      assert Lead(f) > 0;
      forall i | 0 <= i < |f[1..]| ensures f[1..][i] == f[i + 1] { }
      OrderIs(f[1..], Lead(f) - 1);
    } else {
      OrderIs([], 0);
    }
  }

  /** A node in no choice in front. */
  lemma InFront(x: Tree, f: seq<Tree>)
    requires Tidy(x) && !IsCase(x) && x.data.choice.None? && TidyF(f) && f != []
    ensures TidyF([x] + f) && CaseList([x] + f)
  {
    OrderOf(f);
    hide InOrder, Tidy;
    OrderIs([x] + f, Lead(f) + 1);
  }

  lemma NeverFails(a: Tree, b: Tree)
    requires Tidy(a) && Tidy(b)
    ensures Sound(a) && Sound(b) && !Blocked(a, b) && !Drop(a, b)
  {
    BranchParts(a);
    BranchParts(b);
    DropsNot(Rest(b));
    BranchKids(b);
    DropsNot(First(b).kids);
    hide Tidy, Drops, Repeats, SameBut, When1, When2;
  }

  lemma BranchKids(b: Tree)
    requires Tidy(b)
    ensures Sound(b) && TidyF(First(b).kids)
  {
    BranchParts(b);
  }

  /** A merged branch is tidy and in the same choice. */
  lemma BranchTidy(a: Tree, b: Tree, n: nat)
    requires Tidy(a) && Tidy(b) && Sound(a) && Sound(b) && !Fails(a, b)
    ensures Tidy(MergeBranches(a, b, n)) && MergeBranches(a, b, n).data.choice == a.data.choice
  {
    BranchParts(a);
    BranchParts(b);
    BranchesAre(a, b, n);
    hide *;
    var x, r := MergeFirst(First(a), First(b), Target(a, b), n), MergeBranches(a, b, n);
    var w1, w2 := When1(First(a), First(b)), When2(First(a), First(b));
    var f, g := WhenAt(Rest(a), w1), WhenAt(Rest(b), w2);
    FirstTidy(First(a), First(b), Target(a, b), n);
    ChoiceStays(First(a), First(b), Target(a, b), n);
    StylesAre(Rest(a), {}, w1, 0);
    StylesAre(Rest(b), {}, w2, 0);
    StyledTidy(Rest(a), f);
    StyledTidy(Rest(b), g);
    WhenAtSame(Rest(a), w1);
    WhenAtSame(Rest(b), w2);
    if IsCase(a) && IsCase(b) {
      JoinedTidy(f, g, n + 2);
      BehindIs(a, b, n);
      InFront(x, Behind(a, b, n));
      CaseIsTidy(r);
    } else if IsCase(a) {
      StylesAre(f, {ChoiceMandFalse}, None, 0);
      StyledTidy(f, FlagAt(f, {ChoiceMandFalse}));
      FlagAtSame(f, {ChoiceMandFalse});
      InFront(x, FlagAt(f, {ChoiceMandFalse}));
      CaseIsTidy(r);
    } else if IsCase(b) {
      ArrivedTidy(g);
      ChosenIs(x);
      ChosenTidy(x, Chosen(x, None));
      InFront(Chosen(x, None), Arrived(g));
      CaseIsTidy(r);
    }
  }

  lemma ChosenIs(x: Tree)
    ensures var u := Chosen(x, None);
            u.kids == x.kids && IsCase(u) == IsCase(x) && u.data.labelLens == x.data.labelLens && u.data.choice == None
  {
  }

  lemma BehindIs(a: Tree, b: Tree, n: nat)
    requires Sound(a) && Sound(b) && Rest(a) != [] && Rest(b) != []
    ensures Behind(a, b, n) == Joined(WhenAt(Rest(a), When1(First(a), First(b))),
            WhenAt(Rest(b), When2(First(a), First(b))), n + 2)
  {
    WhenAtSame(Rest(a), When1(First(a), First(b)));
    WhenAtSame(Rest(b), When2(First(a), First(b)));
  }

  lemma UnionTidy(a: Tree, b: Tree, n: nat)
    requires Tidy(a) && Tidy(b) && Matching(a, b) && a.data.choice == b.data.choice && !Blocked(a, b)
    ensures Tidy(Union(a, b, n)) && Union(a, b, n).data.choice == a.data.choice
  {
    MatchingIs(a, b);
    hide Matching, Fails, MergeBranches, SameBut, InOrder;
    if Repeats(a, b) {
      OrderIs([], 0);
    } else if SameBut(a, b) {
      ValuedTidy(a, b);
    } else {
      BranchTidy(a, b, n);
    }
  }

  lemma ValuedTidy(a: Tree, b: Tree)
    requires Tidy(a) && Sound(a) && Sound(b)
    ensures Tidy(Valued(a, b)) && Valued(a, b).data.choice == a.data.choice
  {
    BranchParts(a);
    var x := Revalued(First(a), First(b));
    assert Styled(First(a), x);
    ChosenTidy(First(a), x);
    hide InOrder, Tidy, TidyF, Revalued, Sound;
    if IsCase(a) {
      InFront(x, Rest(a));
      CaseIsTidy(Valued(a, b));
    }
  }

  // ----- Steps -----

  /** The place among siblings where two partners are. */
  lemma PartnersInGroup(f: seq<Tree>, i: nat, j: nat)
    requires TidyF(f) && SoundF(f) && Partners(f, i, j)
    ensures Lead(f) <= i < j < |f| && Lead(f) + 2 <= |f|
            && f[j].data.choice == f[i].data.choice == f[Lead(f)].data.choice
    ensures forall k :: Lead(f) <= k < |f| ==> f[k].data.choice == f[i].data.choice
    ensures forall k :: 0 <= k < Lead(f) ==> f[k].data.choice.None? && !IsCase(f[k])
  {
    OrderOf(f);
    hide InOrder, Tidy, Matching;
  }

  /** The siblings without the second branch. */
  lemma FusedAt(f: seq<Tree>, i: nat, j: nat, r: Tree, k: nat)
    requires i < j < |f| && k < |f| - 1
    ensures var g := Fused(f, i, j, r);
            && (k == i ==> g[k] == r)
            && (k < j && k != i ==> Styled(f[k], g[k]))
            && (k >= j ==> g[k] == f[k + 1])
  {
    var stray := if IsCase(r) && !IsCase(f[i]) then {ChoiceMandFalse} else {};
    var m := FlagAt(f[i + 1..j], stray);
    if i < k < j { assert Styled(f[i + 1..j][k - i - 1], m[k - i - 1]); }
  }

  lemma SameTidy(t: Tree, u: Tree)
    requires Tidy(t) && Styled(t, u)
    ensures Tidy(u) && u.data.choice == t.data.choice && IsCase(u) == IsCase(t)
  {
  }

  /** What the siblings are with the second branch gone: the nodes in front, and the branches of the choice. */
  ghost predicate Group(g: seq<Tree>, k: nat) {
    && k < |g| && (forall i :: 0 <= i < |g| ==> Tidy(g[i]))
    && (forall i :: 0 <= i < k ==> g[i].data.choice.None? && !IsCase(g[i]))
    && g[k].data.choice.Some? && forall i :: k <= i < |g| ==> g[i].data.choice == g[k].data.choice
  }

  lemma FusedGroup(f: seq<Tree>, i: nat, j: nat, r: Tree)
    requires TidyF(f) && SoundF(f) && Partners(f, i, j) && Tidy(r) && r.data.choice == f[i].data.choice
    ensures Group(Fused(f, i, j, r), Lead(f))
  {
    PartnersInGroup(f, i, j);
    hide Tidy, InOrder, Partners, Lead, Fused;
    var g, k := Fused(f, i, j, r), Lead(f);
    forall q | 0 <= q < |g|
      ensures Tidy(g[q]) && (q < k ==> g[q].data.choice.None? && !IsCase(g[q]))
      ensures q >= k ==> g[q].data.choice == f[i].data.choice
    {
      FusedAt(f, i, j, r, q);
      if q < j && q != i { SameTidy(f[q], g[q]); }
    }
  }

  /** Freed or not, the siblings are in order again. */
  lemma SettleGroup(g: seq<Tree>, k: nat, i: nat)
    requires Group(g, k) && k <= i < |g| && |g| >= 1
    ensures TidyF(Settle(g, i)) && (k > 0 ==> CaseList(Settle(g, i)))
  {
    hide Tidy;
    if k + 2 <= |g| {
      assert !Alone(g, i) by { assert i > k ==> g[k].data.choice == g[i].data.choice; }
      OrderIs(g, k);
    } else {
      assert i == k && Alone(g, i) by { assert forall q :: 0 <= q < i ==> g[q].data.choice.None?; }
      if IsCase(g[i]) { FreedGroup(g, i); } else { LoneGroup(g, i); }
    }
  }

  /** The last branch, a node that is no case. */
  lemma LoneGroup(g: seq<Tree>, i: nat)
    requires Group(g, i) && i + 1 == |g| && !IsCase(g[i])
    ensures TidyF(Freed(g, i)) && (i > 0 ==> CaseList(Freed(g, i)))
  {
    var h := g[i := Chosen(g[i], None)];
    ChosenTidy(g[i], h[i]);
    hide Tidy;
    OrderIs(h, |h|);
    StylesAre(h, {}, None, i);
    StyledTidy(h, Untimed(h, i));
  }

  lemma ReleasedTidy(t: Tree)
    requires Tidy(t) && IsCase(t)
    ensures var c := Released(t);
            TidyF(c) && Lead(c) > 0 && CaseList(c) && forall i :: 0 <= i < |c| ==> Tidy(c[i])
  {
    CaseKids(t);
    var c := Released(t);
    assert StyledF(t.kids, c);
    hide Tidy, InOrder;
    StyledTidy(t.kids, c);
    OrderOf(c);
  }

  /** The last branch, a case. */
  lemma FreedGroup(g: seq<Tree>, i: nat)
    requires Group(g, i) && i + 1 == |g| && IsCase(g[i])
    ensures TidyF(Freed(g, i)) && CaseList(Freed(g, i))
  {
    var c := Released(g[i]);
    ReleasedTidy(g[i]);
    OrderOf(c);
    hide Tidy, InOrder, Lead, Released;
    var h := g[..i] + c + g[i + 1..];
    assert h == g[..i] + c;
    forall q | 0 <= q < |h| ensures Tidy(h[q]) {
      if q >= i { assert h[q] == c[q - i]; } else { assert h[q] == g[q]; }
    }
    OrderIs(h, i + Lead(c));
    StylesAre(h, {}, None, i);
    StyledTidy(h, Untimed(h, i));
  }

  lemma CaseKids(t: Tree)
    requires Tidy(t)
    ensures TidyF(t.kids) && (IsCase(t) ==> CaseList(t.kids))
  {
  }

  /** A merge neither fails nor drops nodes, and leaves a tidy tree. */
  lemma StepTidy(t: Tree, i: nat, j: nat, n: nat)
    requires TidyF(t.kids) && SoundF(t.kids) && Partners(t.kids, i, j)
    ensures var f := t.kids;
            && !Blocked(f[i], f[j]) && !Drop(f[i], f[j])
            && TidyF(StepTree(t, i, j, n).kids) && (CaseList(f) ==> CaseList(StepTree(t, i, j, n).kids))
  {
    var f := t.kids;
    SoundKids(t, i);
    SoundKids(t, j);
    KidTidy(f, i);
    KidTidy(f, j);
    NeverFails(f[i], f[j]);
    PartnersInGroup(f, i, j);
    UnionTidy(f[i], f[j], n);
    FusedGroup(f, i, j, Union(f[i], f[j], n));
    SettleGroup(Fused(f, i, j, Union(f[i], f[j], n)), Lead(f), i);
    hide Tidy, InOrder, Union, Fused, Settle, Sound, SoundF, Blocked, Drop;
  }

  // ----- The pass -----

  /** What a pass leaves of a tidy tree. */
  ghost predicate Fine(t: Tree, o: Outcome) {
    o.ok && !o.lost && TidyF(o.tree.kids) && (CaseList(t.kids) ==> CaseList(o.tree.kids))
  }

  lemma {:induction false} SiblingsTidy(t: Tree, i: nat, n: nat)
    requires SoundF(t.kids) && TidyF(t.kids)
    ensures Fine(t, Siblings(t, i, n))
    decreases Plain(t), Room(t), Nested(t), Slack(t), |t.kids| - i
  {
    hide TidyF, SoundF, Sound, Blocked, Drop, StepTree, Partners, Better;
    if i < |t.kids| {
      var j := PartnerOf(t.kids, i);
      if j == |t.kids| {
        SiblingsTidy(t, i + 1, n);
      } else {
        StepTidy(t, i, j, n);
        StepAtBetter(t, i, j, n);
        Descent(t, StepTree(t, i, j, n));
        SiblingsTidy(StepTree(t, i, j, n), i, n + 4);
      }
    }
  }

  lemma {:induction false} ChildrenTidy(t: Tree, n: nat)
    requires SoundF(t.kids) && TidyF(t.kids)
    ensures Fine(t, Children(t, n))
    decreases t, 1
  {
    var l := Below(t.kids, n);
    BelowTidy(t.kids, n);
    OrderKept(t.kids, l.kids);
    hide TidyF, SoundF, Sound;
    SiblingsTidy(t.(kids := l.kids), 0, l.n);
  }

  /** Other children of the same kind and choice. */
  ghost predicate Like(t: Tree, u: Tree) {
    IsCase(t) == IsCase(u) && t.data.choice == u.data.choice
  }

  lemma OrderKept(f: seq<Tree>, g: seq<Tree>)
    requires TidyF(f) && |f| == |g| && forall i :: 0 <= i < |f| ==> Tidy(g[i]) && Like(f[i], g[i])
    ensures TidyF(g) && (CaseList(f) ==> CaseList(g))
  {
    OrderOf(f);
    hide InOrder, Tidy;
    assert forall i :: 0 <= i < |f| ==> Like(f[i], g[i]);
    OrderIs(g, Lead(f));
  }

  lemma {:induction false} BelowTidy(f: seq<Tree>, n: nat)
    requires SoundF(f) && forall i :: 0 <= i < |f| ==> Tidy(f[i])
    ensures var l := Below(f, n);
            l.ok && !l.lost && forall i :: 0 <= i < |f| ==> Tidy(l.kids[i]) && Like(f[i], l.kids[i])
    decreases f, 0
  {
    if f != [] {
      SoundNode(f[0]);
      CaseKids(f[0]);
      ChildrenTidy(f[0], n);
      var c := Children(f[0], n);
      ChildTidy(f[0], c.tree);
      BelowTidy(f[1..], c.n);
      hide Tidy;
      var l := Below(f, n);
      forall i | 0 <= i < |f| ensures Tidy(l.kids[i]) && Like(f[i], l.kids[i]) {
        if i > 0 { assert l.kids[i] == Below(f[1..], c.n).kids[i - 1] && f[i] == f[1..][i - 1]; }
      }
    }
  }

  lemma ChildTidy(t: Tree, u: Tree)
    requires Tidy(t) && u.data == t.data && TidyF(u.kids) && (CaseList(t.kids) ==> CaseList(u.kids))
    ensures Tidy(u) && Like(t, u)
  {
  }

  /** In a tidy tree the pass never fails and drops nothing, and leaves a tidy tree. */
  lemma {:induction false} AllTidy(t: Tree, n: nat)
    requires TidyF(t.kids)
    ensures SoundF(t.kids) && Fine(t, All(t, n))
    decreases Plain(t), Room(t), Nested(t), Slack(t)
  {
    TidySoundF(t.kids);
    hide TidyF, SoundF, Sound, Children, Better, Kept, Ran, Plain, Room, Nested, Slack;
    ChildrenTidy(t, n);
    var o := Children(t, n);
    ChildrenRan(t, n);
    RanBetter(t, o.tree, o.merged, o.lost);
    if o.merged {
      Descent(t, o.tree);
      AllTidy(o.tree, o.n);
    }
  }
}
