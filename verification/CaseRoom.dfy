/** How many nodes a merge inserts before it deletes any, and how long the space reserved for the pass lasts. */
module CaseRoom {
  import opened YNodes
  import opened RoseTree
  import opened CaseMerging
  import opened CaseCounts
  import opened CaseMerges
  import opened CaseRuns
  import opened CaseSteps
  import opened CasePass
  import opened CaseTidy
  import opened CaseLoose
  import Links = TreeLinks

  // ----- Insertions of one merge -----

  /** ay_ynode_case_insert inserts a case around several siblings that do not begin with one. */
  function Wrapped(f: seq<Tree>): nat
    requires f != []
  {
    if IsCase(f[0]) || |f| == 1 then 0 else 1
  }

  /** The cases that ay_ynode_merge_nodes inserts when siblings join others. */
  function NewCases(f: seq<Tree>, g: seq<Tree>): (k: nat)
    requires f != []
    ensures k <= 2
  {
    if g == [] then 0
    else (if InChoice(f) then 0 else Wrapped(f)) + (if InChoice(g) then 0 else Wrapped(g))
  }

  /** With the wrapper that is deleted again. */
  function HighestJoin(f: seq<Tree>, g: seq<Tree>): (k: nat)
    requires f != []
    ensures k <= 2
  {
    NewCases(f, g) + if g != [] && InChoice(g) then 1 else 0
  }

  /** A wrapper for children that are moved as they are. */
  function Carrier(g: seq<Tree>): nat {
    if |g| > 1 then 1 else 0
  }

  /** The nodes that are inserted for the children of the first nodes, and stay. */
  function FirstCases(x: Tree, y: Tree): (k: nat)
    ensures k <= 2
  {
    if x.kids != [] then NewCases(x.kids, y.kids) else 0
  }

  /** And for what is behind the first nodes. */
  function RestCases(a: Tree, b: Tree): (k: nat)
    requires Sound(a) && Sound(b)
    ensures k <= 2
  {
    if IsCase(a) && IsCase(b) then (if Rest(a) == [] then 0 else NewCases(Rest(a), Rest(b)))
    else if IsCase(b) then 1
    else 0
  }

  /** The most nodes that a merge has in the array beyond those before it. */
  function Highest(a: Tree, b: Tree): (k: nat)
    requires Sound(a) && Sound(b)
    ensures k <= 4
  {
    var x, y := First(a), First(b);
    var k := if x.kids != [] then HighestJoin(x.kids, y.kids) else Carrier(y.kids);
    var m := if IsCase(a) && IsCase(b) then (if Rest(a) == [] then 0 else HighestJoin(Rest(a), Rest(b)))
             else if IsCase(b) then 1 + Carrier(Rest(b))
             else 0;
    if k > FirstCases(x, y) + m then k else FirstCases(x, y) + m
  }

  /** What is left of the second branch to be deleted at the end, unless nodes are dropped. */
  function Left(b: Tree): nat {
    if IsCase(b) then 2 else 1
  }

  // ----- Sizes -----

  lemma {:induction false} RedoneSize(f: seq<Tree>, g: seq<Tree>)
    requires RedoneF(f, g)
    ensures SizeF(g) == SizeF(f)
    decreases |f|
  {
    if f != [] {
      assert RedoneF(f[1..], g[1..]);
      assert Redone(f[0], g[0]);
      RedoneSize(f[1..], g[1..]);
    }
  }

  lemma OneSize(t: Tree)
    ensures SizeF([t]) == Size(t)
  {
    assert [t][1..] == [];
  }

  lemma SplitSize(f: seq<Tree>, k: nat)
    requires k <= |f|
    ensures SizeF(f) == SizeF(f[..k]) + SizeF(f[k..])
  {
    assert f == f[..k] + f[k..];
    SizeConcat(f[..k], f[k..]);
  }

  lemma StyleSizes(f: seq<Tree>, fs: set<Flag>, w: Option<When>, c: Option<nat>)
    ensures SizeF(FlagAt(f, fs)) == SizeF(f) && SizeF(WhenAt(f, w)) == SizeF(f)
    ensures SizeF(AllChosen(f, c)) == SizeF(f) && SizeF(Arrived(f)) == SizeF(f)
  {
    StylesRedone(f, fs, w, c);
    hide RedoneF, FlagAt, WhenAt, AllChosen, Arrived;
    RedoneSize(f, FlagAt(f, fs));
    RedoneSize(f, WhenAt(f, w));
    RedoneSize(f, AllChosen(f, c));
    RedoneSize(f, Arrived(f));
  }

  lemma InsertSize(f: seq<Tree>, c: Option<nat>, n: nat)
    requires f != []
    ensures SizeF(CaseInsert(f, c, n)) == SizeF(f) + Wrapped(f)
  {
    if !IsCase(f[0]) {
      var x := if c.None? || f[0].data.choice.None? then Flagged(f[0], {ChoiceCreated}) else f[0];
      if |f| > 1 {
        var g := [Timed(x, None)] + f[1..];
        assert RedoneF(f, g);
        RedoneSize(f, g);
        OneSize(CaseInsert(f, c, n)[0]);
      } else {
        assert RedoneF(f, CaseInsert(f, c, n));
        RedoneSize(f, CaseInsert(f, c, n));
      }
    }
  }

  /** Only the first node of what case_insert leaves is moved. */
  lemma FirstOnlySize(g: seq<Tree>, c: Option<nat>, n: nat)
    requires g != []
    ensures var s := SizeF(CaseInsert(g, c, n)[..1]);
            if IsCase(g[0]) && |g| > 1 then s < SizeF(g) else s == SizeF(g) + Wrapped(g)
  {
    var r := CaseInsert(g, c, n);
    InsertSize(g, c, n);
    if IsCase(g[0]) && |g| > 1 {
      SplitSize(g, 1);
    } else {
      assert r[..1] == r;
    }
  }

  lemma JoinedSize(f: seq<Tree>, g: seq<Tree>, n: nat)
    requires f != []
    ensures var s, k := SizeF(Joined(f, g, n)), SizeF(f) + SizeF(g) + NewCases(f, g);
            if Drops(g) then s < k else s == k
  {
    hide CaseInsert, AllChosen, InChoice;
    if g == [] {
    } else if InChoice(f) && InChoice(g) {
      StyleSizes(g, {}, None, f[0].data.choice);
      SizeConcat(f, AllChosen(g, f[0].data.choice));
    } else if InChoice(f) {
      var c := f[0].data.choice;
      FirstOnlySize(g, c, n + 1);
      SizeConcat(f, CaseInsert(g, c, n + 1)[..1]);
    } else if InChoice(g) {
      var a := CaseInsert(f, g[0].data.choice, n);
      InsertSize(f, g[0].data.choice, n);
      SplitSize(a, 1);
      SizeConcat(a[..1] + g, a[1..]);
      SizeConcat(a[..1], g);
    } else {
      InsertSize(f, None, n);
      FirstOnlySize(g, None, n + 1);
      SizeConcat(CaseInsert(f, None, n), CaseInsert(g, None, n + 1)[..1]);
    }
  }

  /** A when does not change how siblings join. */
  lemma TimedJoin(f: seq<Tree>, g: seq<Tree>, w: Option<When>, w': Option<When>)
    ensures WhenAt(f, w) == [] <==> f == []
    ensures WhenAt(g, w') == [] <==> g == []
    ensures f != [] ==> NewCases(WhenAt(f, w), WhenAt(g, w')) == NewCases(f, g)
    ensures Drops(WhenAt(g, w')) == Drops(g)
  {
    TimedChoice(f, w);
    TimedChoice(g, w');
    hide InChoice;
  }

  lemma TimedChoice(f: seq<Tree>, w: Option<When>)
    ensures var g := WhenAt(f, w);
            && |g| == |f|
            && (f != [] ==> InChoice(g) == InChoice(f) && IsCase(g[0]) == IsCase(f[0]) && Wrapped(g) == Wrapped(f))
  {
    var g := WhenAt(f, w);
    if f != [] {
      assert forall i :: 0 <= i < |f| ==> g[i].data.choice == f[i].data.choice;
    }
  }

  /** The children of the merged first node. */
  lemma MergedKids(x: Tree, y: Tree, target: bool, n: nat)
    ensures var f, g := WhenAt(x.kids, When1(x, y)), WhenAt(y.kids, When2(x, y));
            var fs := if ValueInChoice in FirstData(x, y, target).flags then {} else {ChoiceMandFalse};
            var r := MergeFirst(x, y, target, n);
            && Size(r) == 1 + SizeF(r.kids) && Size(x) == 1 + SizeF(x.kids) && Size(y) == 1 + SizeF(y.kids)
            && r.kids == (if g == [] then FlagAt(f, fs)
                          else if f == [] then FlagAt(Arrived(g), fs)
                          else Joined(f, g, n))
  {
    hide WhenAt, FlagAt, Arrived, Joined, When1, When2, ValueFlags, FirstData;
  }

  lemma FirstSize(x: Tree, y: Tree, target: bool, n: nat)
    ensures var s, k := Size(MergeFirst(x, y, target, n)) + 1, Size(x) + Size(y) + FirstCases(x, y);
            if x.kids != [] && Drops(y.kids) then s < k else s == k
  {
    hide *;
    var f, g := WhenAt(x.kids, When1(x, y)), WhenAt(y.kids, When2(x, y));
    var fs := if ValueInChoice in FirstData(x, y, target).flags then {} else {ChoiceMandFalse};
    MergedKids(x, y, target, n);
    FirstCasesIs(x, y);
    TimedJoin(x.kids, y.kids, When1(x, y), When2(x, y));
    StyleSizes(x.kids, {}, When1(x, y), None);
    StyleSizes(y.kids, {}, When2(x, y), None);
    if g == [] {
      StyleSizes(f, fs, None, None);
    } else if f == [] {
      StyleSizes(g, {}, None, None);
      StyleSizes(Arrived(g), fs, None, None);
    } else {
      JoinedSize(f, g, n);
    }
  }

  lemma FirstCasesIs(x: Tree, y: Tree)
    ensures FirstCases(x, y) == if x.kids == [] || y.kids == [] then 0 else NewCases(x.kids, y.kids)
    ensures SizeF([]) == 0 && !Drops([])
  {
  }

  lemma NoDrops()
    ensures !Drops([])
  {
  }

  lemma CaseSize(t: Tree, x: Tree, f: seq<Tree>)
    requires t.kids == [x] + f
    ensures Size(t) == 1 + Size(x) + SizeF(f)
  {
    SizeConcat([x], f);
    OneSize(x);
  }

  /** What is behind the first nodes when both branches are cases. */
  lemma BehindSize(a: Tree, b: Tree, n: nat)
    requires Sound(a) && Sound(b) && IsCase(a) && IsCase(b) && (Rest(a) != [] || Rest(b) == [])
    ensures var s, k := SizeF(Behind(a, b, n)), SizeF(Rest(a)) + SizeF(Rest(b)) + RestCases(a, b);
            if Rest(a) != [] && Drops(Rest(b)) then s < k else s == k
  {
    var w, w' := When1(First(a), First(b)), When2(First(a), First(b));
    TimedJoin(Rest(a), Rest(b), w, w');
    StyleSizes(Rest(a), {}, w, None);
    StyleSizes(Rest(b), {}, w', None);
    hide WhenAt, Joined, When1, When2, Drops, NewCases, First;
    if Rest(b) == [] {
      NoDrops();
    } else {
      JoinedSize(WhenAt(Rest(a), w), WhenAt(Rest(b), w'), n + 2);
    }
  }

  /**
   A merge leaves the nodes of both branches and the inserted cases, but for the first node of the second branch and the
   case it is in; fewer exactly if it drops nodes.
  */
  lemma MergeSize(a: Tree, b: Tree, n: nat)
    requires Sound(a) && Sound(b) && !Fails(a, b)
    ensures var s, k := Size(MergeBranches(a, b, n)) + Left(b),
            Size(a) + Size(b) + FirstCases(First(a), First(b)) + RestCases(a, b);
            if Loses(a, b) then s < k else s == k
  {
    FirstSize(First(a), First(b), Target(a, b), n);
    BranchesAre(a, b, n);
    FirstSound(a);
    FirstSound(b);
    hide *;
    var x, r := MergeFirst(First(a), First(b), Target(a, b), n), MergeBranches(a, b, n);
    var w, w' := When1(First(a), First(b)), When2(First(a), First(b));
    SidesAre(a, b);
    if IsCase(a) { CaseSize(a, First(a), Rest(a)); }
    if IsCase(b) { CaseSize(b, First(b), Rest(b)); }
    if IsCase(a) && IsCase(b) {
      BehindSize(a, b, n);
      CaseSize(r, x, Behind(a, b, n));
    } else if IsCase(a) {
      StyleSizes(Rest(a), {}, w, None);
      StyleSizes(WhenAt(Rest(a), w), {ChoiceMandFalse}, None, None);
      CaseSize(r, x, FlagAt(WhenAt(Rest(a), w), {ChoiceMandFalse}));
    } else if IsCase(b) {
      StyleSizes(Rest(b), {}, w', None);
      StyleSizes(WhenAt(Rest(b), w'), {}, None, None);
      ChosenSize(x);
      CaseSize(r, Chosen(x, None), Arrived(WhenAt(Rest(b), w')));
    }
  }

  lemma ChosenSize(x: Tree)
    ensures Size(Chosen(x, None)) == Size(x)
  {
  }

  lemma SidesAre(a: Tree, b: Tree)
    requires Sound(a) && Sound(b)
    ensures Loses(a, b) == ((First(a).kids != [] && Drops(First(b).kids))
            || (IsCase(a) && IsCase(b) && Rest(a) != [] && Drops(Rest(b))))
    ensures Left(b) == (if IsCase(b) then 2 else 1) && (!IsCase(b) ==> RestCases(a, b) == 0)
            && (IsCase(b) && !IsCase(a) ==> RestCases(a, b) == 1)
  {
  }

  lemma UnionSize(a: Tree, b: Tree, n: nat)
    requires Sound(a) && Sound(b) && !Blocked(a, b)
    ensures Size(Union(a, b, n)) <= Size(a) + Size(b) + 2
  {
    if Repeats(a, b) {
    } else if SameBut(a, b) {
      FirstSound(a);
      hide SameBut, Repeats, Fails, Loses, MergeBranches, Sound;
      if IsCase(a) {
        CaseSize(a, First(a), Rest(a));
        CaseSize(Valued(a, b), Revalued(First(a), First(b)), Rest(a));
      }
    } else {
      MergeSize(a, b, n);
      hide SameBut, Repeats, Fails, Loses, MergeBranches, Sound;
    }
  }

  // ----- Sizes of steps -----

  lemma KidSize(t: Tree, i: nat, c: Tree)
    requires i < |t.kids|
    ensures Size(t.(kids := t.kids[i := c])) + Size(t.kids[i]) == Size(t) + Size(c)
  {
    KidParts(t.kids, i, c);
    SizeThree(t.kids[..i], [t.kids[i]], t.kids[i + 1..]);
    SizeThree(t.kids[..i], [c], t.kids[i + 1..]);
    OneSize(c);
    OneSize(t.kids[i]);
  }

  lemma SizeThree(f: seq<Tree>, g: seq<Tree>, h: seq<Tree>)
    ensures SizeF(f + g + h) == SizeF(f) + SizeF(g) + SizeF(h)
  {
    SizeConcat(f + g, h);
    SizeConcat(f, g);
  }

  lemma FusedSize(f: seq<Tree>, i: nat, j: nat, r: Tree)
    requires i < j < |f|
    ensures SizeF(Fused(f, i, j, r)) + Size(f[i]) + Size(f[j]) == SizeF(f) + Size(r)
  {
    var stray := if IsCase(r) && !IsCase(f[i]) then {ChoiceMandFalse} else {};
    var m := FlagAt(f[i + 1..j], stray);
    StyleSizes(f[i + 1..j], stray, None, None);
    SplitSize(f, i);
    SplitSize(f[i..], 1);
    SplitSize(f[i + 1..], j - i - 1);
    SplitSize(f[j..], 1);
    assert f[i..][1..] == f[i + 1..] && f[i + 1..][..j - i - 1] == f[i + 1..j] && f[i + 1..][j - i - 1..] == f[j..];
    assert f[i..][..1] == [f[i]] && f[j..][..1] == [f[j]] && f[j..][1..] == f[j + 1..];
    OneSize(f[i]);
    OneSize(f[j]);
    OneSize(r);
    SizeThree(f[..i], [r], m);
    SizeConcat(f[..i] + [r] + m, f[j + 1..]);
    hide SizeF, Size;
  }

  lemma ReleasedSize(t: Tree)
    ensures SizeF(Released(t)) == SizeF(t.kids)
  {
    assert RedoneF(t.kids, Released(t));
    RedoneSize(t.kids, Released(t));
  }

  lemma SettleSize(f: seq<Tree>, i: nat)
    requires i < |f|
    ensures SizeF(Settle(f, i)) <= SizeF(f)
  {
    hide Alone, Untimed, Released;
    if Alone(f, i) {
      if IsCase(f[i]) {
        var g := f[..i] + Released(f[i]) + f[i + 1..];
        ReleasedSize(f[i]);
        KidParts(f, i, f[i]);
        OneSize(f[i]);
        SizeThree(f[..i], [f[i]], f[i + 1..]);
        SizeThree(f[..i], Released(f[i]), f[i + 1..]);
        FreedSizes(g, i);
      } else {
        OutSize(f, i);
      }
    }
  }

  lemma UntimedSize(f: seq<Tree>, i: nat)
    ensures SizeF(Untimed(f, i)) == SizeF(f)
  {
    assert RedoneF(f, Untimed(f, i));
    RedoneSize(f, Untimed(f, i));
  }

  lemma OutSize(f: seq<Tree>, i: nat)
    requires i < |f|
    ensures SizeF(Untimed(f[i := Chosen(f[i], None)], i)) == SizeF(f)
  {
    assert RedoneF(f, f[i := Chosen(f[i], None)]);
    RedoneSize(f, f[i := Chosen(f[i], None)]);
    UntimedSize(f[i := Chosen(f[i], None)], i);
  }

  lemma FreedSizes(g: seq<Tree>, i: nat)
    ensures SizeF(Untimed(if |g| == 1 then [Chosen(g[0], None)] else g, i)) == SizeF(g)
  {
    if |g| == 1 {
      assert RedoneF(g, [Chosen(g[0], None)]);
      RedoneSize(g, [Chosen(g[0], None)]);
    }
    UntimedSize(if |g| == 1 then [Chosen(g[0], None)] else g, i);
  }

  lemma StepAtSize(t: Tree, i: nat, j: nat, n: nat)
    requires SoundF(t.kids) && Partners(t.kids, i, j) && !Blocked(t.kids[i], t.kids[j])
    ensures Size(StepTree(t, i, j, n)) <= Size(t) + 2
  {
    var f := t.kids;
    SoundKids(t, i);
    SoundKids(t, j);
    UnionSize(f[i], f[j], n);
    var r := Union(f[i], f[j], n);
    hide Union, Fused, Settle, Sound, SoundF, Blocked, Partners;
    FusedSize(f, i, j, r);
    SettleSize(Fused(f, i, j, r), i);
  }

  /** No step leaves more than two nodes more. */
  lemma {:induction false} StepSize(t: Tree, u: Tree, lost: bool)
    requires SoundF(t.kids) && Step(t, u, lost)
    ensures Size(u) <= Size(t) + 2
    decreases t
  {
    hide Sound, SoundF, Partners, Blocked, Drop, StepTree;
    if exists i: nat, j: nat, n: nat :: StepAt(t, u, lost, i, j, n) {
      var i: nat, j: nat, n: nat :| StepAt(t, u, lost, i, j, n);
      StepAtSize(t, i, j, n);
    } else {
      var i: nat :| StepBelow(t, u, lost, i);
      SoundKids(t, i);
      StepSize(t.kids[i], u.kids[i], lost);
      KidSize(t, i, u.kids[i]);
    }
  }

  // ----- Space -----

  /** The most nodes that the array holds while two branches merge that may merge next. */
  function HighestOf(a: Tree, b: Tree): (k: nat)
    requires Sound(a) && Sound(b)
    ensures k <= 4
  {
    if Repeats(a, b) || SameBut(a, b) then 0 else Highest(a, b)
  }

  predicate FillsHere(t: Tree, p: nat, i: nat, j: nat)
    requires SoundF(t.kids)
  {
    Partners(t.kids, i, j) && (SoundKids(t, i); SoundKids(t, j); p == Size(t) + HighestOf(t.kids[i], t.kids[j]))
  }

  /** Some merge that may come next, anywhere below, has `p` nodes in the array. */
  ghost predicate Fills(t: Tree, p: nat)
    requires SoundF(t.kids)
  {
    || (exists i: nat, j: nat :: FillsHere(t, p, i, j))
    || (exists i: nat, q: nat :: FillsBelow(t, p, i, q))
  }

  ghost predicate FillsBelow(t: Tree, p: nat, i: nat, q: nat)
    requires SoundF(t.kids)
  {
    i < |t.kids| && (SoundKids(t, i); Fills(t.kids[i], q)) && p + Size(t.kids[i]) == Size(t) + q
  }

  lemma FillsAt(t: Tree, p: nat, i: nat, j: nat)
    requires SoundF(t.kids) && FillsHere(t, p, i, j)
    ensures p <= Size(t) + 4
  {
    SoundKids(t, i);
    SoundKids(t, j);
    assert p == Size(t) + HighestOf(t.kids[i], t.kids[j]);
  }

  lemma {:induction false} FillsFour(t: Tree, p: nat)
    requires SoundF(t.kids) && Fills(t, p)
    ensures p <= Size(t) + 4
    decreases t
  {
    hide Sound, SoundF, Partners, HighestOf;
    if exists i: nat, j: nat :: FillsHere(t, p, i, j) {
      var i: nat, j: nat :| FillsHere(t, p, i, j);
      FillsAt(t, p, i, j);
    } else {
      var i: nat, q: nat :| FillsBelow(t, p, i, q);
      SoundKids(t, i);
      FillsFour(t.kids[i], q);
    }
  }

  /** A sequence of merges, anywhere and in any order. */
  ghost predicate Run(s: seq<Tree>) {
    && (forall k :: 0 <= k < |s| ==> SoundF(s[k].kids))
    && forall k :: 0 <= k < |s| - 1 ==> Step(s[k], s[k + 1], false) || Step(s[k], s[k + 1], true)
  }

  lemma {:induction false} RunSize(s: seq<Tree>, k: nat)
    requires Run(s) && k < |s|
    ensures Size(s[k]) <= Size(s[0]) + 2 * k
    decreases k
  {
    hide Step, SoundF;
    if k > 0 {
      RunSize(s, k - 1);
      assert Step(s[k - 1], s[k - 1 + 1], false) || Step(s[k - 1], s[k - 1 + 1], true);
      StepSize(s[k - 1], s[k], Step(s[k - 1], s[k], true));
    }
  }

  // ----- The reserved space -----

  predicate Mergeable(a: Tree, b: Tree) {
    a.data.when.None? && b.data.when.None? && Matching(a, b)
  }

  /** ay_ynode_rule_merge_cases: the branches from `j` on that may be merged with the one at `i`. */
  function Row(f: seq<Tree>, i: nat, j: nat): nat
    requires i < |f|
    decreases |f| - j
  {
    if j >= |f| || f[j].data.choice != f[i].data.choice then 0
    else Bit(Mergeable(f[i], f[j])) + Row(f, i, j + 1)
  }

  function Rows(f: seq<Tree>, i: nat): nat
    decreases |f| - i
  {
    if i >= |f| then 0
    else (if f[i].data.choice.None? then 0 else Row(f, i, i + 1)) + Rows(f, i + 1)
  }

  /** The pairs of branches in the whole tree that may be merged. */
  function Matches(t: Tree): nat
    decreases t, 1
  {
    Rows(t.kids, 0) + MatchesF(t.kids)
  }

  function MatchesF(f: seq<Tree>): nat
    decreases f, 0
  {
    if f == [] then 0 else Matches(f[0]) + MatchesF(f[1..])
  }

  lemma {:induction false} RowNone(f: seq<Tree>, i: nat, j: nat)
    requires SoundF(f) && i < j <= |f| && f[i].data.choice.Some?
    requires forall k :: i < k < j ==> f[k].data.choice == f[i].data.choice
    ensures Row(f, i, j) == 0 <==> forall k: nat :: j <= k ==> !Partners(f, i, k)
    decreases |f| - j
  {
    hide Matching, SoundF;
    if j < |f| && f[j].data.choice == f[i].data.choice {
      RowNone(f, i, j + 1);
      assert Partners(f, i, j) == Mergeable(f[i], f[j]);
    }
  }

  lemma {:induction false} RowsNone(f: seq<Tree>, i: nat)
    requires SoundF(f)
    ensures Rows(f, i) == 0 <==> forall k: nat, j: nat :: i <= k ==> !Partners(f, k, j)
    decreases |f| - i
  {
    if i < |f| {
      RowsNone(f, i + 1);
      if f[i].data.choice.Some? { RowNone(f, i, i + 1); }
      hide SoundF, Matching;
      assert forall j: nat :: j <= i ==> !Partners(f, i, j);
    }
  }

  /** The program skips the pass if it counts nothing, and then nothing is to be done. */
  lemma {:induction false} NoMatches(t: Tree)
    requires SoundF(t.kids)
    ensures Matches(t) == 0 <==> Settled(t)
    decreases t, 1
  {
    RowsNone(t.kids, 0);
    NoMatchesF(t.kids);
    hide Partners, SoundF;
  }

  lemma {:induction false} NoMatchesF(f: seq<Tree>)
    requires SoundF(f)
    ensures MatchesF(f) == 0 <==> forall i :: 0 <= i < |f| ==> (SoundNode(f[i]); Settled(f[i]))
    decreases f, 0
  {
    if f != [] {
      SoundNode(f[0]);
      NoMatches(f[0]);
      NoMatchesF(f[1..]);
      hide Settled, Matches, Sound;
      if forall i :: 0 <= i < |f| ==> (SoundNode(f[i]); Settled(f[i])) {
        forall i | 0 <= i < |f[1..]| ensures (SoundNode(f[1..][i]); Settled(f[1..][i])) {
          assert f[1..][i] == f[i + 1];
        }
      } else {
        var i :| 0 <= i < |f| && !(SoundNode(f[i]); Settled(f[i]));
        if i > 0 { assert f[i] == f[1..][i - 1]; }
      }
    }
  }

  /** Four nodes for each such pair are enough for the first merge, and for two more merges with each pair more. */
  lemma ReserveLasts(s: seq<Tree>, k: nat, p: nat)
    requires Run(s) && k < |s| && SoundF(s[k].kids) && Fills(s[k], p) && k + 2 <= 2 * Matches(s[0])
    ensures p <= Size(s[0]) + 4 * Matches(s[0])
  {
    RunSize(s, k);
    FillsFour(s[k], p);
  }

  // ----- Space for a whole run -----

  /** With two children or more in every case there are fewer cases than other nodes. */
  lemma {:induction false} TidySize(t: Tree)
    requires Tidy(t)
    ensures Size(t) < 2 * Plain(t)
    decreases t, 1
  {
    ForestSize(t.kids);
    CaseKids(t);
  }

  lemma {:induction false} ForestSize(f: seq<Tree>)
    requires forall i :: 0 <= i < |f| ==> Tidy(f[i])
    ensures SizeF(f) + |f| <= 2 * PlainF(f)
    decreases f, 0
  {
    if f != [] {
      TidySize(f[0]);
      ForestSize(f[1..]);
    }
  }

  lemma {:induction false} LooseSize(f: seq<Tree>)
    requires Loose(f)
    ensures SizeF(f) + |f| <= 2 * PlainF(f)
    decreases f
  {
    if f != [] {
      LooseAt(f, 0);
      if IsCase(f[0]) || f[0].data.choice.Some? { TidySize(f[0]); } else { LooseSize(f[0].kids); }
      LooseSize(f[1..]);
    }
  }

  lemma {:induction false} StepsTidy(t: Tree, u: Tree, lost: bool)
    requires SoundF(t.kids) && Step(t, u, lost) && TidyF(t.kids)
    ensures TidyF(u.kids) && u.data == t.data && (CaseList(t.kids) ==> CaseList(u.kids))
    decreases t
  {
    hide Sound, SoundF, TidyF, Partners, Blocked, Drop, StepTree;
    StepBetter(t, u, lost);
    if exists i: nat, j: nat, n: nat :: StepAt(t, u, lost, i, j, n) {
      var i: nat, j: nat, n: nat :| StepAt(t, u, lost, i, j, n);
      StepTidy(t, i, j, n);
    } else {
      var i: nat :| StepBelow(t, u, lost, i);
      SoundKids(t, i);
      KidTidy(t.kids, i);
      CaseKids(t.kids[i]);
      StepsTidy(t.kids[i], u.kids[i], lost);
      ChildTidy(t.kids[i], u.kids[i]);
      OneTidy(t.kids, i, u.kids[i]);
    }
  }

  lemma OneTidy(f: seq<Tree>, i: nat, c: Tree)
    requires TidyF(f) && i < |f| && Tidy(c) && Like(f[i], c)
    ensures TidyF(f[i := c]) && (CaseList(f) ==> CaseList(f[i := c]))
  {
    hide Tidy, InOrder;
    OrderKept(f, f[i := c]);
  }

  /** A step anywhere leaves a loose tree loose. */
  lemma {:induction false} StepsLoose(t: Tree, u: Tree, lost: bool)
    requires SoundF(t.kids) && Step(t, u, lost) && Loose(t.kids)
    ensures Loose(u.kids)
    decreases t
  {
    hide Sound, SoundF, Loose, LooseNode, Tidy, Partners, Blocked, Drop, StepTree;
    if exists i: nat, j: nat, n: nat :: StepAt(t, u, lost, i, j, n) {
      var i: nat, j: nat, n: nat :| StepAt(t, u, lost, i, j, n);
      StepLoose(t, i, j, n);
    } else {
      var i: nat :| StepBelow(t, u, lost, i);
      SoundKids(t, i);
      LooseKid(t.kids, i);
      var k, c := t.kids[i], u.kids[i];
      StepBetter(k, c, lost);
      if IsCase(k) || k.data.choice.Some? {
        CaseKids(k);
        StepsTidy(k, c, lost);
        ChildTidy(k, c);
        TidyLoose(c);
      } else {
        StepsLoose(k, c, lost);
        LooseThus(c);
      }
      OneLoose(t.kids, i, c);
    }
  }

  lemma LooseKid(f: seq<Tree>, i: nat)
    requires Loose(f) && i < |f|
    ensures if IsCase(f[i]) || f[i].data.choice.Some? then Tidy(f[i]) else Loose(f[i].kids)
  {
    assert LooseNode(f[i]);
  }

  lemma LooseThus(t: Tree)
    requires !IsCase(t) && t.data.choice.None? && Loose(t.kids)
    ensures LooseNode(t)
  {
  }

  lemma OneLoose(f: seq<Tree>, i: nat, c: Tree)
    requires Loose(f) && i < |f| && LooseNode(c)
    ensures Loose(f[i := c])
  {
    hide LooseNode;
  }

  lemma {:induction false} RunLoose(s: seq<Tree>, k: nat)
    requires Run(s) && k < |s| && Loose(s[0].kids)
    ensures Loose(s[k].kids) && Plain(s[k]) <= Plain(s[0]) && (k > 0 ==> s[k].data == s[0].data)
    decreases k
  {
    hide Step, SoundF, Loose, Plain, Under, Nested, Depth, Chain, Kept;
    if k > 0 {
      RunLoose(s, k - 1);
      assert Step(s[k - 1], s[k - 1 + 1], false) || Step(s[k - 1], s[k - 1 + 1], true);
      var lost := Step(s[k - 1], s[k], true);
      StepsLoose(s[k - 1], s[k], lost);
      StepBetter(s[k - 1], s[k], lost);
    }
  }

  /** With tidy branches twice the number of nodes that are no cases is enough for the whole pass, and three more. */
  lemma RunRoom(s: seq<Tree>, k: nat, p: nat)
    requires Run(s) && k < |s| && Loose(s[0].kids) && !IsCase(s[0]) && SoundF(s[k].kids) && Fills(s[k], p)
    ensures p <= 2 * Plain(s[0]) + 3
  {
    RunLoose(s, k);
    FillsFour(s[k], p);
    LooseSize(s[k].kids);
    hide Run, Loose, SoundF, Fills;
  }
}
