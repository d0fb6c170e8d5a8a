/** One merge of two branches: what is kept, and why it is progress. */
module CaseMerges {
  import opened YNodes
  import opened RoseTree
  import opened CaseMerging
  import opened CaseCounts

  /** The branches begin with the same label, or both with none. */
  predicate Matching(a: Tree, b: Tree) {
    Sound(a) && Sound(b) && First(a).data.labelLens == First(b).data.labelLens
  }

  lemma MatchingIs(a: Tree, b: Tree)
    requires Matching(a, b)
    ensures Sound(a) && Sound(b) && First(a).data.labelLens == First(b).data.labelLens
  {
  }

  lemma FirstSound(a: Tree)
    requires Sound(a)
    ensures Sound(First(a)) && SoundF(Rest(a))
    ensures if IsCase(a) then a.kids == [First(a)] + Rest(a) && a.data.labelLens == None
            else First(a) == a && Rest(a) == []
  {
    SoundNode(a);
    if IsCase(a) { SoundSplit(a.kids, 1); }
  }

  // ----- First nodes -----

  /** The children of both first nodes come together. */
  lemma FirstCounts(x: Tree, y: Tree, target: bool, n: nat)
    requires Sound(x) && Sound(y)
    ensures var r := MergeFirst(x, y, target, n);
            && Sound(r) && IsCase(r) == IsCase(x) && r.id == x.id && r.data.labelLens == x.data.labelLens
            && (x.kids != [] ==> HeadKept(r.kids, x.kids))
            && if x.kids != [] && Drops(y.kids) then Less(r.kids, x.kids, y.kids) else Adds(r.kids, x.kids, y.kids)
  {
    SoundNode(x);
    SoundNode(y);
    SoundNode(MergeFirst(x, y, target, n));
    hide Sound, SoundF, PlainF, UnderF, NestedF, DepthF, AmongF, Head, Joined, FlagAt, WhenAt, Arrived, Drops, When1,
         When2, ValueFlags;
    var f, g := WhenAt(x.kids, When1(x, y)), WhenAt(y.kids, When2(x, y));
    WhenAtSame(x.kids, When1(x, y));
    WhenAtSame(y.kids, When2(x, y));
    var fs := if ValueInChoice in FirstData(x, y, target).flags then {} else {ChoiceMandFalse};
    if g == [] {
      FlagAtSame(f, fs);
      NoKids(FlagAt(f, fs), x.kids);
    } else if f == [] {
      ArrivedSame(g);
      FlagAtSame(Arrived(g), fs);
      OnlyKids(FlagAt(Arrived(g), fs), y.kids);
    } else {
      JoinedCounts(f, g, n);
      SameParts(Joined(f, g, n), f, g, x.kids, y.kids);
    }
  }

  lemma NoKids(r: seq<Tree>, f: seq<Tree>)
    requires SameCounts(r, f) && |r| == |f| && Head(r) == Head(f)
    ensures Adds(r, f, []) && (f != [] ==> HeadKept(r, f)) && !Drops([])
  {
    CountNone();
    if f != [] { HeadIs(f); }
  }

  lemma OnlyKids(r: seq<Tree>, g: seq<Tree>)
    requires SameCounts(r, g)
    ensures Adds(r, [], g)
  {
    CountNone();
  }

  lemma SameParts(r: seq<Tree>, f: seq<Tree>, g: seq<Tree>, f': seq<Tree>, g': seq<Tree>)
    requires SameCounts(f, f') && SameCounts(g, g') && f != [] && f' != [] && IsCase(f[0]) == IsCase(f'[0])
             && Head(f) == Head(f')
    ensures Adds(r, f, g) ==> Adds(r, f', g')
    ensures Less(r, f, g) ==> Less(r, f', g')
    ensures HeadKept(r, f) ==> HeadKept(r, f')
  {
    hide PlainF, UnderF, NestedF, DepthF, AmongF, Head;
  }

  /** What a merge adds up to; only a first node that is no case goes. */
  ghost predicate Sum(r: Tree, a: Tree, b: Tree, y: Tree, loses: bool) {
    && (if loses then Plain(r) + Gone(y) < Plain(a) + Plain(b) else Plain(r) + Gone(y) == Plain(a) + Plain(b))
    && Contents(r, a, b, y, loses)
  }

  /** Every node stays or goes. */
  ghost predicate Contents(r: Tree, a: Tree, b: Tree, y: Tree, loses: bool) {
    forall q :: if loses then Among(r, q) + Bit(Answers(q, y)) <= Among(a, q) + Among(b, q)
                else Among(r, q) + Bit(Answers(q, y)) == Among(a, q) + Among(b, q)
  }

  function Gone(y: Tree): nat {
    Bit(!IsCase(y))
  }

  /** The merged first node against both first nodes. */
  lemma FirstMerged(x: Tree, y: Tree, target: bool, n: nat)
    requires Sound(x) && Sound(y)
    ensures var r, l := MergeFirst(x, y, target, n), x.kids != [] && Drops(y.kids);
            && Sound(r) && IsCase(r) == IsCase(x) && r.id == x.id && r.data.labelLens == x.data.labelLens
            && (if l then Plain(r) + Gone(y) < Plain(x) + Plain(y) else Plain(r) + Gone(y) == Plain(x) + Plain(y))
            && (!l && IsCase(y) && !IsCase(x) ==> Under(r) > Under(x) + Under(y))
            && (!l && IsCase(y) && IsCase(x) ==>
                  && Under(r) == Under(x) + Under(y)
                  && Nested(r) + Bit(Head(x.kids) > 0) + Bit(Head(y.kids) > 0) ==
                     Nested(x) + Nested(y) + Bit(Head(r.kids) > 0)
                  && Depth(r) + Head(x.kids) + Head(y.kids) == Depth(x) + Depth(y) + Head(r.kids)
                  && Chain(r) == Head(r.kids) && Chain(x) == Head(x.kids) && Chain(y) == Head(y.kids)
                  && (Head(x.kids) > 0 ==> Head(r.kids) == Head(x.kids)) && (Head(x.kids) == 0 ==> Head(r.kids) <= 1))
  {
    var r := MergeFirst(x, y, target, n);
    FirstCounts(x, y, target, n);
    NumbersAre(x);
    NumbersAre(y);
    NumbersAre(r);
    SoundNode(x);
    hide MergeFirst, PlainF, UnderF, NestedF, DepthF, AmongF, Head, Plain, Under, Nested, Depth, Among, Chain,
         Drops, SoundF;
    if IsCase(y) { SomePlainF(y.kids); }
    if x.kids != [] { HeadIs(x.kids); }
  }

  lemma NumbersAre(t: Tree)
    ensures Plain(t) == Gone(t) + PlainF(t.kids)
            && Under(t) == (if IsCase(t) then 0 else PlainF(t.kids)) + UnderF(t.kids)
    ensures Chain(t) == (if IsCase(t) then Head(t.kids) else 0)
    ensures Nested(t) == Bit(Chain(t) > 0) + NestedF(t.kids) && Depth(t) == Chain(t) + DepthF(t.kids)
  {
  }

  /** The same for the nodes themselves. */
  lemma FirstContents(x: Tree, y: Tree, target: bool, n: nat)
    requires Sound(x) && Sound(y)
    ensures Contents(MergeFirst(x, y, target, n), x, y, y, x.kids != [] && Drops(y.kids))
  {
    var r := MergeFirst(x, y, target, n);
    FirstCounts(x, y, target, n);
    CountNode(x);
    CountNode(y);
    CountNode(r);
    hide Sound, MergeFirst, PlainF, UnderF, NestedF, DepthF, AmongF, Head, Plain, Under, Nested, Depth, Among,
         Chain, Drops;
    forall q ensures Answers(q, r) == Answers(q, x) { }
  }

  // ----- Two branches -----

  /** Fewer cases begin with a case, or the same number in longer chains. */
  ghost predicate Tighter(r: Tree, a: Tree, b: Tree) {
    && IsCase(a) && IsCase(r) && Under(r) == Under(a) + Under(b)
    && (|| Nested(r) < Nested(a) + Nested(b)
        || (Nested(r) == Nested(a) + Nested(b) && Depth(r) > Depth(a) + Depth(b) && Chain(r) >= Chain(a)))
  }

  /** The sum, and what happens if both branches begin with a case or only the second one does. */
  ghost predicate Merged(r: Tree, a: Tree, b: Tree, loses: bool)
    requires Matching(a, b)
  {
    && Sound(r) && Sum(r, a, b, First(b), loses)
    && (!loses && IsCase(First(b)) ==> Under(r) > Under(a) + Under(b) || Tighter(r, a, b))
  }

  lemma MergedIs(r: Tree, a: Tree, b: Tree, loses: bool)
    requires Matching(a, b)
    ensures Merged(r, a, b, loses) <==>
              && Sound(r) && Sum(r, a, b, First(b), loses)
              && (!loses && IsCase(First(b)) ==> Under(r) > Under(a) + Under(b) || Tighter(r, a, b))
  {
  }

  lemma SumIs(r: Tree, a: Tree, b: Tree, y: Tree, loses: bool)
    ensures Sum(r, a, b, y, loses) <==>
              && (if loses then Plain(r) + Gone(y) < Plain(a) + Plain(b) else Plain(r) + Gone(y) == Plain(a) + Plain(b))
              && Contents(r, a, b, y, loses)
  {
  }

  lemma TighterIs(r: Tree, a: Tree, b: Tree)
    ensures Tighter(r, a, b) <==>
              && IsCase(a) && IsCase(r) && Under(r) == Under(a) + Under(b)
              && (|| Nested(r) < Nested(a) + Nested(b)
                  || (Nested(r) == Nested(a) + Nested(b) && Depth(r) > Depth(a) + Depth(b) && Chain(r) >= Chain(a)))
  {
  }

  lemma LosesIs(a: Tree, b: Tree)
    requires Sound(a) && Sound(b)
    ensures Loses(a, b) <==>
              || (First(a).kids != [] && Drops(First(b).kids))
              || (IsCase(a) && Rest(a) != [] && Drops(Rest(b)))
    ensures !IsCase(b) ==> !Drops(Rest(b))
  {
  }

  lemma AddsIs(r: seq<Tree>, f: seq<Tree>, g: seq<Tree>)
    ensures Adds(r, f, g) ==>
              && PlainF(r) == PlainF(f) + PlainF(g) && UnderF(r) == UnderF(f) + UnderF(g)
              && NestedF(r) == NestedF(f) + NestedF(g) && DepthF(r) == DepthF(f) + DepthF(g)
    ensures Less(r, f, g) ==> PlainF(r) < PlainF(f) + PlainF(g)
  {
  }

  /** A case by its first child and the others. */
  lemma CaseParts(t: Tree, x: Tree, r: seq<Tree>)
    requires IsCase(t) && t.data.labelLens == None && t.kids == [x] + r && Sound(x) && SoundF(r)
    ensures Sound(t) && First(t) == x && Rest(t) == r
    ensures Plain(t) == Plain(x) + PlainF(r) && (forall q :: Among(t, q) == Among(x, q) + AmongF(r, q))
    ensures Under(t) == Under(x) + UnderF(r)
    ensures Chain(t) == (if IsCase(x) then 1 + Chain(x) else 0)
    ensures Nested(t) == Bit(IsCase(x)) + Nested(x) + NestedF(r) && Depth(t) == Chain(t) + Depth(x) + DepthF(r)
  {
    assert t.kids[0] == x && t.kids[1..] == r;
    CountNode(t);
    KidsSplit(t.kids);
    hide SoundF, PlainF, UnderF, NestedF, DepthF, AmongF, Head, Plain, Under, Nested, Depth, Among, Chain;
  }

  /** What stands behind the first nodes of two cases. */
  function Behind(a: Tree, b: Tree, n: nat): seq<Tree>
    requires Sound(a) && Sound(b)
  {
    var f, g := WhenAt(Rest(a), When1(First(a), First(b))), WhenAt(Rest(b), When2(First(a), First(b)));
    if g == [] then f else if f == [] then [] else Joined(f, g, n + 2)
  }

  lemma BehindCounts(a: Tree, b: Tree, n: nat)
    requires Sound(a) && Sound(b) && (Rest(a) != [] || Rest(b) == [])
    ensures var r := Behind(a, b, n);
            SoundF(r)
            && if Rest(a) != [] && Drops(Rest(b)) then Less(r, Rest(a), Rest(b)) else Adds(r, Rest(a), Rest(b))
  {
    FirstSound(a);
    FirstSound(b);
    hide Sound, SoundF, First, Rest, PlainF, UnderF, NestedF, DepthF, AmongF, Head, Joined, WhenAt, When1, When2, Drops;
    var w1, w2 := When1(First(a), First(b)), When2(First(a), First(b));
    var f, g := WhenAt(Rest(a), w1), WhenAt(Rest(b), w2);
    WhenAtSame(Rest(a), w1);
    WhenAtSame(Rest(b), w2);
    if g == [] {
      NoKids(f, Rest(a));
    } else {
      JoinedCounts(f, g, n + 2);
      SameParts(Joined(f, g, n + 2), f, g, Rest(a), Rest(b));
    }
  }

  lemma BranchesAre(a: Tree, b: Tree, n: nat)
    requires Sound(a) && Sound(b) && !Fails(a, b)
    ensures var r, x := MergeBranches(a, b, n), MergeFirst(First(a), First(b), Target(a, b), n);
            && (IsCase(a) && IsCase(b) ==>
               IsCase(r) && r.data.labelLens == None && r.kids == [x] + Behind(a, b, n)
                 && (Rest(a) != [] || Rest(b) == []))
            && (IsCase(a) && !IsCase(b) ==>
                  IsCase(r) && r.data.labelLens == None
                    && r.kids == [x] + FlagAt(WhenAt(Rest(a), When1(First(a), First(b))), {ChoiceMandFalse}))
            && (!IsCase(a) && IsCase(b) ==>
                  IsCase(r) && r.data.labelLens == None
                    && r.kids == [Chosen(x, None)] + Arrived(WhenAt(Rest(b), When2(First(a), First(b)))))
            && (!IsCase(a) && !IsCase(b) ==> r == x)
            && (r.data.choice == a.data.choice)
  {
    hide MergeFirst, Joined, FlagAt, WhenAt, Arrived, When1, When2, WhenFails, Target;
    FirstSound(a);
    WhenAtSame(Rest(a), When1(First(a), First(b)));
    WhenAtSame(Rest(b), When2(First(a), First(b)));
    assert MergeFirst(First(a), First(b), Target(a, b), n).data.choice == First(a).data.choice
           by { ChoiceStays(First(a), First(b), Target(a, b), n); }
  }

  lemma ChoiceStays(x: Tree, y: Tree, target: bool, n: nat)
    ensures MergeFirst(x, y, target, n).data.choice == x.data.choice
  {
  }

  /** Nodes of a case, from those of its first child and of the others. */
  lemma CaseContents(r: Tree, m: Tree, s: seq<Tree>, a: Tree, x: Tree, f: seq<Tree>, b: Tree, y: Tree, g: seq<Tree>,
                     l: bool, l': bool)
    requires Contents(m, x, y, y, l) && if l' then Less(s, f, g) else Adds(s, f, g)
    requires forall q :: Among(r, q) == Among(m, q) + AmongF(s, q)
    requires forall q :: Among(a, q) == Among(x, q) + AmongF(f, q)
    requires forall q :: Among(b, q) == Among(y, q) + AmongF(g, q)
    ensures Contents(r, a, b, y, l || l')
  {
    hide Among, AmongF, Answers, Plain, PlainF, Under, UnderF, Nested, NestedF, Depth, DepthF;
    forall q
      ensures if l || l' then Among(r, q) + Bit(Answers(q, y)) <= Among(a, q) + Among(b, q)
              else Among(r, q) + Bit(Answers(q, y)) == Among(a, q) + Among(b, q)
    {
      assert if l then Among(m, q) + Bit(Answers(q, y)) <= Among(x, q) + Among(y, q)
             else Among(m, q) + Bit(Answers(q, y)) == Among(x, q) + Among(y, q);
      assert if l' then AmongF(s, q) <= AmongF(f, q) + AmongF(g, q) else AmongF(s, q) == AmongF(f, q) + AmongF(g, q);
    }
  }

  /** Two cases. */
  lemma CaseCase(a: Tree, b: Tree, n: nat)
    requires Matching(a, b) && !Fails(a, b) && IsCase(a) && IsCase(b)
    ensures Merged(MergeBranches(a, b, n), a, b, Loses(a, b)) && IsCase(MergeBranches(a, b, n))
  {
    hide *;
    MatchingIs(a, b);
    FirstSound(a);
    FirstSound(b);
    BranchesAre(a, b, n);
    var x, y, r := First(a), First(b), MergeBranches(a, b, n);
    var m, s := MergeFirst(x, y, Target(a, b), n), Behind(a, b, n);
    FirstMerged(x, y, Target(a, b), n);
    FirstContents(x, y, Target(a, b), n);
    BehindCounts(a, b, n);
    CaseParts(a, x, Rest(a));
    CaseParts(b, y, Rest(b));
    CaseParts(r, m, s);
    LosesIs(a, b);
    AddsIs(s, Rest(a), Rest(b));
    CaseContents(r, m, s, a, x, Rest(a), b, y, Rest(b), x.kids != [] && Drops(y.kids), Rest(a) != [] && Drops(Rest(b)));
    SumIs(r, a, b, y, Loses(a, b));
    TighterIs(r, a, b);
    MergedIs(r, a, b, Loses(a, b));
    BitIs();
  }

  lemma BitIs()
    ensures Bit(true) == 1 && Bit(false) == 0
  {
  }

  /** A case and a node that is none. */
  lemma CasePlain(a: Tree, b: Tree, n: nat)
    requires Matching(a, b) && !Fails(a, b) && IsCase(a) && !IsCase(b)
    ensures Merged(MergeBranches(a, b, n), a, b, Loses(a, b)) && IsCase(MergeBranches(a, b, n))
  {
    hide *;
    MatchingIs(a, b);
    FirstSound(a);
    FirstSound(b);
    BranchesAre(a, b, n);
    var x, r, f := First(a), MergeBranches(a, b, n), Rest(a);
    var w := When1(x, b);
    var m, s := MergeFirst(x, b, Target(a, b), n), FlagAt(WhenAt(f, w), {ChoiceMandFalse});
    FirstMerged(x, b, Target(a, b), n);
    WhenAtSame(f, w);
    FlagAtSame(WhenAt(f, w), {ChoiceMandFalse});
    SameIs(WhenAt(f, w), f);
    SameIs(s, WhenAt(f, w));
    CaseParts(a, x, f);
    CaseParts(r, m, s);
    LosesIs(a, b);
    FirstContents(x, b, Target(a, b), n);
    NoKids(s, f);
    CountNone();
    CaseContents(r, m, s, a, x, f, b, b, [], x.kids != [] && Drops(b.kids), false);
    SumIs(r, a, b, b, Loses(a, b));
    MergedIs(r, a, b, Loses(a, b));
  }

  lemma SameIs(r: seq<Tree>, f: seq<Tree>)
    requires SameCounts(r, f)
    ensures PlainF(r) == PlainF(f) && UnderF(r) == UnderF(f)
  {
  }

  /** A node that is no case and a case: the first one becomes a case, with the rest of the second one in it. */
  lemma PlainCase(a: Tree, b: Tree, n: nat)
    requires Matching(a, b) && !Fails(a, b) && !IsCase(a) && IsCase(b)
    ensures Merged(MergeBranches(a, b, n), a, b, Loses(a, b)) && IsCase(MergeBranches(a, b, n))
  {
    hide *;
    MatchingIs(a, b);
    FirstSound(a);
    FirstSound(b);
    BranchesAre(a, b, n);
    var y, r, g := First(b), MergeBranches(a, b, n), Rest(b);
    var w := When2(a, y);
    var m := MergeFirst(a, y, Target(a, b), n);
    var x, s := Chosen(m, None), Arrived(WhenAt(g, w));
    FirstMerged(a, y, Target(a, b), n);
    ChosenRedone(m);
    RedoneSame(m, x);
    WhenAtSame(g, w);
    ArrivedSame(WhenAt(g, w));
    SameIs(WhenAt(g, w), g);
    SameIs(s, WhenAt(g, w));
    CaseParts(b, y, g);
    CaseParts(r, x, s);
    LosesIs(a, b);
    FirstContents(a, y, Target(a, b), n);
    OnlyKids(s, g);
    CountNone();
    CaseContents(r, m, s, a, a, [], b, y, g, a.kids != [] && Drops(y.kids), false);
    SumIs(r, a, b, y, Loses(a, b));
    MergedIs(r, a, b, Loses(a, b));
  }

  lemma ChosenRedone(t: Tree)
    ensures Redone(t, Chosen(t, None))
  {
  }

  /** Two nodes that are no cases. */
  lemma PlainPlain(a: Tree, b: Tree, n: nat)
    requires Matching(a, b) && !Fails(a, b) && !IsCase(a) && !IsCase(b)
    ensures Merged(MergeBranches(a, b, n), a, b, Loses(a, b)) && !IsCase(MergeBranches(a, b, n))
  {
    hide *;
    MatchingIs(a, b);
    FirstSound(a);
    FirstSound(b);
    BranchesAre(a, b, n);
    FirstMerged(a, b, Target(a, b), n);
    FirstContents(a, b, Target(a, b), n);
    SumIs(MergeBranches(a, b, n), a, b, b, Loses(a, b));
    LosesIs(a, b);
    MergedIs(MergeBranches(a, b, n), a, b, Loses(a, b));
  }

  /**
   One merge. Unless it drops nodes behind a case, the labels stay, and every node that is no case stays except the
   first one of the second branch. If that one is a case, nodes come to lie below others, or cases become tighter.
  */
  lemma MergeCounts(a: Tree, b: Tree, n: nat)
    requires Matching(a, b) && !Fails(a, b)
    ensures Merged(MergeBranches(a, b, n), a, b, Loses(a, b))
    ensures IsCase(MergeBranches(a, b, n)) <==> IsCase(a) || IsCase(b)
  {
    hide Merged, MergeBranches, Loses, Matching, Fails;
    if IsCase(a) && IsCase(b) {
      CaseCase(a, b, n);
    } else if IsCase(a) {
      CasePlain(a, b, n);
    } else if IsCase(b) {
      PlainCase(a, b, n);
    } else {
      PlainPlain(a, b, n);
    }
  }
}
