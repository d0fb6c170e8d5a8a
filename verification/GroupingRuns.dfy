/** Creating the groupings of all classes, one after the other. */
module GroupingRuns {
  import opened YNodes
  import opened RoseTree
  import opened TreeLinks
  import opened TreeEdits
  import opened Expansion
  import opened Rewriting
  import opened Conversion
  import opened ConversionFacts
  import opened Groupings
  import opened GroupingSteps
  import opened KeyOrder

  /** What one class leaves behind: a tree of the same meaning, ready for the next class. */
  ghost predicate Extracted(t: Tree, q: Path, t': Tree, n': nat, refs: set<nat>)
    requires ValidPath(t, q)
  {
    && WellMarked(t', n', refs)
    && ExpandT(t', EMPTY).out == ExpandT(t, EMPTY).out
    && NeedT(t') < NeedT(t) && Size(t') + NeedT(t') <= Size(t) + NeedT(t)
    && PlainUpTo(t', Pos(t, q))
  }

  /** No marked node up to index `i`. */
  ghost predicate PlainUpTo(t: Tree, i: nat) {
    i < Size(t) && NonePending(FlatT(t)[..i + 1])
  }

  /** What may stand in place of the first node of a class. */
  ghost predicate Replaces(l: Tree, r: seq<Tree>, c: Class, refs: set<nat>, hi: nat) {
    && r != [] && NoMembers(FlatF(r), c) && All(FlatF(r), Fits(refs, hi)) && KeyedF(r)
    && (forall i :: 0 <= i < |r| ==> !IsKeyVal(r[i].data))
    && !Pending(r[0].data)
    && SizeF(r) + NeedF(r) <= Size(l) + NeedT(l) && NeedF(r) < NeedT(l)
    && c.g < hi && c.r !in refs && c.r != 0 && c.g != c.r
  }

  // ----- What is kept -----

  lemma FitsClosed(c: Class, refs: set<nat>, hi: nat, lo: nat, m: nat)
    requires c.g < hi && c.r !in refs && c.r != 0 && m <= hi
    ensures Closed(Fits(refs, hi), c, lo, m)
  {
    var p := Fits(refs, hi);
    forall id, d | p(id, d) && InClass(c, id, d) ensures p(id, d.(ref := 0)) && p(id, TurnedData(c, d)) {
      MemberKind(id, d, c, refs, hi);
      UnmarkedFits(refs, hi, id, TurnedData(c, d));
      assert !Pending(d.(ref := 0)) && RoleOf(id, d.(ref := 0)) != Leader;
      assert p(id, d.(ref := 0));
    }
    forall id | lo <= id < m ensures p(id, UsesData(c)) {
      UnmarkedFits(refs, hi, id, UsesData(c));
    }
  }

  lemma KeepsFits(t: Tree, q: Path, r: seq<Tree>, c: Class, n: nat, n1: nat, hi: nat, refs: set<nat>)
    requires WellMarked(t, n, refs) && FirstMarked(t, q) && n <= hi && Replaces(At(t, q), r, c, refs, hi)
    requires ConvT(Put(t, q, r), c, n1).1 <= hi
    ensures All(FlatT(Put(t, q, r)), Fits(refs, hi)) && All(FlatT(ConvT(Put(t, q, r), c, n1).0), Fits(refs, hi))
  {
    hide FlatT, FlatF, Size, SizeF, All, NoMembers, ConvT, Put, At, Closed, Fits, Distinct, Keyed, NonePending,
         ExpandT, NeedT;
    FitsLater(FlatT(t), refs, n, hi);
    PutAll(t, q, r, Fits(refs, hi));
    var m := ConvT(Put(t, q, r), c, n1).1;
    FitsClosed(c, refs, hi, n1, m);
    ConvAllT(Put(t, q, r), c, n1, Fits(refs, hi), n1, m);
  }

  lemma SubDistinct(a: multiset<nat>, b: multiset<nat>)
    requires a <= b && Distinct(b)
    ensures Distinct(a)
  {
  }

  lemma KeepsNeed(t: Tree, q: Path, r: seq<Tree>, c: Class, n1: nat, hi: nat, refs: set<nat>)
    requires q != [] && ValidPath(t, q) && Replaces(At(t, q), r, c, refs, hi)
    requires All(FlatT(Put(t, q, r)), Fits(refs, hi))
    ensures var v := ConvT(Put(t, q, r), c, n1).0;
            NeedT(v) < NeedT(t) && Size(v) + NeedT(v) <= Size(t) + NeedT(t)
  {
    hide FlatT, FlatF, Size, SizeF, All, NoMembers, ConvT, Put, At, Fits, Keyed, NeedT, NeedF, KeyedF, Marked, Pos;
    PutIds(t, q, r);
    PutFlat(t, q, r);
    InClassFacts(FlatT(Put(t, q, r)), c, hi, refs);
    ConvNeedT(Put(t, q, r), c, n1);
  }

  lemma KeepsPrefix(t: Tree, q: Path, r: seq<Tree>, c: Class, n1: nat, hi: nat, refs: set<nat>)
    requires FirstMarked(t, q) && Replaces(At(t, q), r, c, refs, hi)
    requires All(FlatT(Put(t, q, r)), Fits(refs, hi))
    ensures PlainUpTo(ConvT(Put(t, q, r), c, n1).0, Pos(t, q))
  {
    var w, s := Put(t, q, r), Pos(t, q);
    PutFlat(t, q, r);
    FirstOf(r);
    PlainJoin(FlatT(t), FlatT(w), s, FlatF(r));
    var pre := FlatT(w)[..s + 1];
    forall i | 0 <= i < s + 1 ensures Fits(refs, hi)(pre[i].id, pre[i].data) {
      assert pre[i] == FlatT(w)[i];
    }
    InClassFacts(pre, c, hi, refs);
    ConvPrefixT(w, c, n1, s + 1);
    SamePlain(FlatT(w), FlatT(ConvT(w, c, n1).0), s + 1);
  }

  lemma FirstOf(r: seq<Tree>)
    requires r != []
    ensures SizeF(r) >= 1 && FlatF(r)[0].data == r[0].data
  {
  }

  lemma PlainJoin(x: seq<Cell>, f: seq<Cell>, s: nat, r: seq<Cell>)
    requires SamePrefix(x, f, s) && NonePending(x[..s]) && |r| >= 1 && s + |r| <= |f| && f[s..s + |r|] == r
             && !Pending(r[0].data)
    ensures NonePending(f[..s + 1])
  {
    var pre := f[..s + 1];
    forall i | 0 <= i < s + 1 ensures !Pending(pre[i].data) {
      if i < s { assert !Pending(x[..s][i].data); } else { assert f[s..s + |r|][0] == f[s]; }
    }
  }

  lemma SamePlain(x: seq<Cell>, y: seq<Cell>, m: nat)
    requires SamePrefix(x, y, m) && NonePending(x[..m])
    ensures NonePending(y[..m])
  {
    var pre := y[..m];
    forall i | 0 <= i < m ensures !Pending(pre[i].data) {
      assert !Pending(x[..m][i].data);
    }
  }

  lemma KeepsKeyed(t: Tree, q: Path, r: seq<Tree>, c: Class, n1: nat, hi: nat, refs: set<nat>)
    requires q != [] && ValidPath(t, q) && Keyed(t) && Replaces(At(t, q), r, c, refs, hi) && !IsKeyVal(At(t, q).data)
    requires !Pending(t.data) && All(FlatT(Put(t, q, r)), Fits(refs, hi))
    ensures var v := ConvT(Put(t, q, r), c, n1).0; Keyed(v) && !Pending(v.data)
  {
    UpValid(t, q);
    KeyedSplice(t, Up(q), Last(q), r);
    var w := Put(t, q, r);
    AllNode(w, Fits(refs, hi));
    if InClass(c, w.id, w.data) {
      MemberKind(w.id, w.data, c, refs, hi);
      assert false;
    }
    KeyedConvT(w, c, n1, refs, hi);
  }

  lemma Finish(t: Tree, q: Path, r: seq<Tree>, c: Class, n: nat, n1: nat, hi: nat, refs: set<nat>)
    requires WellMarked(t, n, refs) && FirstMarked(t, q) && n <= hi && Replaces(At(t, q), r, c, refs, hi)
    requires !IsKeyVal(At(t, q).data)
    requires var v := ConvT(Put(t, q, r), c, n1);
             v.1 <= hi && Distinct(IdsT(Put(t, q, r)) + Range(n1, v.1)) && SameMeaning(t, v.0)
    ensures Extracted(t, q, ConvT(Put(t, q, r), c, n1).0, hi, refs)
  {
    hide Replaces, FlatT, FlatF, Size, SizeF, All, NoMembers, ConvT, Put, At, Fits, Keyed, NeedT, NeedF, Pos,
         IdsT, Range,
      Distinct, ExpandT, NonePending, PlainUpTo;
    KeepsFits(t, q, r, c, n, n1, hi, refs);
    var v := ConvT(Put(t, q, r), c, n1);
    ConvIdsT(Put(t, q, r), c, n1);
    SubDistinct(IdsT(v.0), IdsT(Put(t, q, r)) + Range(n1, v.1));
    KeepsNeed(t, q, r, c, n1, hi, refs);
    KeepsPrefix(t, q, r, c, n1, hi, refs);
    KeepsKeyed(t, q, r, c, n1, hi, refs);
  }

  // ----- One class, in its three forms -----

  /** The unit that is put in place does not change how many uses are inserted. */
  lemma CountSame(t: Tree, q: Path, r: seq<Tree>, c: Class, n: nat, n1: nat, refs: set<nat>)
    requires WellMarked(t, n, refs) && FirstMarked(t, q) && ClassHead(At(t, q), c, n, refs) && NoMembers(FlatF(r), c)
    ensures ConvT(Put(t, q, r), c, n1).1 == ConvT(t, c, n1).1
  {
    HeadPrefix(t, q, c, n, refs);
    hide FlatT, FlatF, Size, ConvT, Splice, RangeStart, NoMembers, ClassHead, WellMarked;
    ConvSplice(t, Up(q), Last(q), Last(q) + 1, r, c, n1);
  }

  lemma FreshDistinct(t: Tree, n: nat, m: nat, refs: set<nat>)
    requires WellMarked(t, n, refs) && n < m
    ensures Distinct(IdsT(t) + multiset{n, m} + Range(n + 1, m))
  {
    var a := IdsT(t) + multiset{n, m} + Range(n + 1, m);
    forall x: nat ensures a[x] <= 1 {
      RangeCount(n + 1, m, x);
      if x >= n { IdsBelowT(t, n, refs, x); }
    }
  }

  lemma ClearedFacts(l: Tree, c: Class, refs: set<nat>, hi: nat)
    requires NoMembers(FlatT(l), c) && All(FlatT(l), Fits(refs, hi)) && Pending(l.data) && c.r != 0
    ensures NoMembers(FlatT(Cleared(l)), c) && All(FlatT(Cleared(l)), Fits(refs, hi))
    ensures IdsT(Cleared(l)) == IdsT(l) && Size(Cleared(l)) == Size(l) && NeedT(Cleared(l)) < NeedT(l)
    ensures RoleOf(l.id, l.data) == Leader ==> NeedT(Cleared(l)) + 2 == NeedT(l)
    ensures Keyed(l) ==> Keyed(Cleared(l))
    ensures !Pending(Cleared(l).data) && !IsKeyVal(l.data) && l.data.typ != Grouping
  {
    AllNode(l, Fits(refs, hi));
    AllNode(Cleared(l), Fits(refs, hi));
    NoMembersNode(l, c);
    NoMembersNode(Cleared(l), c);
    var f := Fits(refs, hi);
    assert f(l.id, l.data);
    assert RoleOf(l.id, Cleared(l).data) == Plain;
    assert f(l.id, Cleared(l).data);
  }

  lemma KeyedOne(l: Tree)
    requires Keyed(l) && !IsKeyVal(l.data)
    ensures KeyedF(Unchosen([l])) && FrontOnly(Unchosen([l])) && InnerIndex(Unchosen([l])) == 0
  {
    var u := Unchosen([l])[0];
    assert Unchosen([l]) == [u] && u.kids == l.kids && u.data.typ == l.data.typ;
    assert Keyed(u);
  }

  lemma KeyedWhole(l: Tree, c: Class, m: nat, s: Option<nat>)
    requires Keyed(l) && !IsKeyVal(l.data)
    ensures KeyedF(WholeUnit(l, c, m, s))
    ensures forall i :: 0 <= i < 2 ==> !IsKeyVal(WholeUnit(l, c, m, s)[i].data)
    ensures !Pending(WholeUnit(l, c, m, s)[0].data)
  {
    hide Unchosen;
    KeyedOne(l);
    WholeShape(l, c, m, s);
    var r := WholeUnit(l, c, m, s);
    assert Keyed(r[0]) && Keyed(r[1]);
  }

  lemma WholeReplaces(l: Tree, c: Class, n: nat, m: nat, s: Option<nat>, refs: set<nat>)
    requires ClassHead(l, c, n, refs) && Keyed(l) && c.g == n && n < m
    ensures var r := WholeUnit(Cleared(l), c, m, s);
            Replaces(l, r, c, refs, m + 1) && IdsF(r) == IdsT(l) + multiset{n, m}
  {
    hide FlatT, FlatF, Size, SizeF, IdsT, IdsF, NeedT, NeedF, Keyed, Fits, All, NoMembers, Unchosen, WholeUnit, Cleared;
    FitsLater(FlatT(l), refs, n, m + 1);
    ClearedFacts(l, c, refs, m + 1);
    IsCleared(l);
    WholeFacts(Cleared(l), c, m, s, refs, m + 1);
    WholeShape(Cleared(l), c, m, s);
    KeyedWhole(Cleared(l), c, m, s);
  }

  lemma IsCleared(l: Tree)
    ensures Cleared(l).id == l.id && Cleared(l).data == l.data.(ref := 0) && Cleared(l).kids == l.kids
  {
  }

  lemma KeyedSplitUnit(l: Tree, c: Class, m: nat)
    requires Keyed(l) && !IsKeyVal(l.data) && l.data.typ != Grouping && InnerIndex(l.kids) < |l.kids|
    ensures Keyed(SplitUnit(l, c, m))
  {
    SplitShape(l, c, m);
    var k := InnerIndex(l.kids);
    var x, y := l.kids[..k], l.kids[k..];
    var g := Node(c.g, GroupData(l.data.snode), Unchosen(y));
    var u := Node(m, UsesData(c).(choice := l.kids[k].data.choice), []);
    InnerOfParts(x, y, [g, u]);
    forall i | 0 <= i < |g.kids| ensures Keyed(g.kids[i]) && !IsKeyVal(g.kids[i].data) {
      assert y[i] == l.kids[k + i];
      assert Keyed(y[i]) && !IsKeyVal(y[i].data);
      if |y| == 1 { assert g.kids[i].kids == y[0].kids && g.kids[i].data.typ == y[0].data.typ; }
    }
    assert Keyed(g) && Keyed(u);
    var r := SplitUnit(l, c, m);
    assert r.kids == x + [g, u];
    forall i | 0 <= i < |r.kids| ensures Keyed(r.kids[i]) {
      if i < k { assert r.kids[i] == l.kids[i]; }
    }
    assert FrontOnly(r.kids);
  }

  lemma SplitReplaces(l: Tree, c: Class, n: nat, m: nat, refs: set<nat>)
    requires ClassHead(l, c, n, refs) && Keyed(l) && c.g == n && n < m && InnerIndex(l.kids) < |l.kids|
    ensures var r := [Cleared(SplitUnit(l, c, m))];
            Replaces(l, r, c, refs, m + 1) && IdsF(r) == IdsT(l) + multiset{n, m}
  {
    hide FlatT, FlatF, Size, SizeF, IdsT, IdsF, NeedT, NeedF, Keyed, Fits, All, NoMembers, Unchosen, Cleared,
         GroupStart, InnerIndex;
    var w := SplitUnit(l, c, m);
    FitsLater(FlatT(l), refs, n, m + 1);
    SplitFacts(l, c, m, refs, m + 1);
    ClearedFacts(w, c, refs, m + 1);
    KeyedSplitUnit(l, c, m);
    IsCleared(w);
    OneFlat(Cleared(w));
  }

  lemma ExtractWhole(t: Tree, q: Path, n: nat, refs: set<nat>)
    requires WellMarked(t, n, refs) && FirstMarked(t, q) && !Split(At(t, q).data)
    ensures var l := At(t, q);
            var c, m := ClassOf(l, n, l.data), ConvT(t, ClassOf(l, n, l.data), n + 1).1;
            && ValidPath(t, Up(q))
            && (var w := Put(t, q, WholeUnit(Cleared(l), c, m, At(t, Up(q)).data.snode));
                Extracted(t, q, ConvT(w, c, n + 1).0, m + 1, refs))
  {
    UpValid(t, q);
    hide FlatT, FlatF, Size, IdsT, Keyed, Fits, All, ConvT, Put, At, Pos, ExpandT, NonePending, Cleared, WholeUnit,
         Extracted,
      Distinct, WellMarked;
    var l := At(t, q);
    var c := ClassOf(l, n, l.data);
    BelowCounter(t, q, n, refs);
    HeadOfClass(t, q, c, n, refs);
    WholeFinish(t, q, c, n, ConvT(t, c, n + 1).1, At(t, Up(q)).data.snode, refs);
  }

  lemma WholeFinish(t: Tree, q: Path, c: Class, n: nat, m: nat, s: Option<nat>, refs: set<nat>)
    requires WellMarked(t, n, refs) && FirstMarked(t, q) && !Split(At(t, q).data)
    requires ClassHead(At(t, q), c, n, refs) && c.g == n && m == ConvT(t, c, n + 1).1
    ensures Extracted(t, q, ConvT(Put(t, q, WholeUnit(Cleared(At(t, q)), c, m, s)), c, n + 1).0, m + 1, refs)
  {
    hide FlatT, FlatF, Size, SizeF, IdsT, IdsF, NeedT, NeedF, Keyed, Fits, All, NoMembers, ConvT, Put, At, Pos,
         ExpandT, ExpandF,
      NonePending, Cleared, WholeUnit, Range, InnerIndex, Extracted, SameMeaning, Distinct, Silent;
    var l := At(t, q);
    ConvIdsT(t, c, n + 1);
    KeyedAt(t, q);
    var r := WholeUnit(Cleared(l), c, m, s);
    WholeReplaces(l, c, n, m, s, refs);
    CountSame(t, q, r, c, n, n + 1, refs);
    UnitDistinct(t, q, r, n, m, refs);
    FreshDistinct(t, n, m, refs);
    WholeKeeps(t, q, c, n, m, s, refs);
    HeadKind(l, n, refs);
    Finish(t, q, r, c, n, n + 1, m + 1, refs);
  }

  lemma HeadKind(l: Tree, n: nat, refs: set<nat>)
    requires All(FlatT(l), Fits(refs, n)) && RoleOf(l.id, l.data) == Leader
    ensures !IsKeyVal(l.data)
  {
    AllNode(l, Fits(refs, n));
    assert Fits(refs, n)(l.id, l.data);
  }

  lemma ExtractSplit(t: Tree, q: Path, n: nat, refs: set<nat>)
    requires WellMarked(t, n, refs) && FirstMarked(t, q) && Split(At(t, q).data)
    ensures var l := At(t, q);
            && l.kids != []
            && (var c := ClassOf(l, n, l.kids[GroupStart(l)].data);
                var m := ConvT(t, c, n + 1).1;
                var w := Put(t, q, [Cleared(SplitUnit(l, c, m))]);
                Extracted(t, q, ConvT(w, c, n + 1).0, m + 1, refs))
  {
    hide FlatT, FlatF, Size, SizeF, IdsT, IdsF, NeedT, NeedF, Keyed, Fits, All, NoMembers, ConvT, Put, At, Pos,
         ExpandT, ExpandF,
      NonePending, Cleared, SplitUnit, Range, InnerIndex, Extracted, SameMeaning, Distinct, GroupStart;
    var l := At(t, q);
    BelowCounter(t, q, n, refs);
    HeadOfClass(t, q, Class(l.id, n, {}), n, refs);
    var c := ClassOf(l, n, l.kids[GroupStart(l)].data);
    HeadOfClass(t, q, c, n, refs);
    var m := ConvT(t, c, n + 1).1;
    ConvIdsT(t, c, n + 1);
    KeyedAt(t, q);
    var r := [Cleared(SplitUnit(l, c, m))];
    SplitReplaces(l, c, n, m, refs);
    CountSame(t, q, r, c, n, n + 1, refs);
    UnitDistinct(t, q, r, n, m, refs);
    FreshDistinct(t, n, m, refs);
    SplitKeeps(t, q, c, n, m, refs);
    HeadKind(l, n, refs);
    Finish(t, q, r, c, n, n + 1, m + 1, refs);
  }

  lemma ReuseDistinct(t: Tree, q: Path, n: nat, m: nat, refs: set<nat>, v: multiset<nat>)
    requires WellMarked(t, n, refs) && q != [] && ValidPath(t, q)
    requires v + IdsT(At(t, q)) == IdsT(t) + IdsT(At(t, q))
    ensures Distinct(v + Range(n, m))
  {
    var a := v + Range(n, m);
    SumCancel(v, IdsT(At(t, q)), IdsT(t), multiset{});
    forall x: nat ensures a[x] <= 1 {
      RangeCount(n, m, x);
      if x >= n { IdsBelowT(t, n, refs, x); }
    }
  }

  lemma ReuseReplaces(l: Tree, c: Class, n: nat, hi: nat, refs: set<nat>)
    requires ClassHead(l, c, n, refs) && Keyed(l) && c.g < n <= hi
    ensures Replaces(l, [Cleared(l)], c, refs, hi) && IdsF([Cleared(l)]) == IdsT(l)
  {
    hide FlatT, FlatF, Size, SizeF, IdsT, IdsF, NeedT, NeedF, Keyed, Fits, All, NoMembers, Cleared;
    FitsLater(FlatT(l), refs, n, hi);
    ClearedFacts(l, c, refs, hi);
    IsCleared(l);
    OneFlat(Cleared(l));
  }

  lemma ExtractReuse(t: Tree, q: Path, n: nat, refs: set<nat>)
    requires WellMarked(t, n, refs) && FirstMarked(t, q) && !Split(At(t, q).data) && Reuses(t, q)
    ensures ValidPath(t, Up(q))
    ensures var l := At(t, q);
            var v := ConvT(Put(t, q, [Cleared(l)]), ClassOf(l, At(t, Up(q)).id, l.data), n);
            Extracted(t, q, v.0, v.1, refs)
  {
    UpValid(t, q);
    hide FlatT, FlatF, Size, SizeF, IdsT, IdsF, NeedT, NeedF, Keyed, Fits, All, NoMembers, ConvT, Put, At, Pos,
         ExpandT, ExpandF,
      NonePending, Cleared, Range, InnerIndex, Extracted, SameMeaning, Distinct, Reuses;
    var l := At(t, q);
    var c := ClassOf(l, At(t, Up(q)).id, l.data);
    ReuseKeeps(t, q, n, refs, c.flags);
    HeadOfClass(t, q, c, n, refs);
    KeyedAt(t, q);
    var r := [Cleared(l)];
    var v := ConvT(Put(t, q, r), c, n);
    ConvIdsT(Put(t, q, r), c, n);
    ReuseReplaces(l, c, n, v.1, refs);
    PutIds(t, q, r);
    ReuseDistinct(t, q, n, v.1, refs, IdsT(Put(t, q, r)));
    HeadKind(l, n, refs);
    Finish(t, q, r, c, n, n, v.1, refs);
  }

  /** One class made a grouping: same meaning, and the tree is ready for the next class. */
  lemma ExtractKeeps(t: Tree, q: Path, n: nat, refs: set<nat>)
    requires WellMarked(t, n, refs) && FirstMarked(t, q)
    ensures Split(At(t, q).data) ==> At(t, q).kids != []
    ensures Extracted(t, q, Extract(t, q, n).0, Extract(t, q, n).1, refs)
  {
    hide FlatT, FlatF, Size, SizeF, Keyed, ConvT, Put, At, Pos, ExpandT, NonePending, Cleared, InnerIndex,
         Extracted, Reuses,
      WellMarked, GroupStart, SplitUnit, WholeUnit, ClassOf, Split;
    if Split(At(t, q).data) {
      ExtractSplit(t, q, n, refs);
    } else if Reuses(t, q) {
      ExtractReuse(t, q, n, refs);
    } else {
      ExtractWhole(t, q, n, refs);
    }
  }

  // ----- All classes -----

  /** The index of the first marked node. */
  function FirstMark(s: seq<Cell>): (i: nat)
    ensures i <= |s| && NonePending(s[..i]) && (i < |s| ==> Pending(s[i].data))
  {
    if s == [] || Pending(s[0].data) then 0
    else
      var i := FirstMark(s[1..]);
      var a, b := s[..i + 1], s[1..][..i];
      assert forall j :: 0 < j <= i ==> a[j] == b[j - 1];
      i + 1
  }

  lemma {:induction false} CellAt(t: Tree, q: Path)
    requires ValidPath(t, q)
    ensures Pos(t, q) < Size(t) && FlatT(t)[Pos(t, q)].data == At(t, q).data && FlatT(t)[Pos(t, q)].id == At(t, q).id
    decreases |q|
  {
    if q != [] {
      CellAt(t.kids[q[0]], q[1..]);
      KidCells(t, q[0]);
    }
  }

  lemma MarkIsFirst(t: Tree, n: nat, refs: set<nat>)
    requires WellMarked(t, n, refs)
    ensures var i := FirstMark(FlatT(t));
            i < Size(t) ==> FirstMarked(t, PathTo(t, i))
  {
    var i := FirstMark(FlatT(t));
    if i < Size(t) {
      CellAt(t, PathTo(t, i));
    }
  }

  /** The tree and the id counter after the groupings of all classes are created. */
  function AllExtracted(t: Tree, n: nat, refs: set<nat>): (Tree, nat)
    requires WellMarked(t, n, refs)
    decreases NeedT(t)
  {
    var i := FirstMark(FlatT(t));
    if i == Size(t) then (t, n)
    else
      MarkIsFirst(t, n, refs);
      ExtractKeeps(t, PathTo(t, i), n, refs);
      var v := Extract(t, PathTo(t, i), n);
      AllExtracted(v.0, v.1, refs)
  }

  /**
   The creation of groupings ends, in the space reserved for it; no marked node is left, every uses
   refers to a grouping before it, ids stay distinct, and the expanded tree is the same as before.
  */
  lemma {:induction false} ExtractionKeepsMeaning(t: Tree, n: nat, refs: set<nat>)
    requires WellMarked(t, n, refs)
    ensures var r := AllExtracted(t, n, refs);
            && Meaning(r.0) == Meaning(t)
            && NonePending(FlatT(r.0)) && WellMarked(r.0, r.1, refs)
            && Size(r.0) <= Size(t) + NeedT(t)
    decreases NeedT(t)
  {
    var i := FirstMark(FlatT(t));
    if i < Size(t) {
      MarkIsFirst(t, n, refs);
      ExtractKeeps(t, PathTo(t, i), n, refs);
      var v := Extract(t, PathTo(t, i), n);
      ExtractionKeepsMeaning(v.0, v.1, refs);
    } else {
      assert FlatT(t)[..i] == FlatT(t);
    }
  }
}
