/** Creating the grouping of one class keeps the meaning and everything the next class relies on. */
module GroupingSteps {
  import opened YNodes
  import opened RoseTree
  import opened TreeLinks
  import opened TreeEdits
  import opened Expansion
  import opened Rewriting
  import opened Conversion
  import opened ConversionFacts
  import opened Groupings

  // ----- Ids below the counter -----

  lemma {:induction false} IdsBelowT(t: Tree, n: nat, refs: set<nat>, x: nat)
    requires All(FlatT(t), Fits(refs, n)) && x >= n
    ensures IdsT(t)[x] == 0
    decreases Size(t), 0
  {
    AllNode(t, Fits(refs, n));
    IdsBelowF(t.kids, n, refs, x);
  }

  lemma {:induction false} IdsBelowF(f: seq<Tree>, n: nat, refs: set<nat>, x: nat)
    requires All(FlatF(f), Fits(refs, n)) && x >= n
    ensures IdsF(f)[x] == 0
    decreases SizeF(f), 1
  {
    if f != [] {
      AllConcat(FlatT(f[0]), FlatF(f[1..]), Fits(refs, n));
      IdsBelowT(f[0], n, refs, x);
      IdsBelowF(f[1..], n, refs, x);
    }
  }

  lemma UnitDistinct(t: Tree, q: Path, r: seq<Tree>, n: nat, m: nat, refs: set<nat>)
    requires WellMarked(t, n, refs) && q != [] && ValidPath(t, q) && n < m && IdsF(r) == IdsT(At(t, q)) + multiset{n, m}
    ensures IdsT(Put(t, q, r)) == IdsT(t) + multiset{n, m}
    ensures Distinct(IdsT(Put(t, q, r)))
  {
    PutIds(t, q, r);
    var a, b := IdsT(Put(t, q, r)), IdsT(t);
    SumCancel(a, IdsT(At(t, q)), b, multiset{n, m});
    forall x ensures a[x] <= 1 {
      if x >= n { IdsBelowT(t, n, refs, x); }
    }
  }

  lemma SumCancel(a: multiset<nat>, l: multiset<nat>, b: multiset<nat>, c: multiset<nat>)
    requires a + l == b + (l + c)
    ensures a == b + c
  {
    forall x ensures a[x] == (b + c)[x] {
      assert (a + l)[x] == (b + (l + c))[x];
    }
  }

  lemma TwoFlat(a: Tree, b: Tree)
    ensures FlatF([a, b]) == FlatT(a) + FlatT(b) && SizeF([a, b]) == Size(a) + Size(b)
    ensures IdsF([a, b]) == IdsT(a) + IdsT(b) && NeedF([a, b]) == NeedT(a) + NeedT(b)
  {
    assert [a, b][1..] == [b];
    OneFlat(b);
  }

  lemma Leafs(id: nat, d: Data)
    ensures FlatT(Node(id, d, [])) == [Cell(id, d, 0)] && Size(Node(id, d, [])) == 1
    ensures IdsT(Node(id, d, [])) == multiset{id} && NeedT(Node(id, d, [])) == NeedOf(id, d)
  {
  }

  lemma FitsUnchosen(refs: set<nat>, n: nat)
    ensures forall id, d :: Fits(refs, n)(id, d) ==> Fits(refs, n)(id, d.(choice := None))
  {
    forall id, d | Fits(refs, n)(id, d) ensures Fits(refs, n)(id, d.(choice := None)) {
      assert RoleOf(id, d.(choice := None)) == RoleOf(id, d);
    }
  }

  lemma MadeFits(refs: set<nat>, n: nat, c: Class, m: nat, s: Option<nat>, choice: Option<nat>)
    requires c.g < n && m < n && c.r != 0
    ensures !InClass(c, c.g, GroupData(s)) && !InClass(c, m, UsesData(c).(choice := choice))
    ensures Fits(refs, n)(c.g, GroupData(s)) && Fits(refs, n)(m, UsesData(c).(choice := choice))
    ensures NeedOf(c.g, GroupData(s)) == 0 && NeedOf(m, UsesData(c).(choice := choice)) == 0
  {
    UnmarkedFits(refs, n, c.g, GroupData(s));
    UnmarkedFits(refs, n, m, UsesData(c).(choice := choice));
  }

  lemma UnmarkedFits(refs: set<nat>, n: nat, id: nat, d: Data)
    requires id < n && d.ref < n && (d.typ == Uses || (d.typ == Grouping && d.ref == 0))
    ensures Fits(refs, n)(id, d) && NeedOf(id, d) == 0
  {
    var f := Fits(refs, n);
    assert !Pending(d) && RoleOf(id, d) != Leader;
    assert f(id, d);
  }

  // ----- A whole node -----

  lemma WholeFacts(l: Tree, c: Class, m: nat, s: Option<nat>, refs: set<nat>, hi: nat)
    requires NoMembers(FlatT(l), c) && All(FlatT(l), Fits(refs, hi)) && c.g < hi && m < hi && c.r != 0
    requires RoleOf(l.id, l.data) == Leader ==> l.id == c.r
    ensures var r := WholeUnit(l, c, m, s);
            && NoMembers(FlatF(r), c) && All(FlatF(r), Fits(refs, hi)) && IdsF(r) == IdsT(l) + multiset{c.g, m}
            && SizeF(r) == Size(l) + 2 && NeedF(r) == NeedT(l)
  {
    hide *;
    WholeShape(l, c, m, s);
    var g := Node(c.g, GroupData(s), Unchosen([l]));
    var u := Node(m, UsesData(c).(choice := l.data.choice), []);
    MadeFits(refs, hi, c, m, s, l.data.choice);
    OneFlat(l);
    FitsUnchosen(refs, hi);
    UnchosenFlat([l], c, Fits(refs, hi));
    PairFacts(g, u, c, Fits(refs, hi));
  }

  lemma WholeShape(l: Tree, c: Class, m: nat, s: Option<nat>)
    ensures WholeUnit(l, c, m, s)
            == [Node(c.g, GroupData(s), Unchosen([l])), Node(m, UsesData(c).(choice := l.data.choice), [])]
  {
  }

  /** A grouping and its uses, put together. */
  lemma PairFacts(g: Tree, u: Tree, c: Class, p: (nat, Data) -> bool)
    requires NoMembers(FlatF(g.kids), c) && All(FlatF(g.kids), p) && u.kids == []
    requires !InClass(c, g.id, g.data) && !InClass(c, u.id, u.data) && p(g.id, g.data) && p(u.id, u.data)
    ensures NoMembers(FlatF([g, u]), c) && All(FlatF([g, u]), p)
    ensures IdsF([g, u]) == multiset{g.id, u.id} + IdsF(g.kids) && SizeF([g, u]) == SizeF(g.kids) + 2
    ensures NeedF([g, u]) == NeedOf(g.id, g.data) + NeedF(g.kids) + NeedOf(u.id, u.data)
  {
    TwoFlat(g, u);
    Leafs(u.id, u.data);
    NoMembersNode(g, c);
    NoMembersNode(u, c);
    AllNode(g, p);
    AllNode(u, p);
    assert NoMembers(FlatF(u.kids), c) && All(FlatF(u.kids), p);
    assert NoMembers(FlatT(u), c) && All(FlatT(u), p);
    hide FlatT, FlatF, NoMembers, All;
    NoMembersConcat(FlatT(g), FlatT(u), c);
    AllConcat(FlatT(g), FlatT(u), p);
  }

  // ----- The inner nodes of a node -----

  /** The key and the value stay, the inner nodes go to the grouping. */
  lemma SplitShape(l: Tree, c: Class, m: nat)
    requires InnerIndex(l.kids) < |l.kids|
    ensures var k := InnerIndex(l.kids);
            && GroupStart(l) == k
            && l.kids == l.kids[..k] + l.kids[k..] && l.kids[k..] != []
            && SplitUnit(l, c, m) ==
               l.(kids := l.kids[..k] + [Node(c.g, GroupData(l.data.snode), Unchosen(l.kids[k..])),
                                         Node(m, UsesData(c).(choice := l.kids[k].data.choice), [])])
  {
  }

  lemma SplitFacts(l: Tree, c: Class, m: nat, refs: set<nat>, hi: nat)
    requires InnerIndex(l.kids) < |l.kids|
    requires NoMembers(FlatT(l), c) && All(FlatT(l), Fits(refs, hi)) && c.g < hi && m < hi && c.r != 0
    ensures var r := SplitUnit(l, c, m);
            && NoMembers(FlatT(r), c) && All(FlatT(r), Fits(refs, hi)) && IdsT(r) == IdsT(l) + multiset{c.g, m}
            && Size(r) == Size(l) + 2 && NeedT(r) == NeedT(l)
  {
    hide *;
    SplitShape(l, c, m);
    var k := InnerIndex(l.kids);
    var x, y := l.kids[..k], l.kids[k..];
    var g := Node(c.g, GroupData(l.data.snode), Unchosen(y));
    var u := Node(m, UsesData(c).(choice := l.kids[k].data.choice), []);
    MadeFits(refs, hi, c, m, l.data.snode, l.kids[k].data.choice);
    NodeParts(l, x, y, c, Fits(refs, hi));
    FitsUnchosen(refs, hi);
    UnchosenFlat(y, c, Fits(refs, hi));
    PairFacts(g, u, c, Fits(refs, hi));
    NodeParts(SplitUnit(l, c, m), x, [g, u], c, Fits(refs, hi));
  }

  lemma NodeParts(l: Tree, x: seq<Tree>, y: seq<Tree>, c: Class, p: (nat, Data) -> bool)
    requires l.kids == x + y
    ensures NoMembers(FlatT(l), c) <==> !InClass(c, l.id, l.data) && NoMembers(FlatF(x), c) && NoMembers(FlatF(y), c)
    ensures All(FlatT(l), p) <==> p(l.id, l.data) && All(FlatF(x), p) && All(FlatF(y), p)
    ensures IdsT(l) == multiset{l.id} + IdsF(x) + IdsF(y)
    ensures Size(l) == 1 + SizeF(x) + SizeF(y) && NeedT(l) == NeedOf(l.id, l.data) + NeedF(x) + NeedF(y)
  {
    NoMembersNode(l, c);
    AllNode(l, p);
    FlatConcat(x, y);
    NoMembersConcat(FlatF(x), FlatF(y), c);
    AllConcat(FlatF(x), FlatF(y), p);
    IdsConcat(x, y);
    NeedConcat(x, y);
  }

  /** The definition of the inner nodes. */
  lemma SplitGood(l: Tree, c: Class, m: nat)
    requires RoleOf(l.id, l.data) == Leader && l.id == c.r && Split(l.data) && InnerIndex(l.kids) < |l.kids|
    requires NoMembers(FlatT(SplitUnit(l, c, m)), c) && c.r != c.g
    ensures IsUnit(SplitUnit(l, c, m), c) && GoodUnit(SplitUnit(l, c, m), c)
  {
    SplitShape(l, c, m);
    var k := InnerIndex(l.kids);
    var x, y := l.kids[..k], l.kids[k..];
    var g := Node(c.g, GroupData(l.data.snode), Unchosen(y));
    var u := Node(m, UsesData(c).(choice := l.kids[k].data.choice), []);
    var r := SplitUnit(l, c, m);
    assert r == l.(kids := x + [g, u]);
    hide SplitUnit, Unchosen, FlatT, FlatF, NoMembers, ExpandF;
    InnerOfParts(x, y, [g, u]);
    forall e ensures Paired(ExpandT(r, e).env, c) {
      LeaderParts(r, x, [g, u], e);
      PairPaired(g, u, c, ExpandF(x, e).env);
    }
  }

  lemma PairPaired(g: Tree, u: Tree, c: Class, e: Env)
    requires g.id == c.g && g.data.typ == Grouping && u.data.typ == Uses && u.data.ref == c.g && u.kids == []
    requires c.r != c.g
    ensures var x := ExpandF([g, u], e); c.g in x.env.groups && x.env.groups[c.g] == x.out
  {
    assert [g, u][1..] == [u];
    ExpandOne(u, ExpandT(g, e).env);
  }

  lemma SplitEquiv(l: Tree, c: Class, m: nat)
    requires RoleOf(l.id, l.data) == Leader && Split(l.data) && InnerIndex(l.kids) < |l.kids|
    requires Silent(FlatT(l), {}, {c.g})
    ensures Equiv([l], [SplitUnit(l, c, m)], {}, {c.g})
  {
    hide Equiv, Unchosen, SplitUnit, FlatF, FlatT, Silent;
    SplitShape(l, c, m);
    var k := InnerIndex(l.kids);
    var y := l.kids[k..];
    var u := Node(m, UsesData(c).(choice := l.kids[k].data.choice), []);
    SilentNode(l, {}, {c.g});
    SilentTwo(l.kids, k, {}, {c.g});
    UnchosenEquiv(y);
    WrapInnerEquiv(l, l.kids[..k], y, Unchosen(y), c.g, GroupData(l.data.snode), u);
  }

  lemma WholeEquiv(l: Tree, c: Class, m: nat, s: Option<nat>)
    requires Silent(FlatT(l), {}, {c.g})
    ensures Equiv([l], WholeUnit(l, c, m, s), {}, {c.g})
  {
    hide Equiv, Unchosen, WholeUnit, FlatF, FlatT, Silent;
    WholeShape(l, c, m, s);
    OneFlat(l);
    UnchosenEquiv([l]);
    WrapEquiv([l], Unchosen([l]), c.g, GroupData(s), Node(m, UsesData(c).(choice := l.data.choice), []));
  }

  // ----- The unit in place -----

  /** The unit stands in place of its first node and means the same. */
  ghost predicate InPlace(t: Tree, q: Path, r: seq<Tree>, c: Class)
    requires q != [] && ValidPath(t, q)
  {
    && Placed(t, q, r, c) && c.r != 0 && c.r != c.g
    && ExpandT(Put(t, q, r), EMPTY).out == ExpandT(t, EMPTY).out
  }

  lemma IdOnce(t: Tree, q: Path, n: nat, m: nat, refs: set<nat>, a: multiset<nat>)
    requires WellMarked(t, n, refs) && ValidPath(t, q) && n < m
    requires a <= IdsT(At(t, q)) + multiset{n, m} && a[n] > 0 && a[At(t, q).id] > 0
    ensures a[n] == 1 && a[At(t, q).id] == 1
  {
    var l := At(t, q);
    IdsAt(t, q);
    IdsBelowT(t, n, refs, n);
    assert IdsT(l)[l.id] >= 1;
    if l.id >= n { IdsBelowT(t, n, refs, l.id); }
    assert (IdsT(l) + multiset{n, m})[n] == 1 && (IdsT(l) + multiset{n, m})[l.id] == 1;
  }

  lemma WholePlaced(t: Tree, q: Path, c: Class, n: nat, m: nat, s: Option<nat>, refs: set<nat>)
    requires WellMarked(t, n, refs) && FirstMarked(t, q) && !Split(At(t, q).data) && n < m
    requires c.g == n && c.r == At(t, q).id
    ensures InPlace(t, q, WholeUnit(At(t, q), c, m, s), c)
  {
    hide FlatT, FlatF, Size, SizeF, IdsT, IdsF, ExpandT, ExpandF, Splice, Put, Unchosen, GoodUnit, UnitsT, Equiv,
      All, NoMembers, Silent, NonePending, Distinct, Keyed, Pos, At, WholeUnit, InnerIndex, Placed, InClass,
        RoleOf, Split;
    var l := At(t, q);
    var r := WholeUnit(l, c, m, s);
    BelowCounter(t, q, n, refs);
    HeadOfClass(t, q, c, n, refs);
    WholeEquiv(l, c, m, s);
    PlaceUnit(t, q, r, n, n, refs);
    FitsLater(FlatT(l), refs, n, m + 1);
    WholeFacts(l, c, m, s, refs, m + 1);
    UnitDistinct(t, q, r, n, m, refs);
    WholeGood(l, c, m, s);
    WholeShape(l, c, m, s);
    PairIds(r[0], r[1], l, n, m);
    IdOnce(t, q, n, m, refs, IdsT(r[0]));
    PlaceReady(t, q, r, c, n, m + 1, refs);
  }

  lemma BelowCounter(t: Tree, q: Path, n: nat, refs: set<nat>)
    requires WellMarked(t, n, refs) && ValidPath(t, q)
    ensures At(t, q).id < n
  {
    AllAt(t, q, Fits(refs, n));
    AllNode(At(t, q), Fits(refs, n));
  }

  lemma PairIds(g: Tree, u: Tree, l: Tree, n: nat, m: nat)
    requires IdsF([g, u]) == IdsT(l) + multiset{n, m} && u.id == m && u.kids == [] && n < m && l.id < n && g.id == n
    ensures IdsT(g) <= IdsT(l) + multiset{n, m} && IdsT(g)[n] > 0 && IdsT(g)[l.id] > 0
  {
    TwoFlat(g, u);
    Leafs(u.id, u.data);
    assert (IdsT(g) + multiset{m})[l.id] == (IdsT(l) + multiset{n, m})[l.id];
  }

  lemma SplitPlaced(t: Tree, q: Path, c: Class, n: nat, m: nat, refs: set<nat>)
    requires WellMarked(t, n, refs) && FirstMarked(t, q) && Split(At(t, q).data) && n < m
    requires c.g == n && c.r == At(t, q).id
    ensures InnerIndex(At(t, q).kids) < |At(t, q).kids|
    ensures InPlace(t, q, [SplitUnit(At(t, q), c, m)], c)
  {
    hide FlatT, FlatF, Size, SizeF, IdsT, IdsF, ExpandT, ExpandF, Splice, Put, Unchosen, GoodUnit, UnitsT, Equiv,
      All, NoMembers, Silent, NonePending, Distinct, Keyed, Pos, At, SplitUnit, InnerIndex, Placed, InClass,
        RoleOf, Split;
    var l := At(t, q);
    BelowCounter(t, q, n, refs);
    HeadOfClass(t, q, c, n, refs);
    var w := SplitUnit(l, c, m);
    SplitEquiv(l, c, m);
    PlaceUnit(t, q, [w], n, n, refs);
    FitsLater(FlatT(l), refs, n, m + 1);
    SplitFacts(l, c, m, refs, m + 1);
    OneFlat(w);
    UnitDistinct(t, q, [w], n, m, refs);
    SplitGood(l, c, m);
    OwnId(l, IdsT(w), n, m);
    IdOnce(t, q, n, m, refs, IdsT(w));
    PlaceReady(t, q, [w], c, n, m + 1, refs);
  }

  lemma OwnId(l: Tree, a: multiset<nat>, n: nat, m: nat)
    requires a == IdsT(l) + multiset{n, m}
    ensures a[n] > 0 && a[l.id] > 0
  {
  }

  // ----- The class made a grouping -----

  ghost predicate SameMeaning(t: Tree, u: Tree) {
    ExpandT(u, EMPTY).ok && ExpandT(u, EMPTY).out == ExpandT(t, EMPTY).out
  }

  lemma WholeKeeps(t: Tree, q: Path, c: Class, n: nat, m: nat, s: Option<nat>, refs: set<nat>)
    requires WellMarked(t, n, refs) && FirstMarked(t, q) && !Split(At(t, q).data) && n < m
    requires c.g == n && c.r == At(t, q).id
    ensures SameMeaning(t, ConvT(Put(t, q, WholeUnit(Cleared(At(t, q)), c, m, s)), c, n + 1).0)
  {
    hide FlatT, FlatF, Size, SizeF, IdsT, IdsF, ExpandT, ExpandF, Splice, UnitsT, ConvT,
      All, NoMembers, Silent, NonePending, Distinct, Keyed, Pos, At, WholeUnit, InnerIndex, Placed, UnitReady, RoleOf;
    var l := At(t, q);
    var r := WholeUnit(l, c, m, s);
    FirstIsLeader(t, q, n, refs);
    WholePlaced(t, q, c, n, m, s, refs);
    WholeShape(l, c, m, s);
    WholeShape(Cleared(l), c, m, s);
    ReadyBelow(t, q, r, c);
    var l' := r[0].kids[0];
    SameRole(l.id, l.data);
    ConvClear(Put(t, q, r), q, 0, c, n + 1);
    UpValid(t, q);
    SpliceInside(t, Up(q), Last(q), r[0], [r[1]], 0, 1, [Cleared(l')]);
    assert Up(q) + [Last(q)] == q;
    assert [r[0]] + [r[1]] == r;
    assert r[0].kids == [l'] && [l'][..0] + [Cleared(l')] + [l'][1..] == [Cleared(l')];
    assert [r[0].(kids := [Cleared(l')])] + [r[1]] == WholeUnit(Cleared(l), c, m, s);
  }

  lemma SameRole(id: nat, d: Data)
    ensures RoleOf(id, d.(choice := None)) == RoleOf(id, d)
  {
  }

  lemma SplitKeeps(t: Tree, q: Path, c: Class, n: nat, m: nat, refs: set<nat>)
    requires WellMarked(t, n, refs) && FirstMarked(t, q) && Split(At(t, q).data) && n < m
    requires c.g == n && c.r == At(t, q).id
    ensures InnerIndex(At(t, q).kids) < |At(t, q).kids|
    ensures SameMeaning(t, ConvT(Put(t, q, [Cleared(SplitUnit(At(t, q), c, m))]), c, n + 1).0)
  {
    hide FlatT, FlatF, Size, SizeF, IdsT, IdsF, ExpandT, ExpandF, Splice, UnitsT, ConvT, GroupStart,
      All, NoMembers, Silent, NonePending, Distinct, Keyed, Pos, At, InnerIndex, Placed, UnitReady, RoleOf;
    var l := At(t, q);
    FirstIsLeader(t, q, n, refs);
    SplitPlaced(t, q, c, n, m, refs);
    var w := SplitUnit(l, c, m);
    ReadyAtTop(t, q, [w], c);
    ConvClear(Put(t, q, [w]), Up(q), Last(q), c, n + 1);
    UpValid(t, q);
    SpliceSplice(t, Up(q), Last(q), w, [], Cleared(w));
    assert [w] + [] == [w] && [Cleared(w)] + [] == [Cleared(w)];
  }

  // ----- A grouping that serves again -----

  lemma {:induction false} KeyedAt(t: Tree, q: Path)
    requires Keyed(t) && ValidPath(t, q)
    ensures Keyed(At(t, q))
    decreases |q|
  {
    if q != [] {
      KeyedAt(t.kids[q[0]], q[1..]);
    }
  }

  lemma ReusedIds(t: Tree, q: Path)
    requires q != [] && ValidPath(t, q) && ValidPath(t, Up(q)) && Distinct(IdsT(t))
    requires At(t, Up(q)).kids == [At(t, q)]
    ensures var p, l := At(t, Up(q)), At(t, q);
            p.id != l.id && IdsT(p)[p.id] == 1 && IdsT(p)[l.id] == 1
  {
    var p, l := At(t, Up(q)), At(t, q);
    IdsAt(t, Up(q));
    OneFlat(l);
    assert IdsT(p) == multiset{p.id} + IdsT(l);
    assert IdsT(l)[l.id] >= 1;
    assert IdsT(p)[p.id] <= 1 && IdsT(p)[l.id] <= 1;
  }

  lemma ReusedGood(p: Tree, l: Tree, c: Class)
    requires p.kids == [l] && p.data.typ == Grouping && p.data.ref == 0 && c.r != 0
    requires RoleOf(l.id, l.data) == Leader && !Split(l.data) && NoMembers(FlatT(l), c)
    requires c == Class(l.id, p.id, c.flags) && l.id != p.id
    ensures IsUnit(p, c) && GoodUnit(p, c)
  {
    OneFlat(l);
    NoMembersNode(p, c);
    forall e ensures Paired(ExpandT(p, e).env, c) {
      ExpandOne(l, e);
    }
  }

  lemma ReuseReady(t: Tree, q: Path, c: Class, n: nat, refs: set<nat>)
    requires WellMarked(t, n, refs) && FirstMarked(t, q) && ValidPath(t, Up(q)) && Last(q) == 0
    requires At(t, Up(q)).kids == [At(t, q)]
    requires ClassHead(At(t, q), c, n, refs) && UnitsT(t, c)
    ensures UnitReady(t, Up(q), Last(q), c)
  {
    hide FlatT, FlatF, Size, Pos, At, RangeStart, UnitsT, Keyed, Distinct, NonePending, All, NoMembers, Marked, ExpandT;
    HeadPrefix(t, q, c, n, refs);
    InClassFacts(FlatT(t), c, n, refs);
  }

  lemma SamePrefixRefl(x: seq<Cell>, m: nat)
    requires m <= |x|
    ensures SamePrefix(x, x, m)
  {
  }

  /** The cells of the node at `q`. */
  lemma HeadRange(t: Tree, q: Path)
    requires q != [] && ValidPath(t, q)
    ensures var l, s := At(t, q), Pos(t, q);
            && ValidPath(t, Up(q)) && Last(q) < |At(t, Up(q)).kids| && At(t, Up(q)).kids[Last(q)] == l
            && RangeStart(t, Up(q), Last(q)) == s && RangeStart(t, Up(q), Last(q) + 1) == s + Size(l) <= Size(t)
            && FlatT(t)[s..s + Size(l)] == FlatT(l)
  {
    hide FlatT, FlatF, Size, SizeF, Pos, At, RangeStart, Up, Last, ValidPath;
    UpValid(t, q);
    KidRange(t, Up(q), Last(q));
    RangeCells(t, Up(q), Last(q), Last(q) + 1);
    assert At(t, Up(q)).kids[Last(q)..Last(q) + 1] == [At(t, q)];
    OneFlat(At(t, q));
  }

  /** No member of the class up to the end of its first node. */
  lemma HeadPrefix(t: Tree, q: Path, c: Class, n: nat, refs: set<nat>)
    requires WellMarked(t, n, refs) && FirstMarked(t, q) && ClassHead(At(t, q), c, n, refs)
    ensures ValidPath(t, Up(q)) && Last(q) < |At(t, Up(q)).kids|
    ensures RangeStart(t, Up(q), Last(q)) == Pos(t, q) <= RangeStart(t, Up(q), Last(q) + 1) <= Size(t)
    ensures NoMembers(FlatT(t)[..RangeStart(t, Up(q), Last(q) + 1)], c)
  {
    hide FlatT, FlatF, Size, Pos, At, RangeStart, UnitsT, Keyed, Distinct, NonePending, All, NoMembers, Marked, ExpandT;
    HeadRange(t, q);
    var s := Pos(t, q);
    SamePrefixRefl(FlatT(t), s);
    SlicePlain(FlatT(t), FlatT(t), s, s + Size(At(t, q)), FlatT(At(t, q)), c, n, refs);
  }

  lemma ReuseKeeps(t: Tree, q: Path, n: nat, refs: set<nat>, fl: set<Flag>)
    requires WellMarked(t, n, refs) && FirstMarked(t, q) && Reuses(t, q) && !Split(At(t, q).data)
    ensures ValidPath(t, Up(q))
    ensures var l, c := At(t, q), Class(At(t, q).id, At(t, Up(q)).id, fl);
            c.g != c.r && c.g < n && SameMeaning(t, ConvT(Put(t, q, [Cleared(l)]), c, n).0)
  {
    UpValid(t, q);
    var p, l := At(t, Up(q)), At(t, q);
    KeyedAt(t, Up(q));
    assert p.kids[Last(q)] == l;
    assert InnerIndex(p.kids) == 0 && p.kids == [l];
    ReuseStep(t, q, n, refs, Class(l.id, p.id, fl));
  }

  lemma ReuseStep(t: Tree, q: Path, n: nat, refs: set<nat>, c: Class)
    requires WellMarked(t, n, refs) && FirstMarked(t, q) && !Split(At(t, q).data)
    requires ValidPath(t, Up(q)) && At(t, Up(q)).data.typ == Grouping && Last(q) == 0
    requires At(t, Up(q)).kids == [At(t, q)] && c == Class(At(t, q).id, At(t, Up(q)).id, c.flags)
    ensures c.g != c.r && c.g < n && SameMeaning(t, ConvT(Put(t, q, [Cleared(At(t, q))]), c, n).0)
  {
    hide FlatT, FlatF, Size, SizeF, IdsT, IdsF, ExpandT, ExpandF, Splice, UnitsT, ConvT, GroupStart, IsUnit, GoodUnit,
      NoMembers, Silent, NonePending, Distinct, Keyed, Pos, At, InnerIndex, Placed, UnitReady, RoleOf, Cleared,
        Last, Up;
    var p, l := At(t, Up(q)), At(t, q);
    ReusedIds(t, q);
    HeadOfClass(t, q, c, n, refs);
    FirstIsLeader(t, q, n, refs);
    BelowCounter(t, Up(q), n, refs);
    AllAt(t, Up(q), Fits(refs, n));
    AllNode(p, Fits(refs, n));
    assert Fits(refs, n)(p.id, p.data);
    ReusedGood(p, l, c);
    OnceAtMost(IdsT(t), c.g);
    OnceAtMost(IdsT(t), c.r);
    OnlyUnit(t, Up(q), c);
    ReuseReady(t, q, c, n, refs);
    ConvClear(t, Up(q), Last(q), c, n);
  }

  lemma OnceAtMost(s: multiset<nat>, x: nat)
    requires Distinct(s)
    ensures s[x] <= 1
  {
  }
}
