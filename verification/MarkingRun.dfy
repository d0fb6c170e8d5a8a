/** The marking pass keeps the meaning exactly if no class is mixed. */
module MarkingRun {
  import opened YNodes
  import opened RoseTree
  import opened TreeLinks
  import opened TreeEdits
  import opened Expansion
  import opened Rewriting
  import opened Conversion
  import opened ConversionFacts
  import opened Groupings
  import opened GroupingSteps
  import opened GroupingRest
  import opened GroupingEdits
  import opened KeyOrder
  import opened SameContent
  import opened MarkingMeaning
  import opened MarkingSteps
  import opened Marking
  import opened TreeForms
  import opened MarkingMatches

  // ----- Marked trees in the making -----

  /** What ids and references are below, and the ids that leafrefs refer to. */
  datatype Limits = Limits(ids: nat, refs: set<nat>)

  /** A node that may stand in a tree that is being marked. */
  predicate GoodNode(c: Cell, lim: Limits) {
    var d := c.data;
    && c.id < lim.ids && d.ref < lim.ids && d.typ != Uses && d.typ != Grouping
    && (d.typ == Leafref ==> d.ref != 0 && d.ref in lim.refs)
    && (d.ref == 0 ==> GroupingChildren !in d.flags)
    && (IsKeyVal(d) ==> c.desc == 0 && d.ref == 0)
    && (RoleOf(c.id, d) == Leader ==> c.id !in lim.refs)
  }

  /** Only nodes before index `k` have a class of their own. */
  ghost predicate Good(c: seq<Cell>, lim: Limits, k: nat) {
    && (forall a :: 0 <= a < |c| ==> GoodNode(c[a], lim) && (a > 0 ==> c[a].id != 0))
    && (|c| > 0 ==> c[0].data.ref == 0)
    && (forall a, b :: 0 <= a < |c| && k <= b < |c| && Pending(c[a].data) ==> c[a].data.ref != c[b].id)
  }

  ghost predicate Sound(t: Tree, lim: Limits, k: nat) {
    Good(FlatT(t), lim, k) && Distinct(IdsT(t)) && ExpandT(t, EMPTY).ok && Keyed(t)
  }

  /** Nothing above index `j` is a later node of a class. */
  ghost predicate OpenAt(c: seq<Cell>, j: nat) {
    forall a :: 0 <= a < |c| && a < j <= a + c[a].desc ==> RoleOf(c[a].id, c[a].data) != Member
  }

  lemma OpenNext(t: Tree, j: nat)
    requires j < Size(t) && OpenAt(FlatT(t), j)
    ensures var c := FlatT(t)[j]; RoleOf(c.id, c.data) != Member ==> OpenAt(FlatT(t), j + 1)
  {
  }

  lemma OpenSkip(t: Tree, j: nat)
    requires j < Size(t) && OpenAt(FlatT(t), j)
    ensures OpenAt(FlatT(t), j + Size(At(t, PathTo(t, j))))
  {
    var c, q := FlatT(t), PathTo(t, j);
    NodeCell(t, q);
    var e := j + Size(At(t, q));
    forall a | 0 <= a < |c| && a < e <= a + c[a].desc ensures RoleOf(c[a].id, c[a].data) != Member {
      if j <= a { Nested(t, j, a); }
    }
  }

  // ----- From indexes to paths -----

  lemma {:induction false} OpenPath(t: Tree, q: Path, lim: Limits, k: nat)
    requires ValidPath(t, q) && OpenAt(FlatT(t), Pos(t, q))
    requires forall a :: 0 <= a < Size(t) ==> GoodNode(FlatT(t)[a], lim)
    ensures Open(t, q)
    decreases |q|
  {
    if q != [] {
      var i, kid := q[0], t.kids[q[0]];
      var c, d, o := FlatT(t), FlatT(kid), Off(t, q[0]);
      KidCells(t, i);
      PosBound(kid, q[1..]);
      PosBound(t, q);
      assert c[0].data == t.data && c[0].id == t.id && c[0].desc == SizeF(t.kids);
      assert GoodNode(c[0], lim);
      forall a | 0 <= a < |d| ensures d[a] == c[a + o] { }
      forall a | 0 <= a < |d| && a < Pos(kid, q[1..]) <= a + d[a].desc
        ensures RoleOf(d[a].id, d[a].data) != Member
      {
        assert d[a] == c[a + o];
      }
      OpenPath(kid, q[1..], lim, k);
    }
  }

  lemma {:induction false} BeforePath(t: Tree, p: Path, q: Path)
    requires ValidPath(t, p) && ValidPath(t, q) && Pos(t, p) + Size(At(t, p)) <= Pos(t, q)
    ensures Before(p, q)
    decreases |p|
  {
    PosBound(t, q);
    if p != [] && q != [] {
      var i, j := p[0], q[0];
      PosBound(t.kids[i], p[1..]);
      PosBound(t.kids[j], q[1..]);
      if i == j {
        BeforePath(t.kids[i], p[1..], q[1..]);
      } else if j < i {
        OffMonotone(t.kids, j, i);
      }
    }
  }

  // ----- Data set at two places -----

  lemma {:induction false} SetApart(t: Tree, p: Path, d: Data, q: Path, d': Data)
    requires ValidPath(t, p) && ValidPath(t, q) && Before(p, q)
    ensures var u, v := SetData(t, p, d), SetData(t, q, d');
            && ValidPath(u, q) && At(u, q) == At(t, q) && ValidPath(v, p) && At(v, p) == At(t, p)
            && SetData(u, q, d') == SetData(v, p, d)
    decreases |p|
  {
    var i, j := p[0], q[0];
    if i == j {
      SetApart(t.kids[i], p[1..], d, q[1..], d');
    } else {
      var a, b := SetData(t.kids[i], p[1..], d), SetData(t.kids[j], q[1..], d');
      assert t.kids[i := a][j := b] == t.kids[j := b][i := a];
    }
  }

  lemma {:induction false} SetIds(t: Tree, q: Path, d: Data)
    requires ValidPath(t, q)
    ensures IdsT(SetData(t, q, d)) == IdsT(t)
    decreases |q|
  {
    if q != [] {
      SetIds(t.kids[q[0]], q[1..], d);
      var v := SetData(t.kids[q[0]], q[1..], d);
      IdsReplace(t.kids, q[0], v);
      SumCancel(IdsF(t.kids[q[0] := v]), IdsT(v), IdsF(t.kids), multiset{});
    }
  }

  lemma FrontTyped(f: seq<Tree>, k: nat, v: Tree)
    requires k < |f| && FrontOnly(f) && v.data.typ == f[k].data.typ
    ensures FrontOnly(f[k := v]) && InnerIndex(f[k := v]) == InnerIndex(f)
  {
  }

  lemma {:induction false} SetKeyed(t: Tree, q: Path, d: Data)
    requires ValidPath(t, q) && Keyed(t) && d.typ == At(t, q).data.typ
    ensures Keyed(SetData(t, q, d)) && SetData(t, q, d).data.typ == t.data.typ
    decreases |q|
  {
    if q != [] {
      var k := q[0];
      SetKeyed(t.kids[k], q[1..], d);
      FrontTyped(t.kids, k, SetData(t.kids[k], q[1..], d));
      assert KeyedF(SetData(t, q, d).kids);
    }
  }

  /** One more node is marked. */
  lemma GoodMark(c: seq<Cell>, lim: Limits, k: nat, i: nat, r: nat, split: bool)
    requires Good(c, lim, k) && 0 < i < |c| && Markable(c[i].data) && 0 < r < lim.ids && c[i].id != r
    requires forall b :: k <= b < |c| ==> c[b].id != r
    ensures Good(c[i := c[i].(data := Mark(c[i].data, r, split))], lim, k)
  {
  }

  lemma OpenMark(c: seq<Cell>, j: nat, i: nat, d: Data)
    requires OpenAt(c, j) && i < |c| && j <= i
    ensures OpenAt(c[i := c[i].(data := d)], j)
  {
  }

  /** Below a node from index `k - 1` on nothing has a class of its own. */
  lemma QuietBelow(t: Tree, p: Path, lim: Limits, k: nat)
    requires ValidPath(t, p) && Good(FlatT(t), lim, k) && Pos(t, p) + 1 >= k
    ensures Quiet(FlatF(At(t, p).kids))
  {
    var c, f := FlatT(t), At(t, p).kids;
    RestCells(t, p, 0);
    AllKids(t, p);
    assert f[0..] == f;
    var s := RangeStart(t, p, 0);
    forall a | 0 <= a < SizeF(f) ensures QuietNode(FlatF(f)[a].id, FlatF(f)[a].data) {
      SliceAt(c, s, SizeF(f), a);
      assert GoodNode(c[s + a], lim);
    }
  }

  // ----- One round of the inner loop -----

  /** The tree with the first node of the class already marked. */
  function Led(t: Tree, p: Path, r: nat, split: bool): Tree
    requires ValidPath(t, p)
  {
    SetData(t, p, Mark(At(t, p).data, r, split))
  }

  /** The state of the inner loop at index `j`; the marks of the first node are those of the end of the loop. */
  ghost predicate Seeking(t: Tree, p: Path, r: nat, j: nat, split: bool, lim: Limits) {
    && p != [] && ValidPath(t, p) && At(t, p).id == r && 0 < r < lim.ids && Markable(At(t, p).data)
    && Pos(t, p) + Size(At(t, p)) <= j
    && Sound(Led(t, p, r, split), lim, Pos(t, p) + 1)
    && OpenAt(FlatT(Led(t, p, r, split)), Pos(t, p)) && OpenAt(FlatT(Led(t, p, r, split)), j)
  }

  /** What the loop does to the meaning: nothing as long as no node gets lost, then it becomes smaller. */
  ghost predicate Trend(x: Tree, y: Tree, was: bool, lost: bool) {
    var a, b := ExpandT(x, EMPTY), ExpandT(y, EMPTY);
    && b.ok && SemSizeF(b.out) <= SemSizeF(a.out)
    && (!lost ==> b.out == a.out) && (lost && !was ==> SemSizeF(b.out) < SemSizeF(a.out))
  }

  lemma TrendThen(x: Tree, y: Tree, z: Tree, a: bool, b: bool, c: bool)
    requires Trend(x, y, a, b) && Trend(y, z, b, c) && (a ==> b) && (b ==> c)
    ensures Trend(x, z, a, c)
  {
  }

  /** The node reached by the loop may join the class. */
  lemma SeekJoins(t: Tree, p: Path, r: nat, j: nat, split: bool, lim: Limits)
    requires Seeking(t, p, r, j, split, lim) && j < Size(t)
    requires var m := At(t, PathTo(t, j)); m.data.ref == 0 && !IsKeyVal(m.data)
    ensures var q, x := PathTo(t, j), Led(t, p, r, split);
            && Before(p, q) && Joins(x, p, q) && ValidPath(x, q) && ValidPath(x, p)
            && At(x, q) == At(t, q) && At(x, p) == At(t, p).(data := Mark(At(t, p).data, r, split))
            && Pos(x, q) == j && Pos(x, p) == Pos(t, p)
  {
    var q, d := PathTo(t, j), Mark(At(t, p).data, r, split);
    var x := Led(t, p, r, split);
    BeforePath(t, p, q);
    SetApart(t, p, d, q, d);
    SetDataPath(t, p, d, q);
    SetDataPath(t, p, d, p);
    SetAt(t, p, d);
    ReplaceFacts(t, p, At(t, p).(data := d));
    hide FlatT, SetData, Led, ExpandT, Open, Mark, At, PathTo, Size;
    MarkRole(r, At(t, p).data, r, split);
    JoinParts(x, p, q, lim);
  }

  lemma JoinParts(x: Tree, p: Path, q: Path, lim: Limits)
    requires ValidPath(x, p) && ValidPath(x, q) && Before(p, q) && Pos(x, p) < Pos(x, q)
    requires Sound(x, lim, Pos(x, p) + 1) && OpenAt(FlatT(x), Pos(x, p)) && OpenAt(FlatT(x), Pos(x, q))
    requires RoleOf(At(x, p).id, At(x, p).data) == Leader && At(x, q).data.ref == 0 && !IsKeyVal(At(x, q).data)
    ensures Joins(x, p, q)
  {
    PosBound(x, p);
    PosBound(x, q);
    NodeCell(x, p);
    NodeCell(x, q);
    OpenPath(x, p, lim, 0);
    OpenPath(x, q, lim, 0);
    QuietBelow(x, p, lim, Pos(x, p) + 1);
    QuietBelow(x, q, lim, Pos(x, p) + 1);
    OnlyThere(x, Pos(x, p), Pos(x, q), At(x, p).id) by { OnceAtMost(IdsT(x), At(x, p).id); }
    assert GoodNode(FlatT(x)[Pos(x, q)], lim);
  }

  lemma SeekPlaces(t: Tree, p: Path, r: nat, j: nat, split: bool)
    requires ValidPath(t, p) && j < Size(t)
    ensures var x, q := Led(t, p, r, split), PathTo(t, j);
            && Size(x) == Size(t) && PathTo(x, j) == q && ValidPath(x, q)
            && Size(At(x, q)) == Size(At(t, q)) && ValidPath(x, p) && Pos(x, p) == Pos(t, p)
  {
    var d, q := Mark(At(t, p).data, r, split), PathTo(t, j);
    SetDataFlat(t, p, d);
    SetDataPath(t, p, d, q);
    SetDataPath(t, p, d, p);
    PathToPos(Led(t, p, r, split), q);
  }

  /** A node that is passed over. */
  lemma SeekPass(t: Tree, p: Path, r: nat, j: nat, split: bool, lim: Limits)
    requires Seeking(t, p, r, j, split, lim) && j < Size(t)
    ensures var m := At(t, PathTo(t, j));
            && Seeking(t, p, r, j + Size(m), split, lim)
            && (m.data.ref == 0 ==> Seeking(t, p, r, j + 1, split, lim))
  {
    var x, q := Led(t, p, r, split), PathTo(t, j);
    SeekPlaces(t, p, r, j, split);
    OpenSkip(x, j);
    OpenNext(x, j);
    NodeCell(x, q);
    BeforePath(t, p, q);
    SetApart(t, p, Mark(At(t, p).data, r, split), q, BLANK);
  }

  lemma LedSet(t: Tree, p: Path, r: nat, j: nat, split: bool, d: Data)
    requires ValidPath(t, p) && j < Size(t) && Pos(t, p) + Size(At(t, p)) <= j
    ensures var q := PathTo(t, j);
            var u := SetData(t, q, d);
            && ValidPath(u, p) && At(u, p) == At(t, p) && Pos(u, p) == Pos(t, p) && Size(u) == Size(t)
            && ValidPath(Led(t, p, r, split), q)
            && Led(u, p, r, split) == SetData(Led(t, p, r, split), q, d)
  {
    var q := PathTo(t, j);
    BeforePath(t, p, q);
    SetApart(t, p, Mark(At(t, p).data, r, split), q, d);
    SetDataPath(t, q, d, p);
    SetDataFlat(t, q, d);
  }

  /** The tree stays sound when one more node is marked. */
  lemma SoundMark(x: Tree, q: Path, r: nat, kind: bool, lim: Limits, k: nat, i: nat)
    requires ValidPath(x, q) && Sound(x, lim, k) && Markable(At(x, q).data) && 0 < r < lim.ids && 0 < Pos(x, q)
    requires i < k <= Pos(x, q) && i < Size(x) && FlatT(x)[i].id == r
    requires ExpandT(SetData(x, q, Mark(At(x, q).data, r, kind)), EMPTY).ok
    ensures Sound(SetData(x, q, Mark(At(x, q).data, r, kind)), lim, k)
  {
    var c, d := FlatT(x), Mark(At(x, q).data, r, kind);
    NodeCell(x, q);
    SetDataFlat(x, q, d);
    SetIds(x, q, d);
    SetKeyed(x, q, d);
    forall b | k <= b < |c| ensures c[b].id != r {
      OnceAtMost(IdsT(x), r);
      OnlyThere(x, i, b, r);
    }
    hide FlatT, SetData, IdsT, Keyed, ExpandT, At, Distinct;
    GoodMark(c, lim, k, Pos(x, q), r, kind);
  }

  /** A node that is marked. */
  lemma SeekMark(t: Tree, p: Path, r: nat, j: nat, split: bool, lim: Limits, kind: bool)
    requires Seeking(t, p, r, j, split, lim) && j < Size(t)
    requires var m := At(t, PathTo(t, j)); m.data.ref == 0 && !IsKeyVal(m.data)
    requires var q := PathTo(t, j);
             ValidPath(Led(t, p, r, split), q)
             && ExpandT(SetData(Led(t, p, r, split), q, Mark(At(t, q).data, r, kind)), EMPTY).ok
    ensures var q := PathTo(t, j);
            Seeking(SetData(t, q, Mark(At(t, q).data, r, kind)), p, r, j + Size(At(t, q)), split, lim)
  {
    hide *;
    SeekParts(t, p, r, j, split, lim);
    var q, x := PathTo(t, j), Led(t, p, r, split);
    var d := Mark(At(t, q).data, r, kind);
    SeekJoins(t, p, r, j, split, lim);
    LedSet(t, p, r, j, split, d);
    SeekPlaces(t, p, r, j, split);
    JoinMarkable(x, p, q);
    IdCell(x, p);
    MarkId(At(t, p), r, split);
    SoundMark(x, q, r, kind, lim, Pos(t, p) + 1, Pos(t, p));
    MarkedOpen(x, q, j, d, Pos(t, p));
    SeekWhole(SetData(t, q, d), p, r, j + Size(At(t, q)), split, lim);
  }

  lemma MarkId(l: Tree, r: nat, split: bool)
    ensures l.(data := Mark(l.data, r, split)).id == l.id
  {
  }

  lemma SeekParts(t: Tree, p: Path, r: nat, j: nat, split: bool, lim: Limits)
    requires Seeking(t, p, r, j, split, lim)
    ensures p != [] && ValidPath(t, p) && At(t, p).id == r && 0 < r < lim.ids && Markable(At(t, p).data)
    ensures Pos(t, p) + Size(At(t, p)) <= j && Size(At(t, p)) >= 1
    ensures Sound(Led(t, p, r, split), lim, Pos(t, p) + 1)
    ensures OpenAt(FlatT(Led(t, p, r, split)), Pos(t, p)) && OpenAt(FlatT(Led(t, p, r, split)), j)
  {
  }

  lemma SeekWhole(t: Tree, p: Path, r: nat, j: nat, split: bool, lim: Limits)
    requires p != [] && ValidPath(t, p) && At(t, p).id == r && 0 < r < lim.ids && Markable(At(t, p).data)
    requires Pos(t, p) + Size(At(t, p)) <= j
    requires Sound(Led(t, p, r, split), lim, Pos(t, p) + 1)
    requires OpenAt(FlatT(Led(t, p, r, split)), Pos(t, p)) && OpenAt(FlatT(Led(t, p, r, split)), j)
    ensures Seeking(t, p, r, j, split, lim)
  {
  }

  lemma IdCell(x: Tree, p: Path)
    requires ValidPath(x, p)
    ensures Pos(x, p) < Size(x) && FlatT(x)[Pos(x, p)].id == At(x, p).id
  {
    NodeCell(x, p);
  }

  lemma MarkedOpen(x: Tree, q: Path, j: nat, d: Data, i: nat)
    requires ValidPath(x, q) && Pos(x, q) == j && i <= j && OpenAt(FlatT(x), i) && OpenAt(FlatT(x), j)
    ensures var y := SetData(x, q, d); OpenAt(FlatT(y), i) && OpenAt(FlatT(y), j + Size(At(x, q)))
  {
    var y := SetData(x, q, d);
    SetDataFlat(x, q, d);
    hide FlatT, SetData, At, Size, OpenAt;
    OpenMark(FlatT(x), i, j, d);
    OpenMark(FlatT(x), j, j, d);
    SetDataPath(x, q, d, q);
    PathToPos(y, q);
    OpenSkip(y, j);
  }

  lemma JoinMarkable(t: Tree, p: Path, q: Path)
    requires Joins(t, p, q)
    ensures Markable(At(t, q).data) && RoleOf(At(t, p).id, At(t, p).data) == Leader
  {
  }

  // ----- The whole inner loop -----

  lemma TrendSame(x: Tree, y: Tree)
    requires SameMeaning(x, y)
    ensures Trend(x, y, false, false) && Trend(x, y, true, true)
  {
  }

  lemma TrendShrunk(x: Tree, y: Tree, was: bool)
    requires Shrunk(x, y)
    ensures Trend(x, y, was, true)
  {
  }

  /** Equal inner nodes of trees of which one has its first node marked already. */
  lemma LedKids(t: Tree, p: Path, r: nat, split: bool)
    requires ValidPath(t, p)
    ensures var x := Led(t, p, r, split);
            && ValidPath(x, p) && At(x, p) == At(t, p).(data := Mark(At(t, p).data, r, split))
            && Pos(t, p) < Size(x) == Size(t)
               && FlatT(x) == FlatT(t)[Pos(t, p) := FlatT(t)[Pos(t, p)].(data := Mark(At(t, p).data, r, split))]
  {
    SetDataFlat(t, p, Mark(At(t, p).data, r, split));
    SetAt(t, p, Mark(At(t, p).data, r, split));
    ReplaceFacts(t, p, At(t, p).(data := Mark(At(t, p).data, r, split)));
  }

  /** What is sound with the mark is so without it. */
  lemma UnledGood(t: Tree, p: Path, r: nat, split: bool, lim: Limits, k: nat)
    requires ValidPath(t, p) && Markable(At(t, p).data) && Good(FlatT(Led(t, p, r, split)), lim, k)
    ensures Good(FlatT(t), lim, k)
  {
    var x := Led(t, p, r, split);
    LedKids(t, p, r, split);
    NodeCell(t, p);
    var c, d, i := FlatT(t), FlatT(x), Pos(t, p);
    forall a | 0 <= a < |c| ensures GoodNode(c[a], lim) && (a > 0 ==> c[a].id != 0) {
      assert GoodNode(d[a], lim) && (a > 0 ==> d[a].id != 0);
      if a != i { assert c[a] == d[a]; } else { assert lim.ids > 0; }
    }
    forall a, b | 0 <= a < |c| && k <= b < |c| && Pending(c[a].data) ensures c[a].data.ref != c[b].id {
      assert Pending(d[a].data) ==> d[a].data.ref != d[b].id;
    }
  }

  lemma StepWhole(t: Tree, p: Path, r: nat, j: nat, split: bool, lim: Limits)
    requires ValidPath(t, p) && 0 < j < Size(t) && ValidPath(t, PathTo(t, j))
    requires 0 < Pos(t, p) < Size(t) && p == PathTo(t, Pos(t, p)) && Seeking(t, p, r, j, split, lim)
    requires At(t, PathTo(t, j)).data.ref == 0 && !IsKeyVal(At(t, PathTo(t, j)).data) && TreesEqual(t, Pos(t, p), j)
    ensures var q := PathTo(t, j);
            var u := SetData(t, q, Mark(At(t, q).data, r, false));
            && Seeking(u, p, r, j + Size(At(t, q)), split, lim)
            && Trend(Led(t, p, r, split), Led(u, p, r, split), false, split)
            && Trend(Led(t, p, r, split), Led(u, p, r, split), split, split)
  {
    var q, x := PathTo(t, j), Led(t, p, r, split);
    hide *;
    SeekParts(t, p, r, j, split, lim);
    TreesSimilar(t, Pos(t, p), j);
    SeekJoins(t, p, r, j, split, lim);
    MarkPayload(At(t, p).data, r, split);
    MarkRole(r, At(t, p).data, r, split);
    LedSet(t, p, r, j, split, Mark(At(t, q).data, r, false));
    MarkId(At(t, p), r, split);
    if split {
      MixedStep(x, p, q);
      ShrunkOk(x, SetData(x, q, Mark(At(t, q).data, r, false)));
      TrendShrunk(x, SetData(x, q, Mark(At(t, q).data, r, false)), true);
      TrendShrunk(x, SetData(x, q, Mark(At(t, q).data, r, false)), false);
    } else {
      WholeStep(x, p, q);
      SameOk(x, SetData(x, q, Mark(At(t, q).data, r, false)));
      TrendSame(x, SetData(x, q, Mark(At(t, q).data, r, false)));
    }
    SeekMark(t, p, r, j, split, lim, false);
  }

  lemma SoundGood(t: Tree, lim: Limits, k: nat)
    requires Sound(t, lim, k)
    ensures Good(FlatT(t), lim, k)
  {
  }

  lemma ShrunkOk(x: Tree, y: Tree)
    requires Shrunk(x, y)
    ensures ExpandT(y, EMPTY).ok
  {
  }

  lemma SameOk(x: Tree, y: Tree)
    requires SameMeaning(x, y)
    ensures ExpandT(y, EMPTY).ok
  {
  }

  lemma StepInner(t: Tree, p: Path, r: nat, j: nat, lim: Limits)
    requires ValidPath(t, p) && 0 < j < Size(t) && 0 < Pos(t, p) < Size(t) && p == PathTo(t, Pos(t, p))
    requires At(t, PathTo(t, j)).data.ref == 0 && InnersEqual(t, Pos(t, p), j)
    requires Seeking(t, p, r, j, true, lim)
    ensures var q := PathTo(t, j);
            var u := SetData(t, q, Mark(At(t, q).data, r, true));
            && Seeking(u, p, r, j + Size(At(t, q)), true, lim)
            && Trend(Led(t, p, r, true), Led(u, p, r, true), false, false)
            && Trend(Led(t, p, r, true), Led(u, p, r, true), true, true)
  {
    var q, x := PathTo(t, j), Led(t, p, r, true);
    hide *;
    SeekParts(t, p, r, j, true, lim);
    SoundGood(x, lim, Pos(t, p) + 1);
    UnledGood(t, p, r, true, lim, Pos(t, p) + 1);
    InnersSimilar(t, Pos(t, p), j);
    HasKids(t, q, lim, Pos(t, p) + 1);
    SeekJoins(t, p, r, j, true, lim);
    MarkRole(r, At(t, p).data, r, true);
    LedSet(t, p, r, j, true, Mark(At(t, q).data, r, true));
    MarkId(At(t, p), r, true);
    InnerStep(x, p, q);
    SameOk(x, SetData(x, q, Mark(At(t, q).data, r, true)));
    TrendSame(x, SetData(x, q, Mark(At(t, q).data, r, true)));
    SeekMark(t, p, r, j, true, lim, true);
  }

  lemma HasKids(t: Tree, q: Path, lim: Limits, k: nat)
    requires ValidPath(t, q) && Good(FlatT(t), lim, k) && |At(t, q).kids| > 0
    ensures !IsKeyVal(At(t, q).data)
  {
    NodeCell(t, q);
    SizeZero(At(t, q).kids);
    assert GoodNode(FlatT(t)[Pos(t, q)], lim);
  }

  // ----- The stored tree and the tree without the numbers of the other pass -----

  /** Places and data of a node in both trees. */
  lemma UntagPlaces(t: Tree, j: nat, tags: set<nat>)
    requires j < Size(t)
    ensures var u, q := Untag(t, tags), PathTo(t, j);
            && Size(u) == Size(t) && PathTo(u, j) == q && At(u, q).id == At(t, q).id && Size(At(u, q)) == Size(At(t, q))
            && At(u, q).data == Untagged(At(t, q).data, tags)
               && (At(t, q).data.ref == 0 ==> At(u, q).data == At(t, q).data)
            && At(u, q) == Untag(At(t, q), tags)
  {
    var u, q := Untag(t, tags), PathTo(t, j);
    UntagForm(t, tags);
    FormIndex(t, u, j);
    UntagAt(t, tags, q);
    UntagForm(At(t, q), tags);
    FormTyp(At(t, q), At(u, q));
  }

  lemma UntagMark(t: Tree, q: Path, r: nat, kind: bool, tags: set<nat>)
    requires ValidPath(t, q) && r !in tags
    ensures var u, d := Untag(t, tags), At(t, q).data;
            && ValidPath(u, q)
            && Untag(SetData(t, q, Mark(d, r, kind)), tags) == SetData(u, q, Mark(At(u, q).data, r, kind))
  {
    var d := At(t, q).data;
    UntagSet(t, tags, q, Mark(d, r, kind));
    UntagAt(t, tags, q);
    assert At(Untag(t, tags), q).data == Untagged(d, tags);
    assert Untagged(Mark(d, r, kind), tags) == Mark(d, r, kind) == Mark(Untagged(d, tags), r, kind);
  }

  // ----- One round on the stored tree -----

  /** The node at index `j` gets marked. */
  predicate Marks(f: Found, g: Found, j: nat, r: nat, kind: bool)
    requires j < Size(f.tree)
  {
    var q := PathTo(f.tree, j);
    && g.tree == SetData(f.tree, q, Mark(At(f.tree, q).data, r, kind))
    && g.whole == (f.whole || !kind) && g.inner == (f.inner || kind)
  }

  lemma MarksTree(f: Found, g: Found, j: nat, r: nat, kind: bool, tags: set<nat>)
    requires j < Size(f.tree) && Marks(f, g, j, r, kind) && r !in tags && At(f.tree, PathTo(f.tree, j)).data.ref == 0
    ensures var u, q := Untag(f.tree, tags), PathTo(f.tree, j);
            && ValidPath(u, q) && Untag(g.tree, tags) == SetData(u, q, Mark(At(u, q).data, r, kind))
            && SameForm(f.tree, g.tree)
    ensures g.whole == (f.whole || !kind) && g.inner == (f.inner || kind)
  {
    var q := PathTo(f.tree, j);
    UntagMark(f.tree, q, r, kind, tags);
    UntagPlaces(f.tree, j, tags);
    FormSet(f.tree, q, Mark(At(f.tree, q).data, r, kind));
  }

  lemma StepCases(f: Found, i: nat, r: nat, j: nat, rules: Rules)
    requires 0 < i < j < Size(f.tree)
    ensures var s, m := Step(f, i, r, j, rules), At(f.tree, PathTo(f.tree, j));
            || (s.0 == f && s.1 == j + Size(m))
            || (m.data.ref == 0 && s.0.tree == f.tree && s.0.whole == f.whole && s.0.inner == f.inner && s.1 == j + 1)
            || (m.data.ref == 0 && MatchOf(f.tree, i, j) == Whole && Marks(f, s.0, j, r, false) && s.1 == j + Size(m))
            || (m.data.ref == 0 && MatchOf(f.tree, i, j) == Inner && Marks(f, s.0, j, r, true) && s.1 == j + Size(m))
  {
    hide MatchOf, SetData, Mark, Poor, PathTo, At;
  }

  /** One round, whatever it does. */
  lemma StepTrend(f: Found, i: nat, r: nat, j: nat, rules: Rules, p: Path, split: bool, lim: Limits, tags: set<nat>)
    requires 0 < i < j < Size(f.tree) && p == PathTo(f.tree, i) && r !in tags
    requires Seeking(Untag(f.tree, tags), p, r, j, split, lim)
    requires var s := Step(f, i, r, j, rules); (s.0.inner ==> split) && (f.inner ==> s.0.inner)
    ensures var s := Step(f, i, r, j, rules);
            var u, v := Untag(f.tree, tags), Untag(s.0.tree, tags);
            && ValidPath(u, p) && ValidPath(v, p) && Seeking(v, p, r, s.1, split, lim)
            && Trend(Led(u, p, r, split), Led(v, p, r, split), split && f.whole, split && s.0.whole)
            && (f.whole ==> s.0.whole) && At(v, p) == At(u, p)
            && SameForm(f.tree, s.0.tree)
  {
    hide *;
    var t, m, u := f.tree, At(f.tree, PathTo(f.tree, j)), Untag(f.tree, tags);
    StepCases(f, i, r, j, rules);
    UntagPlaces(t, i, tags);
    UntagPlaces(t, j, tags);
    SeekPass(u, p, r, j, split, lim);
    SeekStart(u, p, r, j, split, lim);
    FormSelf(t);
    MatchCases(t, i, j);
    LedSet(u, p, r, j, split, Mark(m.data, r, true));
    LedSet(u, p, r, j, split, Mark(m.data, r, false));
    var s := Step(f, i, r, j, rules);
    if m.data.ref == 0 && MatchOf(t, i, j) == Whole && Marks(f, s.0, j, r, false) {
      TreesUntag(t, i, j, tags);
      MarksTree(f, s.0, j, r, false, tags);
      UntaggedKey(m.data, tags);
      StepWhole(u, p, r, j, split, lim);
    } else if m.data.ref == 0 && MatchOf(t, i, j) == Inner && Marks(f, s.0, j, r, true) {
      InnersUntag(t, i, j, tags);
      MarksTree(f, s.0, j, r, true, tags);
      StepInner(u, p, r, j, lim);
    }
  }

  lemma UntaggedKey(d: Data, tags: set<nat>)
    ensures IsKeyVal(Untagged(d, tags)) == IsKeyVal(d)
  {
  }

  lemma SeekStart(t: Tree, p: Path, r: nat, j: nat, split: bool, lim: Limits)
    requires Seeking(t, p, r, j, split, lim)
    ensures var x := Led(t, p, r, split); Trend(x, x, false, false) && Trend(x, x, true, true)
    ensures ValidPath(t, p) && Pos(t, p) + Size(At(t, p)) <= j && p != []
  {
  }

  lemma {:induction false} SeekGrows(f: Found, i: nat, r: nat, j: nat, rules: Rules)
    requires 0 < i < j <= Size(f.tree)
    ensures var g := Seek(f, i, r, j, rules); (f.inner ==> g.inner) && (f.whole ==> g.whole)
    decreases Size(f.tree) - j
  {
    if j < Size(f.tree) {
      var s := Step(f, i, r, j, rules);
      SeekGrows(s.0, i, r, s.1, rules);
    }
  }

  lemma {:induction false} SeekTrend(f: Found, i: nat, r: nat, j: nat, rules: Rules, p: Path, split: bool,
                                     lim: Limits, tags: set<nat>)
    requires 0 < i < j <= Size(f.tree) && p == PathTo(f.tree, i) && r !in tags
    requires Seeking(Untag(f.tree, tags), p, r, j, split, lim)
    requires Seek(f, i, r, j, rules).inner ==> split
    ensures var g := Seek(f, i, r, j, rules);
            var u, v := Untag(f.tree, tags), Untag(g.tree, tags);
            && ValidPath(u, p) && ValidPath(v, p) && Seeking(v, p, r, Size(g.tree), split, lim)
            && Trend(Led(u, p, r, split), Led(v, p, r, split), split && f.whole, split && g.whole)
            && (f.whole ==> g.whole) && At(v, p) == At(u, p)
            && SameForm(f.tree, g.tree)
    decreases Size(f.tree) - j
  {
    hide *;
    SeekStart(Untag(f.tree, tags), p, r, j, split, lim);
    if j == Size(f.tree) {
      SeekEnd(f, i, r, j, rules);
      FormSelf(f.tree);
    } else {
      var s := Step(f, i, r, j, rules);
      var g := Seek(s.0, i, r, s.1, rules);
      SeekNext(f, i, r, j, rules);
      SeekGrows(s.0, i, r, s.1, rules);
      StepGrows(f, i, r, j, rules);
      StepTrend(f, i, r, j, rules, p, split, lim, tags);
      FormIndex(f.tree, s.0.tree, i);
      SeekTrend(s.0, i, r, s.1, rules, p, split, lim, tags);
      FormTrans(f.tree, s.0.tree, g.tree);
      TrendThen(Led(Untag(f.tree, tags), p, r, split), Led(Untag(s.0.tree, tags), p, r, split),
        Led(Untag(g.tree, tags), p, r, split),
                split && f.whole, split && s.0.whole, split && g.whole);
    }
  }

  lemma SeekEnd(f: Found, i: nat, r: nat, j: nat, rules: Rules)
    requires 0 < i < j == Size(f.tree)
    ensures Seek(f, i, r, j, rules) == f
  {
  }

  lemma SeekNext(f: Found, i: nat, r: nat, j: nat, rules: Rules)
    requires 0 < i < j < Size(f.tree)
    ensures var s := Step(f, i, r, j, rules);
            Seek(f, i, r, j, rules) == Seek(s.0, i, r, s.1, rules) && Size(s.0.tree) == Size(f.tree)
              && j < s.1 <= Size(f.tree)
  {
    hide Step;
  }

  lemma FormSelf(t: Tree)
    ensures SameForm(t, t)
  {
  }

  lemma StepGrows(f: Found, i: nat, r: nat, j: nat, rules: Rules)
    requires 0 < i < j < Size(f.tree)
    ensures var s := Step(f, i, r, j, rules).0; (f.inner ==> s.inner) && (f.whole ==> s.whole)
    ensures var s := Step(f, i, r, j, rules).0;
            s.inner == f.inner && s.whole == f.whole ==> s.tree == f.tree || f.inner || f.whole
    ensures var s := Step(f, i, r, j, rules).0; s.inner && !f.inner ==> InnerCount(f.tree, i) != 0
  {
    hide TreesEqual, InnersEqual, InnerAlone, SetData, Mark, Poor, At, PathTo;
  }

  /** Nothing found, nothing marked. */
  lemma {:induction false} SeekNone(f: Found, i: nat, r: nat, j: nat, rules: Rules)
    requires 0 < i < j <= Size(f.tree)
    requires var g := Seek(f, i, r, j, rules); !g.inner && !g.whole
    ensures Seek(f, i, r, j, rules).tree == f.tree
    decreases Size(f.tree) - j
  {
    hide Step;
    if j < Size(f.tree) {
      var s := Step(f, i, r, j, rules);
      SeekGrows(s.0, i, r, s.1, rules);
      StepGrows(f, i, r, j, rules);
      SeekNone(s.0, i, r, s.1, rules);
    }
  }

  /** Inner matches are found only for a node with inner nodes. */
  lemma {:induction false} SeekInner(f: Found, i: nat, r: nat, j: nat, rules: Rules, p: Path)
    requires 0 < i < j <= Size(f.tree) && p == PathTo(f.tree, i) && i + Size(At(f.tree, p)) <= j
    requires Seek(f, i, r, j, rules).inner && !f.inner
    ensures var l := At(f.tree, p); InnerIndex(l.kids) < |l.kids|
    decreases Size(f.tree) - j
  {
    hide Step, At, SetData, Mark, InnerIndex, SizeF;
    if j < Size(f.tree) {
      var s := Step(f, i, r, j, rules);
      StepGrows(f, i, r, j, rules);
      if s.0.inner {
        CountInner(f.tree, i);
      } else {
        StepTree(f, i, r, j, rules);
        var m := At(f.tree, PathTo(f.tree, j)).data;
        LedSet(f.tree, p, r, j, true, Mark(m, r, true));
        LedSet(f.tree, p, r, j, true, Mark(m, r, false));
        PathToPos(s.0.tree, p);
        SeekInner(s.0, i, r, s.1, rules, p);
      }
    }
  }

  lemma CountInner(t: Tree, i: nat)
    requires i < Size(t) && InnerCount(t, i) != 0
    ensures var l := At(t, PathTo(t, i)); InnerIndex(l.kids) < |l.kids|
  {
    var f := At(t, PathTo(t, i)).kids;
    SizeZero(f[InnerIndex(f)..]);
  }

  // ----- One class -----

  lemma GoodLead(c: seq<Cell>, lim: Limits, i: nat, split: bool)
    requires Good(c, lim, i) && 0 < i < |c| && Markable(c[i].data) && c[i].id !in lim.refs
    requires forall a, b :: 0 <= a < b < |c| ==> c[a].id != c[b].id
    ensures Good(c[i := c[i].(data := Mark(c[i].data, c[i].id, split))], lim, i + 1)
  {
    var d := c[i := c[i].(data := Mark(c[i].data, c[i].id, split))];
    assert GoodNode(c[i], lim);
    forall a | 0 <= a < |d| ensures GoodNode(d[a], lim) && (a > 0 ==> d[a].id != 0) {
      assert GoodNode(c[a], lim);
    }
    forall a, b | 0 <= a < |d| && i + 1 <= b < |d| && Pending(d[a].data) ensures d[a].data.ref != d[b].id {
      if a != i { assert Pending(c[a].data) && c[a].data.ref != c[b].id; }
    }
  }

  lemma DistinctCells(t: Tree)
    requires Distinct(IdsT(t))
    ensures forall a, b :: 0 <= a < b < Size(t) ==> FlatT(t)[a].id != FlatT(t)[b].id
  {
    forall a, b | 0 <= a < b < Size(t) ensures FlatT(t)[a].id != FlatT(t)[b].id {
      OnceAtMost(IdsT(t), FlatT(t)[a].id);
      OnlyThere(t, a, b, FlatT(t)[a].id);
    }
  }

  /** Marking the first node of a new class. */
  lemma ClassLed(t: Tree, i: nat, split: bool, lim: Limits)
    requires 0 < i < Size(t) && Sound(t, lim, i) && OpenAt(FlatT(t), i)
    requires var l := At(t, PathTo(t, i));
             Markable(l.data) && l.id !in lim.refs && (split ==> InnerIndex(l.kids) < |l.kids|)
    ensures var p := PathTo(t, i);
            var l := At(t, p);
            Seeking(t, p, l.id, i + Size(l), split, lim) && SameMeaning(t, Led(t, p, l.id, split))
  {
    var p, c := PathTo(t, i), FlatT(t);
    var l := At(t, p);
    NodeCell(t, p);
    assert GoodNode(c[i], lim);
    OpenPath(t, p, lim, 0);
    LeadSilent(c, lim, i);
    LeaderStep(t, p, split);
    LedKids(t, p, l.id, split);
    DistinctCells(t);
    GoodLead(c, lim, i, split);
    SetIds(t, p, Mark(l.data, l.id, split));
    SetKeyed(t, p, Mark(l.data, l.id, split));
    LedOpen(t, p, i, Mark(l.data, l.id, split));
  }

  lemma LeadSilent(c: seq<Cell>, lim: Limits, i: nat)
    requires Good(c, lim, i) && 0 < i < |c|
    ensures Silent(c, {c[i].id}, {})
  {
    forall a | 0 <= a < |c| ensures SilentCell(c[a], {c[i].id}, {}) {
      assert GoodNode(c[a], lim);
    }
  }

  lemma LedOpen(t: Tree, p: Path, i: nat, d: Data)
    requires ValidPath(t, p) && Pos(t, p) == i && OpenAt(FlatT(t), i)
    ensures var x := SetData(t, p, d); OpenAt(FlatT(x), i) && OpenAt(FlatT(x), i + Size(At(t, p)))
  {
    MarkedOpen(t, p, i, d, i);
  }

  /** Whether a class is found for the node at index `i`. */
  predicate Starts(t: Tree, i: nat, rules: Rules)
    requires 0 < i < Size(t)
  {
    var f := ClassSeek(t, i, rules);
    f.inner || f.whole
  }

  /** The node at index `i` has no mark, and it is not in a node that is left to a grouping elsewhere. */
  ghost predicate Free(t: Tree, i: nat, tags: set<nat>)
    requires i < Size(t)
  {
    var c := FlatT(Untag(t, tags));
    UntagFlatT(t, tags);
    c[i].id !in tags && c[i].data.ref == 0 && OpenAt(c, i)
  }

  lemma ClassTrend(t: Tree, i: nat, rules: Rules, lim: Limits, tags: set<nat>)
    requires 0 < i < Size(t) && Sound(Untag(t, tags), lim, i)
    requires Candidate(t, PathTo(t, i), rules) && At(t, PathTo(t, i)).id !in lim.refs
    requires Starts(t, i, rules) ==> Free(t, i, tags)
    ensures var c := MarkClass(t, i, rules);
            && Sound(Untag(c.0, tags), lim, i + 1) && Trend(Untag(t, tags), Untag(c.0, tags), false, c.1)
            && SameForm(t, c.0)
               && (if Starts(t, i, rules) then OpenAt(FlatT(Untag(c.0, tags)), i + 1) else c.0 == t && !c.1)
  {
    hide *;
    var p := PathTo(t, i);
    var l := At(t, p);
    ClassIs(t, i, rules);
    var f0 := Found(t, false, false, false);
    var g := Seek(f0, i, l.id, i + Size(l), rules);
    if !g.inner && !g.whole {
      SeekNone(f0, i, l.id, i + Size(l), rules);
      UntagPlaces(t, i, tags);
      ClassNone(Untag(t, tags), i, lim);
      FormSelf(t);
    } else {
      if g.inner { SeekInner(f0, i, l.id, i + Size(l), rules, p); }
      CandidateMarkable(t, i, rules, lim, tags);
      ClassFound(t, i, rules, lim, g, tags);
    }
  }

  lemma ClassSeekIs(t: Tree, i: nat, rules: Rules)
    requires 0 < i < Size(t)
    ensures var p, g := PathTo(t, i), ClassSeek(t, i, rules);
            var l := At(t, p);
            && Size(l) >= 1 && i + Size(l) <= Size(t) && ValidPath(g.tree, p)
            && g == Seek(Found(t, false, false, false), i, l.id, i + Size(l), rules)
  {
    PosBound(t, PathTo(t, i));
    hide Seek, SetData, At, PathTo, Step, Pos, Size;
  }

  lemma ClassIs(t: Tree, i: nat, rules: Rules)
    requires 0 < i < Size(t)
    ensures var p, g, c := PathTo(t, i), ClassSeek(t, i, rules), MarkClass(t, i, rules);
            var l := At(t, p);
            && Size(l) >= 1 && i + Size(l) <= Size(t) && ValidPath(g.tree, p)
            && g == Seek(Found(t, false, false, false), i, l.id, i + Size(l), rules)
            && Starts(t, i, rules) == (g.inner || g.whole) && c.1 == (g.inner && g.whole)
            && c.0 == (if g.inner || g.whole then SetData(g.tree, p, Mark(l.data, l.id, g.inner)) else g.tree)
  {
    ClassSeekIs(t, i, rules);
    hide ClassSeek, Seek, SetData, Mark, At, PathTo, Step, Size;
  }

  lemma ClassFound(t: Tree, i: nat, rules: Rules, lim: Limits, g: Found, tags: set<nat>)
    requires 0 < i < Size(t) && Sound(Untag(t, tags), lim, i) && Free(t, i, tags)
    requires var l := At(t, PathTo(t, i));
             && Markable(Untagged(l.data, tags)) && l.id !in lim.refs && i + Size(l) <= Size(t) && Size(l) >= 1
             && ValidPath(g.tree, PathTo(t, i)) && g == Seek(Found(t, false, false, false), i, l.id, i + Size(l), rules)
             && (g.inner ==> InnerIndex(l.kids) < |l.kids|) && l.data.typ != Leafref
    ensures var p := PathTo(t, i);
            var y := SetData(g.tree, p, Mark(At(t, p).data, At(t, p).id, g.inner));
            && Sound(Untag(y, tags), lim, i + 1) && OpenAt(FlatT(Untag(y, tags)), i + 1)
            && Trend(Untag(t, tags), Untag(y, tags), false, g.inner && g.whole) && SameForm(t, y)
  {
    hide *;
    var p, u, v := PathTo(t, i), Untag(t, tags), Untag(g.tree, tags);
    var l := At(t, p);
    FreeParts(t, i, tags);
    UntagPlaces(t, i, tags);
    UntagKids(l, tags);
    ClassLed(u, i, g.inner, lim);
    SeekTrend(Found(t, false, false, false), i, l.id, i + Size(l), rules, p, g.inner, lim, tags);
    FormIndex(t, g.tree, i);
    LeadUntag(t, g.tree, p, l.id, g.inner, tags);
    FormIndex(u, v, i) by { UntagBoth(t, g.tree, tags); }
    ClassEnd(v, p, l.id, g.inner, lim, i);
    TrendSame(u, Led(u, p, l.id, g.inner));
    TrendThen(u, Led(u, p, l.id, g.inner), Led(v, p, l.id, g.inner), false, false, g.inner && g.whole);
  }

  lemma FreeParts(t: Tree, i: nat, tags: set<nat>)
    requires i < Size(t) && Free(t, i, tags)
    ensures var u := Untag(t, tags); i < Size(u) && At(t, PathTo(t, i)).id !in tags && OpenAt(FlatT(u), i)
  {
    UntagFlatT(t, tags);
    NodeCell(t, PathTo(t, i));
  }

  lemma UntagBoth(t: Tree, u: Tree, tags: set<nat>)
    requires SameForm(t, u)
    ensures SameForm(Untag(t, tags), Untag(u, tags))
  {
    hide SameForm;
    UntagForm(t, tags);
    UntagForm(u, tags);
    FormTrans(t, Untag(t, tags), t)
      by { FormTrans(t, u, u) by { FormSelf(u); FormTrans(t, u, u); } FormBack(t, Untag(t, tags)); }
    FormBack(t, Untag(t, tags));
    FormTrans(Untag(t, tags), t, u);
    FormTrans(Untag(t, tags), u, Untag(u, tags));
  }

  lemma FormBack(t: Tree, u: Tree)
    requires SameForm(t, u)
    ensures SameForm(u, t)
  {
    FormSelf(u);
    FormTrans(t, u, u);
  }

  lemma UntagKids(l: Tree, tags: set<nat>)
    ensures var m := Untag(l, tags); InnerIndex(m.kids) == InnerIndex(l.kids) && |m.kids| == |l.kids|
  {
    UntagForm(l, tags);
    FormParts(l, Untag(l, tags));
  }

  /** The mark of the first node, in both trees. */
  lemma LeadUntag(t: Tree, g: Tree, p: Path, r: nat, split: bool, tags: set<nat>)
    requires ValidPath(t, p) && ValidPath(g, p) && r !in tags && SameForm(t, g) && At(t, p).data.typ != Leafref
    requires ValidPath(Untag(t, tags), p) && ValidPath(Untag(g, tags), p)
             && At(Untag(g, tags), p) == At(Untag(t, tags), p)
    ensures var y := SetData(g, p, Mark(At(t, p).data, r, split));
            Untag(y, tags) == Led(Untag(g, tags), p, r, split) && SameForm(t, y)
  {
    var d := At(t, p).data;
    UntagSet(g, tags, p, Mark(d, r, split));
    UntagAt(t, tags, p);
    FormPath(t, g, p);
    FormTyp(At(t, p), At(g, p));
    assert Untagged(Mark(d, r, split), tags) == Mark(d, r, split) == Mark(Untagged(d, tags), r, split);
    FormSet(g, p, Mark(d, r, split));
    FormTrans(t, g, SetData(g, p, Mark(d, r, split)));
  }

  lemma CandidateMarkable(t: Tree, i: nat, rules: Rules, lim: Limits, tags: set<nat>)
    requires 0 < i < Size(t) && Sound(Untag(t, tags), lim, i) && Free(t, i, tags) && Candidate(t, PathTo(t, i), rules)
    ensures var d := At(t, PathTo(t, i)).data; Markable(Untagged(d, tags)) && d.typ != Leafref
  {
    var u, q := Untag(t, tags), PathTo(t, i);
    UntagPlaces(t, i, tags);
    NodeCell(u, q);
    assert GoodNode(FlatT(u)[i], lim);
  }

  lemma ClassNone(t: Tree, i: nat, lim: Limits)
    requires 0 < i < Size(t) && Sound(t, lim, i)
    ensures Sound(t, lim, i + 1) && Trend(t, t, false, false)
  {
  }

  lemma ClassEnd(t: Tree, p: Path, r: nat, split: bool, lim: Limits, i: nat)
    requires Seeking(t, p, r, Size(t), split, lim) && Pos(t, p) == i
    ensures var y := Led(t, p, r, split); Sound(y, lim, i + 1) && OpenAt(FlatT(y), i + 1)
  {
    var y := Led(t, p, r, split);
    LedKids(t, p, r, split);
    NodeCell(t, p);
    MarkRole(r, At(t, p).data, r, split);
    OpenNext(y, i);
  }

  // ----- Leafrefs -----

  /** A node that a leafref refers to contains one that leads back to the recursion it is in. */
  ghost predicate Guarded(t: Tree, rules: Rules, refs: set<nat>) {
    forall i :: 0 <= i < Size(t) && FlatT(t)[i].id in refs ==> i > 0 && Restricted(t, PathTo(t, i), rules)
  }

  lemma {:induction false} RecForm(t: Tree, u: Tree, q: Path)
    requires SameForm(t, u) && ValidPath(t, q)
    ensures ValidPath(u, q) && RecAbove(t, q) == RecAbove(u, q)
    decreases |q|
  {
    FormPath(t, u, q);
    FormParts(At(t, q), At(u, q));
    if q != [] {
      UpValid(t, q);
      UpValid(u, q);
      RecForm(t, u, Up(q));
    }
  }

  lemma RestrictedForm(t: Tree, u: Tree, q: Path, rules: Rules)
    requires SameForm(t, u) && q != [] && ValidPath(t, q)
    ensures ValidPath(u, q) && Restricted(t, q, rules) == Restricted(u, q, rules)
  {
    FormPath(t, u, q);
    FormTyp(At(t, q), At(u, q));
    FormTyp(t, u);
    UpValid(t, q);
    UpValid(u, q);
    RecForm(t, u, Up(q));
    PosBound(t, q);
    var rec := RecAbove(t, Up(q));
    if rec.Some? {
      forall b: nat | b < Size(t) ensures Recursive(t, b, rec.value, rules) == Recursive(u, b, rec.value, rules) {
        assert SameSpot(FlatT(t)[b], FlatT(u)[b]);
      }
    }
  }

  lemma GuardedForm(t: Tree, u: Tree, rules: Rules, refs: set<nat>)
    requires SameForm(t, u) && Guarded(t, rules, refs)
    ensures Guarded(u, rules, refs)
  {
    hide Restricted;
    FormTyp(t, u);
    forall i | 0 <= i < Size(u) && FlatT(u)[i].id in refs ensures i > 0 && Restricted(u, PathTo(u, i), rules) {
      assert SameSpot(FlatT(t)[i], FlatT(u)[i]);
      FormIndex(t, u, i);
      RestrictedForm(t, u, PathTo(t, i), rules);
    }
  }

  lemma CandidateApart(t: Tree, i: nat, rules: Rules, refs: set<nat>)
    requires 0 < i < Size(t) && Guarded(t, rules, refs) && Candidate(t, PathTo(t, i), rules)
    ensures At(t, PathTo(t, i)).id !in refs
  {
    NodeCell(t, PathTo(t, i));
  }

  // ----- All classes -----

  /** No class starts with a node that has a number of the other pass, or at or below a later node of a class. */
  ghost predicate Clean(t: Tree, i: nat, rules: Rules, tags: set<nat>)
    requires 0 < i <= Size(t)
    decreases Size(t) - i
  {
    if i == Size(t) then true
    else
      var q := PathTo(t, i);
      PosBound(t, q);
      if At(t, q).data.ref != 0 && !BelowRec(t, q) then Clean(t, i + Size(At(t, q)), rules, tags)
      else if !Candidate(t, q, rules) then Clean(t, i + 1, rules, tags)
      else (Starts(t, i, rules) ==> Free(t, i, tags)) && Clean(MarkClass(t, i, rules).0, i + 1, rules, tags)
  }

  lemma TrendBoth(x: Tree, y: Tree, z: Tree, a: bool, b: bool)
    requires Trend(x, y, false, a) && Trend(y, z, false, b)
    ensures Trend(x, z, false, a || b)
  {
  }

  lemma {:induction false} MarkTrend(t: Tree, i: nat, rules: Rules, lim: Limits, tags: set<nat>)
    requires 0 < i <= Size(t) && Sound(Untag(t, tags), lim, i) && Guarded(t, rules, lim.refs)
             && Clean(t, i, rules, tags)
    ensures var r := MarkFrom(t, i, rules);
            && Sound(Untag(r.0, tags), lim, Size(t)) && Trend(Untag(t, tags), Untag(r.0, tags), false, r.1)
            && SameForm(t, r.0)
    decreases Size(t) - i
  {
    hide Sound, Trend, MarkClass, Candidate, At, PathTo, Pos, FlatT, SameForm, Starts, Free, Guarded, BelowRec, Untag;
    if i == Size(t) {
      TrendNone(Untag(t, tags), lim, i);
      FormSelf(t);
    } else {
      var q := PathTo(t, i);
      PosBound(t, q);
      MarkPass(Untag(t, tags), i, lim);
      if At(t, q).data.ref != 0 && !BelowRec(t, q) {
        MarkTrend(t, i + Size(At(t, q)), rules, lim, tags);
      } else if !Candidate(t, q, rules) {
        MarkTrend(t, i + 1, rules, lim, tags);
      } else {
        CandidateApart(t, i, rules, lim.refs);
        ClassTrend(t, i, rules, lim, tags);
        var c := MarkClass(t, i, rules);
        var r := MarkFrom(c.0, i + 1, rules);
        GuardedForm(t, c.0, rules, lim.refs);
        MarkTrend(c.0, i + 1, rules, lim, tags);
        FormTrans(t, c.0, r.0);
        TrendBoth(Untag(t, tags), Untag(c.0, tags), Untag(r.0, tags), c.1, r.1);
      }
    }
  }

  lemma TrendNone(t: Tree, lim: Limits, i: nat)
    requires Sound(t, lim, i)
    ensures Trend(t, t, false, false)
  {
  }

  lemma MarkPass(t: Tree, i: nat, lim: Limits)
    requires Sound(t, lim, i)
    ensures forall k :: k >= i ==> Sound(t, lim, k)
  {
  }

  // ----- The pass on a tree without marks -----

  predicate FreshCell(c: Cell, lim: Limits, tags: set<nat>) {
    var d := c.data;
    && c.id < lim.ids && d.ref < lim.ids && d.typ != Uses && d.typ != Grouping
    && (if d.typ == Leafref then d.ref != 0 && d.ref in lim.refs else d.ref == 0 || d.ref in tags)
    && GroupingChildren !in d.flags && (IsKeyVal(d) ==> c.desc == 0 && d.ref == 0)
  }

  /** A tree before the pass: ids are distinct and from 1 on, leafrefs refer to the lists they are in, and the
      only other references are those of ay_ynode_set_ref_recursive_form, from `tags`. */
  ghost predicate Unmarked(t: Tree, lim: Limits, tags: set<nat>, rules: Rules) {
    && (forall a :: 0 <= a < Size(t) ==> FreshCell(FlatT(t)[a], lim, tags) && (a > 0 ==> FlatT(t)[a].id != 0))
    && t.data.typ != Leafref && Distinct(IdsT(t)) && Keyed(t) && Guarded(t, rules, lim.refs)
  }

  function Unreferred(id: nat, d: Data): bool {
    RoleOf(id, d) == Plain
  }

  lemma {:induction false} PlainOkF(f: seq<Tree>, e: Env)
    requires All(FlatF(f), Unreferred)
    ensures ExpandF(f, e).ok
    decreases SizeF(f), 1
  {
    if f != [] {
      AllConcat(FlatT(f[0]), FlatF(f[1..]), Unreferred);
      PlainOkT(f[0], e);
      PlainOkF(f[1..], ExpandT(f[0], e).env);
    }
  }

  lemma {:induction false} PlainOkT(t: Tree, e: Env)
    requires All(FlatT(t), Unreferred)
    ensures ExpandT(t, e).ok
    decreases Size(t), 0
  {
    AllNode(t, Unreferred);
    PlainOkF(t.kids, e);
  }

  /** Form, ids and keys of the tree without the numbers of the other pass. */
  lemma {:induction false} UntagIdsT(t: Tree, tags: set<nat>)
    ensures IdsT(Untag(t, tags)) == IdsT(t)
    decreases Size(t), 0
  {
    UntagIdsF(t.kids, tags);
  }

  lemma {:induction false} UntagIdsF(f: seq<Tree>, tags: set<nat>)
    ensures IdsF(UntagF(f, tags)) == IdsF(f)
    decreases SizeF(f), 1
  {
    if f != [] {
      UntagIdsT(f[0], tags);
      UntagIdsF(f[1..], tags);
    }
  }

  lemma {:induction false} KeyedForm(t: Tree, u: Tree)
    requires SameForm(t, u) && Keyed(t)
    ensures Keyed(u)
    decreases t
  {
    hide SameForm;
    FormParts(t, u);
    forall k | 0 <= k < |u.kids| ensures Keyed(u.kids[k]) && u.kids[k].data.typ == t.kids[k].data.typ {
      KeyedForm(t.kids[k], u.kids[k]);
      FormTyp(t.kids[k], u.kids[k]);
    }
  }

  lemma UntagFresh(c: Cell, lim: Limits, tags: set<nat>)
    requires FreshCell(c, lim, tags)
    ensures var d := UntagCell(c, tags);
            GoodNode(d, lim) && Unreferred(d.id, d.data) && !Pending(d.data)
              && (d.data.typ != Leafref ==> d.data.ref == 0)
  {
  }

  lemma UnmarkedSound(t: Tree, lim: Limits, tags: set<nat>, rules: Rules)
    requires Unmarked(t, lim, tags, rules)
    ensures Sound(Untag(t, tags), lim, 1) && OpenAt(FlatT(Untag(t, tags)), 1)
  {
    var u := Untag(t, tags);
    UntagFlatT(t, tags);
    var b, c := FlatT(t), FlatT(u);
    forall a | 0 <= a < |c|
      ensures GoodNode(c[a], lim) && Unreferred(c[a].id, c[a].data) && !Pending(c[a].data)
              && c[a] == UntagCell(b[a], tags)
    {
      assert FreshCell(b[a], lim, tags);
      UntagFresh(b[a], lim, tags);
    }
    assert b[0].data == t.data;
    UntagFresh(b[0], lim, tags);
    hide FlatT, GoodNode, Untag, Keyed, FreshCell;
    assert Good(c, lim, 1);
    PlainOkT(u, EMPTY);
    UntagIdsT(t, tags);
    UntagForm(t, tags);
    KeyedForm(t, u);
  }

  lemma SoundWell(t: Tree, lim: Limits, k: nat)
    requires Sound(t, lim, k)
    ensures WellMarked(t, lim.ids, lim.refs)
  {
    var c := FlatT(t);
    forall a | 0 <= a < |c| ensures Fits(lim.refs, lim.ids)(c[a].id, c[a].data) {
      GoodFits(c[a], lim);
    }
    assert c[0].data == t.data;
  }

  lemma GoodFits(c: Cell, lim: Limits)
    requires GoodNode(c, lim)
    ensures Fits(lim.refs, lim.ids)(c.id, c.data)
  {
    var p := Fits(lim.refs, lim.ids);
    assert Pending(c.data) ==> !IsKeyVal(c.data);
    assert p(c.id, c.data);
  }

  /**
   The marking pass prepares every tree for the creation of groupings, and it keeps the meaning exactly if
   in no class whole nodes and inner nodes are mixed: then the whole ones lose their own node. The numbers in
   `tags` belong to the groupings of recursive lenses, which are made later.
  */
  lemma MarkingKeepsMeaning(t: Tree, lim: Limits, tags: set<nat>, rules: Rules)
    requires Unmarked(t, lim, tags, rules) && Clean(t, 1, rules, tags)
    ensures var r := MarkFrom(t, 1, rules);
            && SameForm(t, r.0) && WellMarked(Untag(r.0, tags), lim.ids, lim.refs)
            && (Meaning(Untag(r.0, tags)) == Meaning(Untag(t, tags)) <==> !r.1)
  {
    UnmarkedSound(t, lim, tags, rules);
    hide Sound, MarkFrom, Clean, SameForm, Guarded, FlatT, Untag;
    MarkTrend(t, 1, rules, lim, tags);
    SoundWell(Untag(MarkFrom(t, 1, rules).0, tags), lim, Size(t));
  }
}
