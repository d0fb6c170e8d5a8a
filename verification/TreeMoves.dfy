/** Moving a subtree: cut, then splice, where the target is named by its place before the cut. */
module TreeMoves {
  import opened YNodes
  import opened RoseTree
  import opened TreeLinks
  import opened TreeEdits

  /** The path `p` after the subtree at `q` is gone. */
  function Shift(p: Path, q: Path): Path
    requires q != []
    decreases |q|
  {
    if p == [] then p
    else if |q| == 1 then (if p[0] > q[0] then [p[0] - 1] + p[1..] else p)
    else if p[0] == q[0] then [p[0]] + Shift(p[1..], q[1..])
    else p
  }

  /** The place before child `k` of the node at `p`, after the subtree at `q` is gone. */
  function ShiftGap(p: Path, k: nat, q: Path): nat
    requires q != []
  {
    if p == Up(q) && k > Last(q) then k - 1 else k
  }

  /** What an index at or behind a removed block of `n` at `s` becomes. */
  function Drop(i: nat, s: nat, n: nat): int {
    if i > s then i - n else i
  }

  lemma SizeUpdate(f: seq<Tree>, j: nat, u: Tree, k: nat)
    requires j < |f| && k <= |f|
    ensures f[j := u][..k] == if j < k then f[..k][j := u] else f[..k]
    ensures SizeF(f[j := u][..k]) == SizeF(f[..k]) + if j < k then Size(u) - Size(f[j]) else 0
  {
    if j < k {
      FlatReplace(f[..k], j, u);
      FlatSplit(f[..k], j);
    }
  }

  lemma SizeRemove(f: seq<Tree>, j: nat, k: nat)
    requires j < |f| && k <= |f|
    ensures var g := f[..j] + f[j + 1..];
            var m := if j < k then k - 1 else k;
            && m <= |g| && SizeF(g[..m]) == SizeF(f[..k]) - if j < k then Size(f[j]) else 0
  {
    var g := f[..j] + f[j + 1..];
    if j < k {
      assert g[..k - 1] == f[..k][..j] + f[..k][j + 1..];
      SizeConcat(f[..k][..j], f[..k][j + 1..]);
      FlatSplit(f[..k], j);
    } else {
      assert g[..k] == f[..k];
    }
  }

  lemma OffOrder(f: seq<Tree>, j: nat, k: nat)
    requires j <= k <= |f|
    ensures SizeF(f[..j]) <= SizeF(f[..k])
    ensures j < k ==> SizeF(f[..j]) + Size(f[j]) <= SizeF(f[..k])
  {
    if j < k {
      OffMonotone(f, j, k);
    }
  }

  lemma RangeWithin(t: Tree, p: Path, k: nat)
    requires ValidPath(t, p) && k <= |At(t, p).kids|
    ensures Pos(t, p) < RangeStart(t, p, k) <= Size(t)
  {
    RangeCells(t, p, k, |At(t, p).kids|);
  }

  /** Place `k` at `p` in `t` is place `k'` at `p'` in `u`, where `n` nodes at index `s` are gone. */
  ghost predicate Maps(t: Tree, u: Tree, s: nat, n: nat, p: Path, p': Path, k: nat, k': nat)
    requires ValidPath(t, p) && k <= |At(t, p).kids|
  {
    && ValidPath(u, p') && k' <= |At(u, p').kids|
    && Pos(u, p') == Drop(Pos(t, p), s, n)
    && RangeStart(u, p', k') == Drop(RangeStart(t, p, k), s, n)
  }

  ghost predicate Shifts(t: Tree, q: Path, p: Path, k: nat)
    requires q != [] && ValidPath(t, q) && ValidPath(t, p) && k <= |At(t, p).kids|
  {
    Maps(t, DeleteSubtree(t, q), Pos(t, q), Size(At(t, q)), p, Shift(p, q), k, ShiftGap(p, k, q))
  }

  lemma PathCons(t: Tree, j: nat, p: Path, k: nat)
    requires j < |t.kids| && ValidPath(t.kids[j], p) && k <= |At(t.kids[j], p).kids|
    ensures ValidPath(t, [j] + p) && At(t, [j] + p) == At(t.kids[j], p)
    ensures Pos(t, [j] + p) == Off(t, j) + Pos(t.kids[j], p)
    ensures RangeStart(t, [j] + p, k) == Off(t, j) + RangeStart(t.kids[j], p, k)
  {
    assert ([j] + p)[1..] == p;
  }

  /** Below the child in which the cut happened. */
  lemma MapsInside(t: Tree, u: Tree, s: nat, n: nat, j: nat, p: Path, p': Path, k: nat, k': nat)
    requires j < |t.kids| && j < |u.kids| && Off(t, j) == Off(u, j)
    requires ValidPath(t.kids[j], p) && k <= |At(t.kids[j], p).kids|
    requires Maps(t.kids[j], u.kids[j], s, n, p, p', k, k')
    ensures ValidPath(t, [j] + p) && k <= |At(t, [j] + p).kids|
    ensures Maps(t, u, Off(t, j) + s, n, [j] + p, [j] + p', k, k')
  {
    hide Off;
    PathCons(t, j, p, k);
    PathCons(u, j, p', k');
  }

  /** Below another child. */
  lemma MapsBeside(t: Tree, u: Tree, s: nat, n: nat, i: nat, i': nat, p: Path, k: nat)
    requires i < |t.kids| && i' < |u.kids| && t.kids[i] == u.kids[i']
    requires ValidPath(t.kids[i], p) && k <= |At(t.kids[i], p).kids|
    requires if Off(t, i) > s then Off(u, i') == Off(t, i) - n
             else Off(u, i') == Off(t, i) && Off(t, i) + Size(t.kids[i]) <= s
    ensures ValidPath(t, [i] + p) && k <= |At(t, [i] + p).kids|
    ensures Maps(t, u, s, n, [i] + p, [i'] + p, k, k)
  {
    RangeWithin(t.kids[i], p, k);
    hide Off;
    PathCons(t, i, p, k);
    PathCons(u, i', p, k);
  }

  lemma CutTop(t: Tree, j: nat)
    requires j < |t.kids|
    ensures var q := [j];
            && DeleteSubtree(t, q).kids == t.kids[..j] + t.kids[j + 1..]
            && Pos(t, q) == Off(t, j) && At(t, q) == t.kids[j] && Up(q) == [] && Last(q) == j
  {
  }

  lemma ShiftRangeTop(t: Tree, j: nat, p: Path, k: nat)
    requires j < |t.kids| && ValidPath(t, p) && !([j] <= p)
    requires k <= |At(t, p).kids|
    ensures Shifts(t, [j], p, k)
  {
    CutTop(t, j);
    if p == [] {
      SizeRemove(t.kids, j, k);
      if k <= j { OffOrder(t.kids, k, j); } else { OffOrder(t.kids, j, k); }
    } else {
      assert p[0] != j;
      ShiftRangeTopKid(t, j, p, k);
    }
  }

  lemma ShiftRangeTopKid(t: Tree, j: nat, p: Path, k: nat)
    requires j < |t.kids| && ValidPath(t, p) && p != [] && p[0] != j
    requires k <= |At(t, p).kids|
    ensures Shifts(t, [j], p, k)
  {
    hide SizeF, Size, Shift;
    CutTop(t, j);
    var i, u := p[0], DeleteSubtree(t, [j]);
    var i' := if i < j then i else i - 1;
    SizeRemove(t.kids, j, i);
    if i < j { OffOrder(t.kids, i, j); } else { OffOrder(t.kids, j, i); }
    assert Up([j]) == [];
    ShiftTop(p, j);
    MapsBeside(t, u, Off(t, j), Size(t.kids[j]), i, i', p[1..], k);
    assert [i] + p[1..] == p;
  }

  lemma ShiftTop(p: Path, j: nat)
    requires p != [] && p[0] != j
    ensures Shift(p, [j]) == [if p[0] < j then p[0] else p[0] - 1] + p[1..]
  {
    assert p == [p[0]] + p[1..];
  }

  /** A cut below child `q[0]`. */
  lemma CutBelow(t: Tree, q: Path)
    requires |q| > 1 && ValidPath(t, q)
    ensures var j, kid, r := q[0], t.kids[q[0]], q[1..];
            var kid' := DeleteSubtree(kid, r);
            && DeleteSubtree(t, q) == t.(kids := t.kids[j := kid'])
            && Up(q) == [j] + Up(r) && Last(q) == Last(r)
            && At(t, q) == At(kid, r) && Pos(t, q) == Off(t, j) + Pos(kid, r)
            && 0 < Pos(kid, r) && Pos(kid, r) + Size(At(t, q)) <= Size(kid)
            && Size(kid') == Size(kid) - Size(At(t, q))
  {
    var kid, r := t.kids[q[0]], q[1..];
    CutBelowTree(t, q);
    hide FlatT, FlatF, SizeF, Size, Bump, Patch, Up, Last, DeleteSubtree, At, RangeStart;
    CutSize(kid, r);
  }

  lemma CutBelowTree(t: Tree, q: Path)
    requires |q| > 1 && ValidPath(t, q)
    ensures var j, kid, r := q[0], t.kids[q[0]], q[1..];
            && DeleteSubtree(t, q) == t.(kids := t.kids[j := DeleteSubtree(kid, r)])
            && Up(q) == [j] + Up(r) && Last(q) == Last(r)
  {
    hide FlatT, FlatF, SizeF, Size;
    var kid, r := t.kids[q[0]], q[1..];
    assert Up(q) == [q[0]] + Up(r);
    assert ([q[0]] + Up(r))[1..] == Up(r);
    UpValid(t, q);
    UpValid(kid, r);
  }

  lemma CutSize(t: Tree, q: Path)
    requires q != [] && ValidPath(t, q)
    ensures 0 < Pos(t, q) && Pos(t, q) + Size(At(t, q)) <= Size(t)
    ensures Size(DeleteSubtree(t, q)) == Size(t) - Size(At(t, q))
  {
    hide FlatT, FlatF, SizeF, Size, Bump, Patch, Up, Last, At, Pos, RangeStart, Splice;
    UpValid(t, q);
    DeleteRangeFlat(t, Up(q), Last(q), Last(q) + 1);
    KidRange(t, Up(q), Last(q));
    PosBound(t, q);
    ParentLink(t, q);
  }

  lemma ShiftRangeRoot(t: Tree, q: Path, k: nat)
    requires |q| > 1 && ValidPath(t, q) && k <= |t.kids|
    ensures Shifts(t, q, [], k)
  {
    var j := q[0];
    CutBelow(t, q);
    SizeUpdate(t.kids, j, DeleteSubtree(t.kids[j], q[1..]), k);
    if k <= j { OffOrder(t.kids, k, j); } else { OffOrder(t.kids, j, k); }
  }

  lemma ShiftRangeOther(t: Tree, q: Path, p: Path, k: nat)
    requires |q| > 1 && p != [] && q[0] != p[0] && ValidPath(t, q) && ValidPath(t, p)
    requires k <= |At(t, p).kids|
    ensures Shifts(t, q, p, k)
  {
    var j, i, u := q[0], p[0], DeleteSubtree(t, q);
    CutBelow(t, q);
    SizeUpdate(t.kids, j, DeleteSubtree(t.kids[j], q[1..]), i);
    if i < j { OffOrder(t.kids, i, j); } else { OffOrder(t.kids, j, i); }
    assert Up(q)[0] == j && Shift(p, q) == p;
    hide SizeF, Shift, DeleteSubtree;
    MapsBeside(t, u, Pos(t, q), Size(At(t, q)), i, i, p[1..], k);
    assert [i] + p[1..] == p;
  }

  lemma ShiftRangeSame(t: Tree, q: Path, p: Path, k: nat)
    requires |q| > 1 && p != [] && q[0] == p[0] && ValidPath(t, q) && ValidPath(t, p)
    requires k <= |At(t, p).kids|
    requires Shifts(t.kids[q[0]], q[1..], p[1..], k)
    ensures Shifts(t, q, p, k)
  {
    var j, r, p1 := q[0], q[1..], p[1..];
    CutBelow(t, q);
    SizeUpdate(t.kids, j, DeleteSubtree(t.kids[j], r), j);
    ShiftCons(q, p, k);
    hide SizeF, Shift, DeleteSubtree, ShiftGap;
    MapsInside(t, DeleteSubtree(t, q), Pos(t.kids[j], r), Size(At(t, q)), j, p1, Shift(p1, r), k, ShiftGap(p1, k, r));
    assert [j] + p1 == p;
  }

  lemma ShiftCons(q: Path, p: Path, k: nat)
    requires |q| > 1 && p != [] && q[0] == p[0]
    ensures Shift(p, q) == [q[0]] + Shift(p[1..], q[1..])
    ensures ShiftGap(p, k, q) == ShiftGap(p[1..], k, q[1..])
  {
    assert p == [q[0]] + p[1..];
    assert Up(q) == [q[0]] + Up(q[1..]);
    assert Up(q)[1..] == Up(q[1..]);
  }

  /** Every place outside the cut subtree shifts as its index does. */
  lemma {:induction false} ShiftRange(t: Tree, q: Path, p: Path, k: nat)
    requires q != [] && ValidPath(t, q) && ValidPath(t, p) && !(q <= p)
    requires k <= |At(t, p).kids|
    ensures Shifts(t, q, p, k)
    decreases |q|
  {
    if |q| == 1 {
      assert q == [q[0]];
      ShiftRangeTop(t, q[0], p, k);
    } else if p == [] {
      ShiftRangeRoot(t, q, k);
    } else if q[0] != p[0] {
      ShiftRangeOther(t, q, p, k);
    } else {
      assert !(q[1..] <= p[1..]) by {
        assert q == [q[0]] + q[1..] && p == [p[0]] + p[1..];
      }
      ShiftRange(t.kids[q[0]], q[1..], p[1..], k);
      ShiftRangeSame(t, q, p, k);
    }
  }

  // ----- The move -----

  /** The subtree at `q` cut out and put in before what was child `k` of the node at `p`. */
  function MoveTo(t: Tree, q: Path, p: Path, k: nat): Tree
    requires q != [] && ValidPath(t, q) && ValidPath(t, p) && !(q <= p) && k <= |At(t, p).kids|
  {
    ShiftRange(t, q, p, k);
    Splice(DeleteSubtree(t, q), Shift(p, q), ShiftGap(p, k, q), ShiftGap(p, k, q), [At(t, q)])
  }

  /** The block of `n` elements at `s` cut and put in before what was element `d`. */
  function Relocate<T>(c: seq<T>, s: nat, n: nat, d: nat): (r: seq<T>)
    requires s + n <= |c| && (d <= s || s + n <= d <= |c|)
    ensures |r| == |c|
  {
    Patch(Patch(c, s, s + n, []), Drop(d, s, n), Drop(d, s, n), c[s..s + n])
  }

  /** A node stored within the subtree at `q` lies below `q`. */
  lemma {:induction false} InBlock(t: Tree, q: Path, p: Path)
    requires ValidPath(t, q) && ValidPath(t, p)
    requires Pos(t, q) <= Pos(t, p) < Pos(t, q) + Size(At(t, q))
    ensures q <= p
    decreases |q|
  {
    if q != [] {
      var j, i := q[0], p[0];
      PosBound(t.kids[j], q[1..]);
      PosBound(t.kids[i], p[1..]);
      KidUnique(t.kids, j, Pos(t, p) - 1);
      KidUnique(t.kids, i, Pos(t, p) - 1);
      InBlock(t.kids[j], q[1..], p[1..]);
      assert q == [j] + q[1..] && p == [j] + p[1..];
    }
  }

  /** An ancestor's interval covers the whole subtree. */
  lemma {:induction false} AncCovers(t: Tree, q: Path, i: nat)
    requires ValidPath(t, q) && IsAnc(t, q, i) && i < Size(t)
    ensures i + FlatT(t)[i].desc >= Pos(t, q) + Size(At(t, q)) - 1
    decreases |q|
  {
    PosBound(t, q);
    if i != 0 {
      KidCells(t, q[0]);
      AncBounds(t.kids[q[0]], q[1..], i - Off(t, q[0]));
      AncCovers(t.kids[q[0]], q[1..], i - Off(t, q[0]));
    }
  }

  /** No place outside the subtree has an index inside it. */
  lemma PlaceOutside(t: Tree, q: Path, p: Path, k: nat)
    requires q != [] && ValidPath(t, q) && ValidPath(t, p) && !(q <= p) && k <= |At(t, p).kids|
    ensures var s, n, d := Pos(t, q), Size(At(t, q)), RangeStart(t, p, k);
            s + n <= Size(t) && (d <= s || s + n <= d <= Size(t))
    ensures Pos(t, p) < Pos(t, q) || Pos(t, q) + Size(At(t, q)) <= Pos(t, p) < Size(t)
  {
    var s, n, d := Pos(t, q), Size(At(t, q)), RangeStart(t, p, k);
    PosBound(t, q);
    PosBound(t, p);
    RangeWithin(t, p, k);
    if s <= Pos(t, p) < s + n { InBlock(t, q, p); }
    if Pos(t, p) < s < d < s + n {
      if k < |At(t, p).kids| {
        ExtendPath(t, p, k);
        assert Up(p + [k]) == p && Last(p + [k]) == k;
        UpValid(t, p + [k]);
        InBlock(t, q, p + [k]);
      } else {
        AllKids(t, p);
        NodeCell(t, p);
        AncInterval(t, q, Pos(t, p));
        AncCovers(t, q, Pos(t, p));
      }
      assert false;
    }
  }

  /** Cutting keeps the ancestors of everything else. */
  lemma ShiftAnc(t: Tree, q: Path, p: Path, i: nat)
    requires q != [] && ValidPath(t, q) && ValidPath(t, p) && !(q <= p)
    requires i < Size(t) && !(Pos(t, q) <= i < Pos(t, q) + Size(At(t, q)))
    ensures var u, s, n := DeleteSubtree(t, q), Pos(t, q), Size(At(t, q));
            && ValidPath(u, Shift(p, q))
            && (IsAnc(u, Shift(p, q), Drop(i, s, n)) <==> IsAnc(t, p, i))
  {
    var u, s, n, p' := DeleteSubtree(t, q), Pos(t, q), Size(At(t, q)), Shift(p, q);
    ShiftRange(t, q, p, 0);
    PlaceOutside(t, q, p, 0);
    CutCell(t, q, i);
    AncInterval(t, p, i);
    AncInterval(t, q, i);
    AncInterval(u, p', Drop(i, s, n));
    if IsAnc(t, q, i) { AncCovers(t, q, i); }
  }

  /** The cells after the cut. */
  lemma CutCell(t: Tree, q: Path, i: nat)
    requires q != [] && ValidPath(t, q)
    requires i < Size(t) && !(Pos(t, q) <= i < Pos(t, q) + Size(At(t, q)))
    ensures var u, s, n := DeleteSubtree(t, q), Pos(t, q), Size(At(t, q));
            && ValidPath(t, Up(q)) && s + n <= Size(t) && Size(u) == Size(t) - n
            && FlatT(u) == Patch(Bump(FlatT(t), t, Up(q), 0 - n), s, s + n, [])
            && 0 <= Drop(i, s, n) < Size(u)
            && FlatT(u)[Drop(i, s, n)] == Bump(FlatT(t), t, Up(q), 0 - n)[i]
            && FlatT(u)[Drop(i, s, n)].desc == FlatT(t)[i].desc - if IsAnc(t, q, i) then n else 0
  {
    CutFlat(t, q);
    UpAnc(t, q, i);
    hide FlatT, Patch, DeleteSubtree;
    PatchDrop(Bump(FlatT(t), t, Up(q), 0 - Size(At(t, q))), Pos(t, q), Size(At(t, q)), i);
  }

  lemma CutFlat(t: Tree, q: Path)
    requires q != [] && ValidPath(t, q)
    ensures var u, s, n := DeleteSubtree(t, q), Pos(t, q), Size(At(t, q));
            && ValidPath(t, Up(q)) && s + n <= Size(t) && Size(u) == Size(t) - n
            && FlatT(u) == Patch(Bump(FlatT(t), t, Up(q), 0 - n), s, s + n, [])
            && FlatT(t)[s..s + n] == FlatT(At(t, q))
  {
    UpValid(t, q);
    KidRange(t, Up(q), Last(q));
    RangeCells(t, Up(q), Last(q), Last(q) + 1);
    PosBound(t, q);
    hide FlatT, Patch, Bump;
    DeleteRangeFlat(t, Up(q), Last(q), Last(q) + 1);
  }

  lemma PatchDrop<T>(c: seq<T>, s: nat, n: nat, i: nat)
    requires s + n <= |c| && i < |c| && !(s <= i < s + n)
    ensures |Patch(c, s, s + n, [])| == |c| - n
    ensures 0 <= Drop(i, s, n) < |c| - n
    ensures Patch(c, s, s + n, [])[Drop(i, s, n)] == c[i]
  {
  }

  /** Raising the counts above `p` before the cut is raising them after it. */
  lemma CutThenBump(t: Tree, q: Path, p: Path, d: int)
    requires q != [] && ValidPath(t, q) && ValidPath(t, p) && !(q <= p)
    ensures var u, s, n := DeleteSubtree(t, q), Pos(t, q), Size(At(t, q));
            && ValidPath(t, Up(q)) && ValidPath(u, Shift(p, q)) && s + n <= Size(t)
            && var g := Bump(FlatT(t), t, Up(q), 0 - n);
               Patch(Bump(g, t, p, d), s, s + n, []) == Bump(FlatT(u), u, Shift(p, q), d)
  {
    hide FlatT, Pos, At, DeleteSubtree, Shift, Size, Bump, Patch, IsAnc;
    var u, s, n, p' := DeleteSubtree(t, q), Pos(t, q), Size(At(t, q)), Shift(p, q);
    CutFlat(t, q);
    ShiftRange(t, q, p, 0);
    var g := Bump(FlatT(t), t, Up(q), 0 - (n as int));
    var lhs := Patch(Bump(g, t, p, d), s, s + n, []);
    var rhs := Bump(FlatT(u), u, p', d);
    PatchLength(Bump(g, t, p, d), s, n);
    forall j | 0 <= j < |lhs| ensures lhs[j] == rhs[j] {
      var i := if j < s then j else j + n;
      CutBumpAt(t, q, p, d, i);
    }
  }

  lemma PatchLength<T>(c: seq<T>, s: nat, n: nat)
    requires s + n <= |c|
    ensures |Patch(c, s, s + n, [])| == |c| - n
  {
  }

  lemma CutBumpAt(t: Tree, q: Path, p: Path, d: int, i: nat)
    requires q != [] && ValidPath(t, q) && ValidPath(t, p) && !(q <= p)
    requires i < Size(t) && !(Pos(t, q) <= i < Pos(t, q) + Size(At(t, q)))
    ensures var u, s, n := DeleteSubtree(t, q), Pos(t, q), Size(At(t, q));
            && ValidPath(t, Up(q)) && ValidPath(u, Shift(p, q)) && s + n <= Size(t)
            && var g := Bump(FlatT(t), t, Up(q), 0 - n);
               var j := if i < s then i else i - n;
               && j < Size(u) && |Patch(Bump(g, t, p, d), s, s + n, [])| == Size(t) - n
               && Patch(Bump(g, t, p, d), s, s + n, [])[j] == Bump(FlatT(u), u, Shift(p, q), d)[j]
  {
    hide FlatT, Patch, DeleteSubtree, Shift, Pos, At, Size, IsAnc, Up, ValidPath;
    var u, s, n := DeleteSubtree(t, q), Pos(t, q), Size(At(t, q));
    CutCell(t, q, i);
    ShiftAnc(t, q, p, i);
    PatchDrop(Bump(Bump(FlatT(t), t, Up(q), 0 - (n as int)), t, p, d), s, n, i);
  }

  /** The move in place: first all counts, then the block. */
  lemma MoveFlat(t: Tree, q: Path, p: Path, k: nat)
    requires q != [] && ValidPath(t, q) && ValidPath(t, p) && !(q <= p) && k <= |At(t, p).kids|
    ensures var s, n, d := Pos(t, q), Size(At(t, q)), RangeStart(t, p, k);
            && ValidPath(t, Up(q)) && s + n <= Size(t) && (d <= s || s + n <= d <= Size(t))
            && FlatT(MoveTo(t, q, p, k)) == Relocate(Bump(Bump(FlatT(t), t, Up(q), 0 - n), t, p, n), s, n, d)
  {
    hide FlatT, Pos, At, DeleteSubtree, Shift, ShiftGap, Size, Bump, RangeStart, Splice, ValidPath, Up;
    var u, s, n, d := DeleteSubtree(t, q), Pos(t, q), Size(At(t, q)), RangeStart(t, p, k);
    PlaceOutside(t, q, p, k);
    ShiftRange(t, q, p, k);
    CutThenBump(t, q, p, n);
    MovedBlock(t, q, p);
    PasteFlat(u, Shift(p, q), ShiftGap(p, k, q), At(t, q));
  }

  lemma PasteFlat(u: Tree, p: Path, k: nat, b: Tree)
    requires ValidPath(u, p) && k <= |At(u, p).kids|
    ensures RangeStart(u, p, k) <= Size(u)
    ensures FlatT(Splice(u, p, k, k, [b]))
            == Patch(Bump(FlatT(u), u, p, Size(b)), RangeStart(u, p, k), RangeStart(u, p, k), FlatT(b))
  {
    hide FlatT, FlatF, SizeF, Size, Bump, Patch, RangeStart, Splice;
    OneBlock(b);
    SpliceFlat(u, p, k, k, [b]);
  }

  lemma OneBlock(b: Tree)
    ensures FlatF([b]) == FlatT(b) && SizeF([b]) == Size(b)
  {
    assert [b][1..] == [] && FlatF([b]) == FlatT(b) + [];
  }

  /** Neither change of counts touches the block. */
  lemma MovedBlock(t: Tree, q: Path, p: Path)
    requires q != [] && ValidPath(t, q) && ValidPath(t, p) && !(q <= p)
    ensures var s, n := Pos(t, q), Size(At(t, q));
            && ValidPath(t, Up(q)) && s + n <= Size(t)
            && Bump(Bump(FlatT(t), t, Up(q), 0 - n), t, p, n)[s..s + n] == FlatT(At(t, q))
  {
    hide FlatT, Pos, At, Size, IsAnc, Up, DeleteSubtree, Patch;
    var s, n := Pos(t, q), Size(At(t, q));
    CutFlat(t, q);
    UpValid(t, q);
    forall i | s <= i < s + n ensures !IsAnc(t, p, i) && !IsAnc(t, Up(q), i) {
      if IsAnc(t, Up(q), i) { AncBounds(t, Up(q), i); }
      if IsAnc(t, p, i) {
        PlaceOutside(t, q, p, 0);
        AncInterval(t, p, i);
        BlockEnd(t, q, i);
      }
    }
  }

  lemma {:induction false} BlockEnd(t: Tree, q: Path, i: nat)
    requires ValidPath(t, q) && Pos(t, q) <= i < Pos(t, q) + Size(At(t, q))
    ensures i < Size(t) && i + FlatT(t)[i].desc < Pos(t, q) + Size(At(t, q))
    decreases |q|
  {
    PosBound(t, q);
    if q == [] {
      TreeFacts(t, 0, NULL, NULL, i);
    } else {
      KidCells(t, q[0]);
      PosBound(t.kids[q[0]], q[1..]);
      BlockEnd(t.kids[q[0]], q[1..], i - Off(t, q[0]));
    }
  }

  // ----- The block move on sequences -----

  /** The array after `i` of `n` single-element moves. */
  function Rotated<T>(c: seq<T>, s: nat, n: nat, d: nat, i: nat): (r: seq<T>)
    requires i <= n && s + n <= |c| && (d < s || s + n <= d <= |c|)
    ensures |r| == |c|
  {
    if d < s then c[..d] + c[s..s + i] + c[d..s] + c[s + i..]
    else c[..s] + c[s + i..d] + c[s..s + i] + c[d..]
  }

  lemma RotatedEnds<T>(c: seq<T>, s: nat, n: nat, d: nat)
    requires s + n <= |c| && (d < s || s + n <= d <= |c|)
    ensures Rotated(c, s, n, d, 0) == c
    ensures Rotated(c, s, n, d, n) == Relocate(c, s, n, d)
  {
    if d < s {
      assert Patch(c, s, s + n, []) == c[..d] + c[d..s] + c[s + n..];
    } else {
      assert Patch(c, s, s + n, []) == c[..s] + c[s + n..d] + c[d..];
    }
  }

  lemma BackParts<T>(a: seq<T>, b: seq<T>, m: seq<T>, v: T, e: seq<T>)
    ensures Relocate(a + b + m + ([v] + e), |a| + |b| + |m|, 1, |a| + |b|) == a + (b + [v]) + m + e
  {
  }

  lemma ForthParts<T>(a: seq<T>, v: T, m: seq<T>, b: seq<T>, e: seq<T>)
    ensures Relocate(a + ([v] + m) + b + e, |a|, 1, |a| + 1 + |m| + |b|) == a + m + (b + [v]) + e
  {
    var c := a + ([v] + m) + b + e;
    var y := a + m + b + e;
    assert c[|a|] == v && c[|a|..|a| + 1] == [v];
    CutOne(a, v, m + b + e);
    assert a + ([v] + m) + b + e == a + [v] + (m + b + e) && a + (m + b + e) == y;
    CutOne(a + m + b, v, e);
    assert y == (a + m + b) + e && (a + m + b) + [v] + e == a + m + (b + [v]) + e;
  }

  /** Cutting one element out, and putting it in. */
  lemma CutOne<T>(x: seq<T>, v: T, z: seq<T>)
    ensures Patch(x + [v] + z, |x|, |x| + 1, []) == x + z && Patch(x + z, |x|, |x|, [v]) == x + [v] + z
  {
  }

  /** One round of the rotation moves one element. */
  lemma RotatedStep<T>(c: seq<T>, s: nat, n: nat, d: nat, i: nat)
    requires i < n && s + n <= |c| && (d < s || s + n <= d <= |c|)
    ensures var x, a, b := Rotated(c, s, n, d, i), if d < s then s + i else s, if d < s then d + i else d;
            && (b <= a || a + 1 <= b)
            && Rotated(c, s, n, d, i + 1) == Relocate(x, a, 1, b)
  {
    hide Relocate;
    assert c[s..s + i + 1] == c[s..s + i] + [c[s + i]];
    if d < s {
      assert c[s + i..] == [c[s + i]] + c[s + i + 1..];
      BackParts(c[..d], c[s..s + i], c[d..s], c[s + i], c[s + i + 1..]);
    } else {
      assert c[s + i..d] == [c[s + i]] + c[s + i + 1..d];
      ForthParts(c[..s], c[s + i], c[s + i + 1..d], c[s..s + i], c[d..]);
    }
  }

  lemma RelocateSelf<T>(c: seq<T>, s: nat, n: nat)
    requires s + n <= |c|
    ensures Relocate(c, s, n, s) == c
  {
  }

  /** A gap of `m` put into `e` at `d`, and then filled. */
  lemma FillGap<T>(e: seq<T>, f: seq<T>, z: seq<T>, d: nat, m: seq<T>)
    requires d <= |e| && |f| == |z| == |e| + |m|
    requires f[..d] == e[..d] && f[d + |m|..] == e[d..]
    requires forall k :: 0 <= k < |z| ==> z[k] == if d <= k < d + |m| then m[k - d] else f[k]
    ensures z == Patch(e, d, d, m)
  {
    forall k | 0 <= k < |z| ensures z[k] == Patch(e, d, d, m)[k] {
      if k < d {
        assert f[..d][k] == e[..d][k];
      } else if k >= d + |m| {
        assert f[d + |m|..][k - d - |m|] == e[d..][k - d - |m|];
      }
    }
  }

  /** The id counter after a move: the gap takes ids, which the moved nodes then overwrite. */
  function MovedIdcnt(idcnt: nat, t: Tree, q: Path, p: Path, k: nat): nat
    requires ValidPath(t, q) && ValidPath(t, p) && k <= |At(t, p).kids|
  {
    if RangeStart(t, p, k) == Pos(t, q) then idcnt else idcnt + Size(At(t, q))
  }

  /** The cell of the moved root is the same throughout. */
  lemma MovedRoot(t: Tree, q: Path, p: Path)
    requires q != [] && ValidPath(t, q) && ValidPath(t, p) && !(q <= p)
    ensures var s, n := Pos(t, q), Size(At(t, q));
            && ValidPath(t, Up(q)) && s + n <= Size(t)
            && Bump(Bump(FlatT(t), t, Up(q), 0 - n), t, p, n)[s].desc == n - 1 == FlatT(t)[s].desc
  {
    hide FlatT, Pos, At, Size, Bump, Up, ValidPath;
    MovedBlock(t, q, p);
    NodeCell(t, q);
    HeadDesc(At(t, q));
    var s, n := Pos(t, q), Size(At(t, q));
    SliceHead(Bump(Bump(FlatT(t), t, Up(q), 0 - (n as int)), t, p, n), s, n, FlatT(At(t, q)));
    SliceHead(FlatT(t), s, n, FlatT(At(t, q))) by { BlockCells(t, q); }
  }

  lemma BlockCells(t: Tree, q: Path)
    requires q != [] && ValidPath(t, q)
    ensures Pos(t, q) + Size(At(t, q)) <= Size(t) && FlatT(t)[Pos(t, q)..Pos(t, q) + Size(At(t, q))] == FlatT(At(t, q))
  {
    hide FlatT, FlatF, Size, SizeF, Pos, At, RangeStart, Up, Last, ValidPath;
    UpValid(t, q);
    KidRange(t, Up(q), Last(q));
    RangeCells(t, Up(q), Last(q), Last(q) + 1);
  }

  lemma SliceHead<T>(c: seq<T>, s: nat, n: nat, m: seq<T>)
    requires 0 < n && s + n <= |c| && c[s..s + n] == m
    ensures c[s] == m[0]
  {
  }

  /** A child put where it already is. */
  lemma MoveNoop(t: Tree, p: Path, k: nat)
    requires ValidPath(t, p) && k < |At(t, p).kids|
    ensures ValidPath(t, p + [k]) && !(p + [k] <= p) && MoveTo(t, p + [k], p, k) == t
  {
    hide FlatT, FlatF, Size, SizeF, Pos, At, Shift, Splice, RangeStart;
    var q := p + [k];
    ExtendPath(t, p, k);
    assert Up(q) == p && Last(q) == k;
    UpValid(t, q);
    ShiftAbove(p, k);
    SpliceTwice(t, p, k);
  }

  lemma {:induction false} ShiftAbove(p: Path, k: nat)
    ensures Shift(p, p + [k]) == p
    decreases |p|
  {
    if p != [] {
      ShiftAbove(p[1..], k);
      assert (p + [k])[1..] == p[1..] + [k];
    }
  }

  lemma {:induction false} SpliceTwice(t: Tree, p: Path, k: nat)
    requires ValidPath(t, p) && k < |At(t, p).kids|
    ensures var u := Splice(t, p, k, k + 1, []);
            ValidPath(u, p) && k <= |At(u, p).kids| && Splice(u, p, k, k, [At(t, p).kids[k]]) == t
    decreases |p|
  {
    SpliceValid(t, p, k, k + 1, []);
    var u := Splice(t, p, k, k + 1, []);
    var v := Splice(u, p, k, k, [At(t, p).kids[k]]);
    if p == [] {
      assert v.kids == t.kids;
    } else {
      SpliceTwice(t.kids[p[0]], p[1..], k);
      assert v.kids == t.kids;
    }
  }

  /** All that a move in place relies on. */
  lemma MovePlaces(t: Tree, q: Path, p: Path, k: nat)
    requires q != [] && ValidPath(t, q) && ValidPath(t, p) && !(q <= p) && k <= |At(t, p).kids|
    ensures var s, n, d := Pos(t, q), Size(At(t, q)), RangeStart(t, p, k);
            && ValidPath(t, Up(q)) && 0 < s && s + n <= Size(t) && 0 < d && (d <= s || s + n <= d <= Size(t))
            && FlatT(t)[s].desc == n - 1
            && var c := Bump(Bump(FlatT(t), t, Up(q), 0 - n), t, p, n);
               && c[s].desc == n - 1
               && FlatT(MoveTo(t, q, p, k)) == Relocate(c, s, n, d)
  {
    hide FlatT, Bump, Relocate, MoveTo;
    ParentLink(t, q);
    RangeWithin(t, p, k);
    MoveFlat(t, q, p, k);
    MovedRoot(t, q, p);
  }

  /** If the next link of the node at `d` leads to `s`, then `s` is the following child already. */
  lemma NextIsKid(t: Tree, d: Path, s: nat, idcnt: nat)
    requires d != [] && ValidPath(t, d) && 0 < s < Size(t)
    ensures Pos(t, d) < Size(t) && ValidPath(t, Up(d)) && Last(d) < |At(t, Up(d)).kids|
    ensures LinkT(t, 0, NULL, NULL)[Pos(t, d)].next == s ==>
              && !(PathTo(t, s) <= Up(d)) && Last(d) + 1 < |At(t, Up(d)).kids|
              && MoveTo(t, PathTo(t, s), Up(d), Last(d) + 1) == t
              && MovedIdcnt(idcnt, t, PathTo(t, s), Up(d), Last(d) + 1) == idcnt
  {
    NextLink(t, d);
    if LinkT(t, 0, NULL, NULL)[Pos(t, d)].next == s {
      var p, k := Up(d), Last(d) + 1;
      MoveNoop(t, p, k);
      assert Up(p + [k]) == p && Last(p + [k]) == k;
      UpValid(t, p + [k]);
      PathToPos(t, p + [k]);
    }
  }

  /** Indices and links around a move of `s` to just behind the node at `d`. */
  lemma SiblingPlace(t: Tree, d: Path, s: nat)
    requires d != [] && ValidPath(t, d) && 0 < s < Size(t)
    ensures var q, l := PathTo(t, s), LinkT(t, 0, NULL, NULL);
            && ValidPath(t, Up(d)) && ValidPath(t, Up(q)) && Pos(t, d) < Size(t)
            && Last(d) < |At(t, Up(d)).kids|
            && l[s].parent == Pos(t, Up(q)) && l[Pos(t, d)].parent == Pos(t, Up(d))
            && Pos(t, d) + FlatT(t)[Pos(t, d)].desc + 1 == RangeStart(t, Up(d), Last(d) + 1)
  {
    var q := PathTo(t, s);
    UpValid(t, d);
    ParentLink(t, q);
    ParentLink(t, d);
    KidNode(t, Up(d), Last(d));
  }

  /** The same for a move of `s` to the front of the children of the node at `p`. */
  lemma ChildPlace(t: Tree, p: Path, s: nat, idcnt: nat)
    requires ValidPath(t, p) && 0 < s < Size(t)
    ensures var q, l := PathTo(t, s), LinkT(t, 0, NULL, NULL);
            && ValidPath(t, Up(q)) && Pos(t, p) < Size(t)
            && l[s].parent == Pos(t, Up(q)) && RangeStart(t, p, 0) == Pos(t, p) + 1
            && (l[Pos(t, p)].child == s ==>
                  !(q <= p) && MoveTo(t, q, p, 0) == t && MovedIdcnt(idcnt, t, q, p, 0) == idcnt)
  {
    var q := PathTo(t, s);
    ParentLink(t, q);
    NodeKids(t, p);
    AllKids(t, p);
    KidsStart(t, p);
    if LinkT(t, 0, NULL, NULL)[Pos(t, p)].child == s {
      MoveNoop(t, p, 0);
    }
  }

  /** Moving to the end of the children, behind the last one. */
  lemma LastPlace(t: Tree, p: Path)
    requires ValidPath(t, p)
    ensures var n := |At(t, p).kids|;
            n > 0 ==>
              var last := RangeStart(t, p, n - 1);
              0 < last < Size(t) && Up(PathTo(t, last)) == p && Last(PathTo(t, last)) + 1 == n
  {
    if At(t, p).kids != [] {
      LastKid(t, p);
    }
  }
}
