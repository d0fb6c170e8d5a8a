/**
 The abstract side of the tree editor: rose trees, their preorder cells with
 descendant counts, the parent/child/next links of every cell, and the one edit
 everything else is made of: replacing a range of children of one node.
 */
module RoseTree {
  import opened YNodes

  datatype Tree = Node(id: nat, data: Data, kids: seq<Tree>)

  /** What the array stores of a node, apart from its links. */
  datatype Cell = Cell(id: nat, data: Data, desc: int)

  /** Links are array indices, NULL is -1. */
  datatype Link = Link(parent: int, child: int, next: int)

  const NULL: int := -1

  function Size(t: Tree): (n: nat)
    ensures n >= 1
    decreases t, 1
  {
    1 + SizeF(t.kids)
  }

  function SizeF(f: seq<Tree>): nat
    decreases f, 0
  {
    if f == [] then 0 else Size(f[0]) + SizeF(f[1..])
  }

  function FlatT(t: Tree): (s: seq<Cell>)
    ensures |s| == Size(t)
    ensures s[0] == Cell(t.id, t.data, SizeF(t.kids))
    decreases t, 1
  {
    [Cell(t.id, t.data, SizeF(t.kids))] + FlatF(t.kids)
  }

  function FlatF(f: seq<Tree>): (s: seq<Cell>)
    ensures |s| == SizeF(f)
    decreases f, 0
  {
    if f == [] then [] else FlatT(f[0]) + FlatF(f[1..])
  }

  /** Links of the subtree `t` stored at `base`, with the given parent and next sibling. */
  function LinkT(t: Tree, base: nat, parent: int, next: int): (s: seq<Link>)
    ensures |s| == Size(t)
    ensures s[0] == Link(parent, if t.kids == [] then NULL else base + 1, next)
    decreases t, 1
  {
    [Link(parent, if t.kids == [] then NULL else base + 1, next)] + LinkF(t.kids, base + 1, base)
  }

  function LinkF(f: seq<Tree>, base: nat, parent: int): (s: seq<Link>)
    ensures |s| == SizeF(f)
    decreases f, 0
  {
    if f == [] then []
    else
      LinkT(f[0], base, parent, if |f| == 1 then NULL else base + Size(f[0]))
      + LinkF(f[1..], base + Size(f[0]), parent)
  }

  // ----- Paths -----

  type Path = seq<nat>

  predicate ValidPath(t: Tree, p: Path)
    decreases |p|
  {
    p == [] || (p[0] < |t.kids| && ValidPath(t.kids[p[0]], p[1..]))
  }

  function At(t: Tree, p: Path): Tree
    requires ValidPath(t, p)
    decreases |p|
  {
    if p == [] then t else At(t.kids[p[0]], p[1..])
  }

  /** Offset of child `k` from its parent. */
  function Off(t: Tree, k: nat): nat
    requires k <= |t.kids|
  {
    1 + SizeF(t.kids[..k])
  }

  /** Array index of the node at path `p`. */
  function Pos(t: Tree, p: Path): nat
    requires ValidPath(t, p)
    decreases |p|
  {
    if p == [] then 0 else Off(t, p[0]) + Pos(t.kids[p[0]], p[1..])
  }

  /** The child of a forest in which index `i` falls. */
  function KidAt(f: seq<Tree>, i: nat): (k: nat)
    requires i < SizeF(f)
    ensures k < |f|
    ensures SizeF(f[..k]) <= i < SizeF(f[..k]) + Size(f[k])
    decreases |f|
  {
    if i < Size(f[0]) then
      assert f[..0] == [];
      0
    else
      var k := KidAt(f[1..], i - Size(f[0]));
      assert f[..k + 1] == [f[0]] + f[1..][..k];
      assert ([f[0]] + f[1..][..k])[1..] == f[1..][..k];
      k + 1
  }

  /** The path of the node stored at index `i`. */
  function PathTo(t: Tree, i: nat): (p: Path)
    requires i < Size(t)
    ensures ValidPath(t, p) && Pos(t, p) == i
    ensures p == [] <==> i == 0
    decreases t
  {
    if i == 0 then []
    else
      var k := KidAt(t.kids, i - 1);
      var q := PathTo(t.kids[k], i - Off(t, k));
      assert ([k] + q)[1..] == q;
      [k] + q
  }

  // ----- Forest arithmetic -----

  lemma {:induction false} SizeConcat(f: seq<Tree>, g: seq<Tree>)
    ensures SizeF(f + g) == SizeF(f) + SizeF(g)
    decreases |f|
  {
    if f == [] {
      assert f + g == g;
    } else {
      assert (f + g)[1..] == f[1..] + g;
      SizeConcat(f[1..], g);
    }
  }

  lemma {:induction false} FlatConcat(f: seq<Tree>, g: seq<Tree>)
    ensures FlatF(f + g) == FlatF(f) + FlatF(g)
    ensures SizeF(f + g) == SizeF(f) + SizeF(g)
    decreases |f|
  {
    if f == [] {
      assert f + g == g;
    } else {
      assert (f + g)[1..] == f[1..] + g;
      FlatConcat(f[1..], g);
    }
  }

  lemma FlatSplit(f: seq<Tree>, k: nat)
    requires k < |f|
    ensures FlatF(f) == FlatF(f[..k]) + FlatT(f[k]) + FlatF(f[k + 1..])
    ensures SizeF(f) == SizeF(f[..k]) + Size(f[k]) + SizeF(f[k + 1..])
  {
    var y := f[k..];
    assert y[0] == f[k] && y[1..] == f[k + 1..] && f == f[..k] + y;
    assert FlatF(y) == FlatT(f[k]) + FlatF(f[k + 1..]) && SizeF(y) == Size(f[k]) + SizeF(f[k + 1..]);
    hide FlatF, FlatT, SizeF, Size;
    FlatConcat(f[..k], y);
    Assoc3(FlatF(f[..k]), FlatT(f[k]), FlatF(f[k + 1..]));
  }

  lemma Assoc3<T>(x: seq<T>, y: seq<T>, z: seq<T>)
    ensures x + (y + z) == x + y + z
  {
  }

  lemma Slices<T>(f: seq<T>, a: nat, b: nat)
    requires a <= b <= |f|
    ensures f == f[..a] + (f[a..b] + f[b..])
    ensures f[..b] == f[..a] + f[a..b]
  {
  }

  lemma FlatRange(f: seq<Tree>, a: nat, b: nat)
    requires a <= b <= |f|
    ensures FlatF(f) == FlatF(f[..a]) + FlatF(f[a..b]) + FlatF(f[b..])
    ensures SizeF(f) == SizeF(f[..a]) + SizeF(f[a..b]) + SizeF(f[b..])
    ensures SizeF(f[..b]) == SizeF(f[..a]) + SizeF(f[a..b])
  {
    Slices(f, a, b);
    FlatConcat3(f[..a], f[a..b], f[b..]);
  }

  lemma FlatConcat3(x: seq<Tree>, y: seq<Tree>, z: seq<Tree>)
    ensures FlatF(x + (y + z)) == FlatF(x) + FlatF(y) + FlatF(z)
    ensures SizeF(x + (y + z)) == SizeF(x) + SizeF(y) + SizeF(z)
    ensures SizeF(x + y) == SizeF(x) + SizeF(y)
  {
    hide FlatF, SizeF;
    FlatConcat(x, y + z);
    FlatConcat(y, z);
    SizeConcat(x, y);
    Assoc3(FlatF(x), FlatF(y), FlatF(z));
  }

  lemma SizeZero(f: seq<Tree>)
    ensures SizeF(f) == 0 <==> f == []
  {
  }

  lemma KidUnique(f: seq<Tree>, k: nat, i: nat)
    requires k < |f|
    requires SizeF(f[..k]) <= i < SizeF(f[..k]) + Size(f[k])
    ensures i < SizeF(f) && KidAt(f, i) == k
  {
    FlatSplit(f, k);
    var j := KidAt(f, i);
    if j < k {
      OffMonotone(f, j, k);
    } else if k < j {
      OffMonotone(f, k, j);
    }
  }

  lemma OffMonotone(f: seq<Tree>, j: nat, k: nat)
    requires j < k <= |f|
    ensures SizeF(f[..j]) + Size(f[j]) <= SizeF(f[..k])
  {
    assert f[..k][..j] == f[..j];
    FlatSplit(f[..k], j);
  }

  lemma {:induction false} PosBound(t: Tree, p: Path)
    requires ValidPath(t, p)
    ensures Pos(t, p) + Size(At(t, p)) <= Size(t)
    decreases |p|
  {
    if p != [] {
      PosBound(t.kids[p[0]], p[1..]);
      FlatSplit(t.kids, p[0]);
    }
  }

  /** Index and path determine each other. */
  lemma {:induction false} PathToPos(t: Tree, p: Path)
    requires ValidPath(t, p)
    ensures Pos(t, p) < Size(t) && PathTo(t, Pos(t, p)) == p
    decreases |p|
  {
    PosBound(t, p);
    if p != [] {
      var k := p[0];
      PathToPos(t.kids[k], p[1..]);
      PosBound(t.kids[k], p[1..]);
      KidUnique(t.kids, k, Pos(t, p) - 1);
      PathToStep(t, Pos(t, p), k);
    }
  }

  lemma PathToStep(t: Tree, i: nat, k: nat)
    requires 0 < i < Size(t) && k == KidAt(t.kids, i - 1)
    ensures PathTo(t, i) == [k] + PathTo(t.kids[k], i - Off(t, k))
  {
  }

  // ----- The edit -----

  /** Children `a..b` of the node at path `p` are replaced by the forest `r`. */
  function Splice(t: Tree, p: Path, a: nat, b: nat, r: seq<Tree>): Tree
    requires ValidPath(t, p) && a <= b <= |At(t, p).kids|
    decreases |p|
  {
    if p == [] then t.(kids := t.kids[..a] + r + t.kids[b..])
    else t.(kids := t.kids[p[0] := Splice(t.kids[p[0]], p[1..], a, b, r)])
  }

  /** Whether index `i` is the node at path `p` or one of its ancestors. */
  predicate IsAnc(t: Tree, p: Path, i: int)
    requires ValidPath(t, p)
    decreases |p|
  {
    i == 0 || (p != [] && IsAnc(t.kids[p[0]], p[1..], i - Off(t, p[0])))
  }

  /** The cells `s` with `d` added to the counts of the node at `p` and of its ancestors. */
  function Bump(s: seq<Cell>, t: Tree, p: Path, d: int): (r: seq<Cell>)
    requires ValidPath(t, p)
    ensures |r| == |s|
  {
    seq(|s|, i requires 0 <= i < |s| => if IsAnc(t, p, i) then s[i].(desc := s[i].desc + d) else s[i])
  }

  lemma {:induction false} AncBounds(t: Tree, p: Path, i: int)
    requires ValidPath(t, p) && IsAnc(t, p, i)
    ensures 0 <= i <= Pos(t, p) < Size(t)
    decreases |p|
  {
    if p != [] {
      FlatSplit(t.kids, p[0]);
      if i != 0 {
        AncBounds(t.kids[p[0]], p[1..], i - Off(t, p[0]));
      } else {
        AncBounds(t.kids[p[0]], p[1..], 0);
      }
    }
  }

  lemma {:induction false} AncSelf(t: Tree, p: Path)
    requires ValidPath(t, p)
    ensures IsAnc(t, p, Pos(t, p))
    decreases |p|
  {
    if p != [] {
      AncSelf(t.kids[p[0]], p[1..]);
    }
  }

  /** First and one-past-last index of children `a..b` of the node at `p`. */
  function RangeStart(t: Tree, p: Path, a: nat): nat
    requires ValidPath(t, p) && a <= |At(t, p).kids|
  {
    Pos(t, p) + Off(At(t, p), a)
  }

  lemma Assoc4<T>(c: seq<T>, x: seq<T>, y: seq<T>, z: seq<T>)
    ensures c + (x + y + z) == c + x + y + z
  {
  }

  lemma BumpParts(t: Tree, p: Path, d: int, c: Cell, x: seq<Cell>, y: seq<Cell>, z: seq<Cell>)
    requires ValidPath(t, p) && p != []
    requires |x| == SizeF(t.kids[..p[0]]) && |y| == Size(t.kids[p[0]])
    ensures Bump([c] + x + y + z, t, p, d)
            == [c.(desc := c.desc + d)] + x + Bump(y, t.kids[p[0]], p[1..], d) + z
  {
    var kid := t.kids[p[0]];
    var all := [c] + x + y + z;
    var lhs := Bump(all, t, p, d);
    var rhs := [c.(desc := c.desc + d)] + x + Bump(y, kid, p[1..], d) + z;
    forall i | 0 <= i < |lhs| ensures lhs[i] == rhs[i] {
      if i > 0 && IsAnc(kid, p[1..], i - Off(t, p[0])) {
        AncBounds(kid, p[1..], i - Off(t, p[0]));
      }
    }
  }

  lemma BumpStep(t: Tree, p: Path, d: int)
    requires ValidPath(t, p) && p != []
    ensures var k := p[0];
            Bump(FlatT(t), t, p, d)
            == [Cell(t.id, t.data, SizeF(t.kids) + d)] + FlatF(t.kids[..k])
               + Bump(FlatT(t.kids[k]), t.kids[k], p[1..], d) + FlatF(t.kids[k + 1..])
  {
    var k := p[0];
    FlatSplit(t.kids, k);
    var c := Cell(t.id, t.data, SizeF(t.kids));
    var x, y, z := FlatF(t.kids[..k]), FlatT(t.kids[k]), FlatF(t.kids[k + 1..]);
    Assoc4([c], x, y, z);
    BumpParts(t, p, d, c, x, y, z);
  }

  /** Cells `s..e` of `g` replaced by `m`. */
  function Patch<T>(g: seq<T>, s: nat, e: nat, m: seq<T>): seq<T>
    requires s <= e <= |g|
  {
    g[..s] + m + g[e..]
  }

  lemma PatchInside<T>(c: seq<T>, x: seq<T>, y: seq<T>, z: seq<T>, r: seq<T>, s: nat, e: nat)
    requires s <= e <= |y|
    ensures Patch(c + x + y + z, |c| + |x| + s, |c| + |x| + e, r) == c + (x + Patch(y, s, e, r) + z)
  {
  }

  lemma PatchMiddle<T>(c: seq<T>, x: seq<T>, y: seq<T>, z: seq<T>, r: seq<T>)
    ensures Patch(c + (x + y + z), |c| + |x|, |c| + |x| + |y|, r) == c + (x + r + z)
  {
  }

  lemma BumpHere(t: Tree, d: int, c: Cell, y: seq<Cell>)
    ensures Bump([c] + y, t, [], d) == [c.(desc := c.desc + d)] + y
  {
  }

  lemma FlatMiddle(x: seq<Tree>, r: seq<Tree>, z: seq<Tree>)
    ensures FlatF(x + r + z) == FlatF(x) + FlatF(r) + FlatF(z)
    ensures SizeF(x + r + z) == SizeF(x) + SizeF(r) + SizeF(z)
  {
    FlatConcat(x + r, z);
    FlatConcat(x, r);
  }

  lemma FlatReplace(f: seq<Tree>, k: nat, u: Tree)
    requires k < |f|
    ensures FlatF(f[k := u]) == FlatF(f[..k]) + FlatT(u) + FlatF(f[k + 1..])
    ensures SizeF(f[k := u]) == SizeF(f[..k]) + Size(u) + SizeF(f[k + 1..])
  {
    FlatSplit(f[k := u], k);
    assert f[k := u][..k] == f[..k] && f[k := u][k + 1..] == f[k + 1..];
  }

  /** The edit replaces one contiguous range of cells and changes the counts on one path to the root. */
  ghost predicate SpliceIsPatch(t: Tree, p: Path, a: nat, b: nat, r: seq<Tree>)
    requires ValidPath(t, p) && a <= b <= |At(t, p).kids|
  {
    var s, e := RangeStart(t, p, a), RangeStart(t, p, b);
    var d := SizeF(r) - (e - s);
    && s <= e <= Size(t)
    && Size(Splice(t, p, a, b, r)) == Size(t) + d
    && FlatT(Splice(t, p, a, b, r)) == Patch(Bump(FlatT(t), t, p, d), s, e, FlatF(r))
  }

  lemma {:induction false} SpliceFlat(t: Tree, p: Path, a: nat, b: nat, r: seq<Tree>)
    requires ValidPath(t, p) && a <= b <= |At(t, p).kids|
    ensures SpliceIsPatch(t, p, a, b, r)
    decreases |p|
  {
    if p == [] {
      SpliceFlatHere(t, a, b, r);
    } else {
      SpliceFlat(t.kids[p[0]], p[1..], a, b, r);
      SpliceFlatBelow(t, p, a, b, r);
    }
  }

  lemma SpliceFlatHere(t: Tree, a: nat, b: nat, r: seq<Tree>)
    requires a <= b <= |t.kids|
    ensures SpliceIsPatch(t, [], a, b, r)
  {
    hide FlatF, SizeF, Patch, Bump;
    FlatRange(t.kids, a, b);
    var x, y, z := t.kids[..a], t.kids[a..b], t.kids[b..];
    FlatMiddle(x, r, z);
    var c := Cell(t.id, t.data, SizeF(t.kids));
    var d := SizeF(r) - SizeF(y);
    BumpHere(t, d, c, FlatF(t.kids));
    PatchMiddle([c.(desc := c.desc + d)], FlatF(x), FlatF(y), FlatF(z), FlatF(r));
  }

  lemma SpliceFlatBelow(t: Tree, p: Path, a: nat, b: nat, r: seq<Tree>)
    requires ValidPath(t, p) && p != [] && a <= b <= |At(t, p).kids|
    requires SpliceIsPatch(t.kids[p[0]], p[1..], a, b, r)
    ensures SpliceIsPatch(t, p, a, b, r)
  {
    hide FlatF, SizeF, Patch, Bump;
    var k, kid, q := p[0], t.kids[p[0]], p[1..];
    var s, e := RangeStart(kid, q, a), RangeStart(kid, q, b);
    var d := SizeF(r) - (e - s);
    var kid' := Splice(kid, q, a, b, r);
    var c := Cell(t.id, t.data, SizeF(t.kids) + d);
    var x, y, z := FlatF(t.kids[..k]), Bump(FlatT(kid), kid, q, d), FlatF(t.kids[k + 1..]);
    FlatSplit(t.kids, k);
    BumpStep(t, p, d);
    PatchInside([c], x, y, z, FlatF(r), s, e);
    FlatReplace(t.kids, k, kid');
  }
}
