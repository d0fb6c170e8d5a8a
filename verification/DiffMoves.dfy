/** MOVE: a node is inserted at the new place, and takes over what the old one holds. */
module DiffMoves {
  import opened YNodes
  import opened AugeasSiblings
  import opened DiffStore

  // ----- What the program does -----

  /** The YANG data after the move, which comes first. */
  function Placed(y: seq<Entry>, i: nat, j: nat): (z: seq<Entry>)
    requires i < |y| && j < |y|
    ensures |z| == |y| && z[j] == y[i]
  {
    PutIn(TakeOut(y, i), j, y[i])
  }

  function Next(p: Place): Place {
    Place(p.name, p.index + 1)
  }

  /** augds_store_move_direction: the keys of the entry and of the anchor are compared. */
  predicate MovedBack(z: seq<Entry>, j: nat, r: Anchor)
    requires j < |z| && r.Beside? && r.pos < |z|
  {
    z[j].key > z[r.pos].key
  }

  /** The operation MOVE for the entry that is at `j` after it; None is an assertion or an operation that fails.
      A hidden entry has no path: nothing is done, but an anchor behind it asks for the label of that path. */
  function NodeMoved(z: seq<Entry>, a: seq<Item>, j: nat): Option<seq<Item>>
    requires j < |z|
  {
    var r, path := AnchorOf(z, j), PlaceOf(z, j);
    if r == NoAnchor then None
    else if !z[j].shown then if r.before then None else Some(a)
    else
      match Inserted(a, AnchorPlace(z, j, r), path.name, r.before)
      case None => None
      case Some(b) =>
        if MovedBack(z, j, r) then Moved(b, Next(path), path) else Moved(b, path, Next(path))
  }

  /** The move of the entry at `i` to place `j`, on Augeas. */
  function MoveApplied(y: seq<Entry>, a: seq<Item>, i: nat, j: nat): Option<seq<Item>>
    requires i < |y| && j < |y|
  {
    NodeMoved(Placed(y, i, j), a, j)
  }

  // ----- The values of one label -----

  function Vals(a: seq<Item>, l: string): (v: seq<Option<string>>)
    ensures |v| == Occ(a, l)
  {
    if a == [] then [] else (if a[0].name == l then [a[0].value] else []) + Vals(a[1..], l)
  }

  lemma {:induction false} ValsConcat(a: seq<Item>, b: seq<Item>, l: string)
    ensures Vals(a + b, l) == Vals(a, l) + Vals(b, l)
    decreases |a|
  {
    if a == [] {
      assert a + b == b;
    } else {
      assert (a + b)[1..] == a[1..] + b;
      ValsConcat(a[1..], b, l);
    }
  }

  lemma ValsOne(x: Item, l: string)
    ensures Vals([x], l) == if x.name == l then [x.value] else []
  {
    assert [x][1..] == [];
  }

  lemma ValsThree(a: seq<Item>, x: Item, b: seq<Item>, l: string)
    ensures Vals(a + [x] + b, l) == Vals(a, l) + (if x.name == l then [x.value] else []) + Vals(b, l)
    ensures Vals(a + b, l) == Vals(a, l) + Vals(b, l)
  {
    ValsConcat(a + [x], b, l);
    ValsConcat(a, [x], l);
    ValsConcat(a, b, l);
    ValsOne(x, l);
  }

  /** The values up to a node, its own, and the others. */
  lemma ValsSplit(a: seq<Item>, n: nat, l: string)
    requires n < |a|
    ensures Vals(a, l) == Vals(a[..n], l) + (if a[n].name == l then [a[n].value] else []) + Vals(a[n + 1..], l)
    ensures Vals(TakeOut(a, n), l) == Vals(a[..n], l) + Vals(a[n + 1..], l)
  {
    hide Vals, Occ;
    assert a == a[..n] + [a[n]] + a[n + 1..];
    ValsThree(a[..n], a[n], a[n + 1..], l);
  }

  lemma ValsPut(a: seq<Item>, n: nat, x: Item)
    requires n <= |a|
    ensures Occ(a[..n], x.name) <= Occ(a, x.name)
    ensures Vals(PutIn(a, n, x), x.name) == PutIn(Vals(a, x.name), Occ(a[..n], x.name), x.value)
  {
    hide Vals, Occ;
    Parts(a, n);
    ValsThree(a[..n], x, a[n..], x.name);
    Joint(Vals(a[..n], x.name), Vals(a[n..], x.name));
  }

  lemma Center<T>(u: seq<T>, x: T, w: seq<T>, y: T)
    ensures var v := u + [x] + w; |u| < |v| && v[|u|] == x && TakeOut(v, |u|) == u + w && v[|u| := y] == u + [y] + w
  {
  }

  lemma ValsAt(a: seq<Item>, n: nat, v: Option<string>)
    requires n < |a|
    ensures var l, o := a[n].name, Occ(a[..n], a[n].name);
            && o < Occ(a, l) && Vals(a, l)[o] == a[n].value
            && Vals(TakeOut(a, n), l) == TakeOut(Vals(a, l), o)
            && Vals(a[n := a[n].(value := v)], l) == Vals(a, l)[o := v]
  {
    hide Vals, Occ;
    var l := a[n].name;
    var b := a[n := a[n].(value := v)];
    ValsSplit(a, n, l);
    ValsSplit(b, n, l);
    assert b[..n] == a[..n] && b[n + 1..] == a[n + 1..];
    Center(Vals(a[..n], l), a[n].value, Vals(a[n + 1..], l), v);
  }

  /** A move between neighbours of one label: the values close up. */
  lemma ValsMoved(b: seq<Item>, p: Place, back: bool)
    requires p.index > 0
    ensures var c := if back then Moved(b, Next(p), p) else Moved(b, p, Next(p));
            && (c.Some? <==> Occ(b, p.name) >= p.index + 1)
            && (c.Some? ==> Vals(c.value, p.name) == TakeOut(Vals(b, p.name), if back then p.index - 1 else p.index))
  {
    hide Vals, Occ, Find;
    var q := Next(p);
    FindOnly(b, p);
    FindOnly(b, q);
    if Find(b, q).Some? {
      var n := Find(b, q).value;
      ValsAt(b, n, None);
      if Find(b, p).Some? {
        var m := Find(b, p).value;
        if back { ValsMovedAt(b, n, m); } else { ValsMovedAt(b, m, n); }
      }
    } else if Find(b, p).Some? {
      ValsAt(b, Find(b, p).value, None);
    }
  }

  lemma ValsMovedAt(b: seq<Item>, src: nat, dst: nat)
    requires src < |b| && dst < |b| && b[src].name == b[dst].name
    requires var x, y := Occ(b[..src], b[src].name), Occ(b[..dst], b[dst].name); x == y + 1 || y == x + 1
    ensures var l, x, y := b[src].name, Occ(b[..src], b[src].name), Occ(b[..dst], b[dst].name);
            && src != dst && x < Occ(b, l) && y < Occ(b, l)
            && Vals(TakeOut(b[dst := b[dst].(value := b[src].value)], src), l) == TakeOut(Vals(b, l), y)
  {
    hide *;
    var l, x, y := b[src].name, Occ(b[..src], b[src].name), Occ(b[..dst], b[dst].name);
    var d := b[dst := b[dst].(value := b[src].value)];
    ValsAt(b, src, None);
    ValsAt(b, dst, b[src].value);
    OccUpdate(b, dst, b[src].value, src);
    assert d[src].name == l;
    ValsAt(d, src, None);
    assert Vals(d, l) == Vals(b, l)[y := Vals(b, l)[x]];
    CloseUp(Vals(b, l), x, y);
  }

  lemma CloseUp<T>(v: seq<T>, x: nat, y: nat)
    requires x < |v| && y < |v| && (x == y + 1 || y == x + 1)
    ensures TakeOut(v[y := v[x]], x) == TakeOut(v, y)
  {
  }

  /** Values do not matter for counting. */
  lemma {:induction false} OccUpdate(a: seq<Item>, n: nat, v: Option<string>, k: nat)
    requires n < |a| && k <= |a|
    ensures Occ(a[n := a[n].(value := v)][..k], a[n].name) == Occ(a[..k], a[n].name)
  {
    var b := a[n := a[n].(value := v)];
    if n < k {
      OccSplit(a[..k], n, a[n].name);
      OccSplit(b[..k], n, a[n].name);
      assert a[..k][..n] == b[..k][..n] && a[..k][n + 1..] == b[..k][n + 1..];
    } else {
      assert a[..k] == b[..k];
    }
  }

  // ----- Which index the path must have -----

  ghost predicate NoTwo<T(!new)>(v: seq<T>) {
    forall i, j :: 0 <= i < j < |v| ==> v[i] != v[j]
  }

  lemma RotatedAt<T(!new)>(v: seq<T>, o: nat, k: nat)
    requires NoTwo(v) && o < |v| && k < |v| && o != k
    ensures var e := PutIn(TakeOut(v, o), k, v[o]); |e| == |v| && e[o] != v[o]
  {
    var e := PutIn(TakeOut(v, o), k, v[o]);
    assert e[o] == if k < o then v[o - 1] else v[o + 1];
  }

  /** A value moved to another place is not where it was, and nothing else closes the gap. */
  lemma ShiftedValues<T(!new)>(v: seq<T>, o: nat, k: nat, n: nat, x: T, d: nat)
    requires NoTwo(v) && o < |v| && k < |v| && (n == k || n == k + 1) && (d == k || d == k + 1)
    requires TakeOut(PutIn(v, n, x), d) == PutIn(TakeOut(v, o), k, v[o])
    ensures k == o
  {
    var l := TakeOut(PutIn(v, n, x), d);
    assert l == if d == n then v else v[k := x];
    if k != o { RotatedAt(v, o, k); }
  }

  /** The old place `r`, the new place `s` among the others, and the place `n` where the new node was put. */
  predicate Around(a: seq<Item>, r: nat, s: nat, n: nat) {
    && r < |a| && s < |a| && n <= |a|
    && var l, k := a[r].name, Occ(TakeOut(a, r)[..s], a[r].name);
       Occ(a[..n], l) == k || Occ(a[..n], l) == k + 1
  }

  function Wanted(a: seq<Item>, r: nat, s: nat): seq<Item>
    requires r < |a| && s < |a|
  {
    PutIn(TakeOut(a, r), s, a[r])
  }

  /** Both operations on Augeas, with the new node at `n`. */
  function Swapped(a: seq<Item>, r: nat, s: nat, n: nat, back: bool): Option<seq<Item>>
    requires Around(a, r, s, n)
  {
    var p := Place(a[r].name, 1 + Occ(TakeOut(a, r)[..s], a[r].name));
    var b := PutIn(a, n, Item(a[r].name, None));
    if back then Moved(b, Next(p), p) else Moved(b, p, Next(p))
  }

  lemma IndexStays(a: seq<Item>, r: nat, s: nat, n: nat, back: bool)
    requires Around(a, r, s, n) && NoTwo(Vals(a, a[r].name)) && Swapped(a, r, s, n, back) == Some(Wanted(a, r, s))
    ensures Occ(TakeOut(a, r)[..s], a[r].name) == Occ(a[..r], a[r].name)
  {
    var l, k := a[r].name, Occ(TakeOut(a, r)[..s], a[r].name);
    var b := PutIn(a, n, Item(l, None));
    ValsAt(a, r, None);
    ValsPut(a, n, Item(l, None));
    ValsPut(TakeOut(a, r), s, a[r]);
    ValsMoved(b, Place(l, 1 + k), back);
    ShiftedValues(Vals(a, l), Occ(a[..r], l), k, Occ(a[..n], l), None, if back then k else k + 1);
  }

  // ----- What the operations do when the index stays -----

  lemma TakeFront<T>(a: seq<T>, r: nat, s: nat)
    requires r <= s < |a|
    ensures TakeOut(a, r)[..s] == a[..r] + a[r + 1..s + 1] && a[..s + 1] == a[..r] + [a[r]] + a[r + 1..s + 1]
  {
  }

  lemma TakeOcc(a: seq<Item>, r: nat, s: nat)
    requires r < |a| && s < |a|
    ensures s <= r ==> TakeOut(a, r)[..s] == a[..s] && (s < r ==> TakeOut(a, r)[s] == a[s])
    ensures s >= r ==> Occ(a[..s + 1], a[r].name) == Occ(TakeOut(a, r)[..s], a[r].name) + 1
    ensures s >= r ==> forall l :: l != a[r].name ==> Occ(a[..s + 1], l) == Occ(TakeOut(a, r)[..s], l)
    ensures s >= r && s + 1 < |a| ==> TakeOut(a, r)[s] == a[s + 1]
  {
    if s >= r {
      var x, w := a[..r], a[r + 1..s + 1];
      TakeFront(a, r, s);
      forall l ensures Occ(a[..s + 1], l) == Occ(TakeOut(a, r)[..s], l) + if a[r].name == l then 1 else 0 {
        OccConcat(x + [a[r]], w, l);
        OccConcat(x, [a[r]], l);
        OccConcat(x, w, l);
        OccOne(a[r], l);
      }
    }
  }

  lemma {:induction false} OccMore(a: seq<Item>, m: nat, n: nat, l: string)
    requires m <= n <= |a|
    ensures Occ(a[..m], l) <= Occ(a[..n], l)
    ensures Occ(a[..m], l) == Occ(a[..n], l) ==> forall i :: m <= i < n ==> a[i].name != l
    decreases n - m
  {
    if m < n {
      OccMore(a, m, n - 1, l);
      OccSplit(a[..n], n - 1, l);
      assert a[..n][..n - 1] == a[..n - 1] && a[..n][n..] == [];
    }
  }

  lemma PutFront(a: seq<Item>, n: nat, x: Item, k: nat)
    requires n <= |a| && k <= |a|
    ensures var b := PutIn(a, n, x);
            && |b| == |a| + 1 && b[n] == x
            && (k <= n ==> b[..k] == a[..k]) && (k < n ==> b[k] == a[k]) && (n <= k < |a| ==> b[k + 1] == a[k])
            && (n <= k ==> Occ(b[..k + 1], x.name) == Occ(a[..k], x.name) + 1)
  {
    var b := PutIn(a, n, x);
    if n <= k {
      var u, w := a[..n], a[n..k];
      assert b[..k + 1] == u + [x] + w && a[..k] == u + w;
      OccConcat(u + [x], w, x.name);
      OccConcat(u, [x], x.name);
      OccConcat(u, w, x.name);
      OccOne(x, x.name);
    }
  }

  /** Both nodes of the label, the new one at `n` and the old one. */
  lemma BothFound(a: seq<Item>, r: nat, n: nat)
    requires r < |a| && n <= |a| && Occ(a[..n], a[r].name) == Occ(a[..r], a[r].name) + if n <= r then 0 else 1
    ensures var p := Place(a[r].name, 1 + Occ(a[..r], a[r].name));
            var b := PutIn(a, n, Item(a[r].name, None));
            && Find(b, p) == Some(if n <= r then n else r) && Find(b, Next(p)) == Some(if n <= r then r + 1 else n)
  {
    hide Occ, Find;
    var x := Item(a[r].name, None);
    var p := Place(a[r].name, 1 + Occ(a[..r], a[r].name));
    PutFront(a, n, x, r);
    PutFront(a, n, x, n);
    FindIs(PutIn(a, n, x), p, if n <= r then n else r);
    FindIs(PutIn(a, n, x), Next(p), if n <= r then r + 1 else n);
  }

  lemma PutPieces<T>(x: seq<T>, y: seq<T>, z: seq<T>, o: T, c: T)
    ensures PutIn(x + y + [o] + z, |x|, c) == x + [c] + y + [o] + z
    ensures PutIn(x + [o] + y + z, |x| + 1 + |y|, c) == x + [o] + y + [c] + z
    ensures PutIn(x + y + z, |x| + |y|, c) == x + y + [c] + z && PutIn(x + y + z, |x|, c) == x + [c] + y + z
  {
  }

  lemma TakePieces<T>(x: seq<T>, c: T, y: seq<T>, o: T, z: seq<T>, d: T)
    ensures var b := x + [c] + y + [o] + z;
            && |b| == |x| + |y| + |z| + 2 && b[|x|] == c && b[|x| + 1 + |y|] == o
            && TakeOut(b, |x|) == x + y + [o] + z && TakeOut(b, |x| + 1 + |y|) == x + [c] + y + z
            && b[|x| := d] == x + [d] + y + [o] + z && b[|x| + 1 + |y| := d] == x + [c] + y + [d] + z
  {
  }

  lemma OnePiece<T>(x: seq<T>, o: T, z: seq<T>, d: T)
    ensures var a := x + [o] + z;
            |a| == |x| + |z| + 1 && a[|x|] == o && TakeOut(a, |x|) == x + z && a[|x| := d] == x + [d] + z
  {
  }

  lemma Pieces<T>(a: seq<T>, m: nat, r: nat)
    requires m <= r < |a|
    ensures a == a[..m] + a[m..r] + [a[r]] + a[r + 1..] && |a[..m]| == m && |a[m..r]| == r - m
  {
  }

  lemma Pieces2<T>(a: seq<T>, r: nat, m: nat)
    requires r < m <= |a|
    ensures a == a[..r] + [a[r]] + a[r + 1..m] + a[m..] && |a[..r]| == r && |a[r + 1..m]| == m - r - 1
  {
  }

  lemma SwapFront(a: seq<Item>, r: nat, n: nat)
    requires n <= r < |a|
    ensures var b := PutIn(a, n, Item(a[r].name, None));
            && r + 1 < |b|
            && TakeOut(b[n := b[n].(value := b[r + 1].value)], r + 1) == PutIn(TakeOut(a, r), n, a[r])
            && TakeOut(b[r + 1 := b[r + 1].(value := b[n].value)], n) == a[r := a[r].(value := None)]
  {
    hide *;
    var x, y, z, o, c := a[..n], a[n..r], a[r + 1..], a[r], Item(a[r].name, None);
    Pieces(a, n, r);
    PutPieces(x, y, z, o, c);
    TakePieces(x, c, y, o, z, o);
    TakePieces(x, o, y, o, z, o);
    TakePieces(x, c, y, o, z, c);
    TakePieces(x, c, y, c, z, c);
    OnePiece(x + y, o, z, c);
    PutPieces(x, y, z, o, o);
    assert c.(value := o.value) == o && o.(value := c.value) == c && o.(value := None) == c;
  }

  lemma SwapBehind(a: seq<Item>, r: nat, n: nat)
    requires r < n <= |a|
    ensures var b := PutIn(a, n, Item(a[r].name, None));
            && n < |b|
            && TakeOut(b[n := b[n].(value := b[r].value)], r) == PutIn(TakeOut(a, r), n - 1, a[r])
            && TakeOut(b[r := b[r].(value := b[n].value)], n) == a[r := a[r].(value := None)]
  {
    hide *;
    var x, y, z, o, c := a[..r], a[r + 1..n], a[n..], a[r], Item(a[r].name, None);
    Pieces2(a, r, n);
    PutPieces(x, y, z, o, c);
    TakePieces(x, o, y, c, z, o);
    TakePieces(x, o, y, o, z, o);
    TakePieces(x, o, y, c, z, c);
    TakePieces(x, c, y, c, z, c);
    assert x + [o] + y + z == x + [o] + (y + z);
    OnePiece(x, o, y + z, c);
    assert x + [c] + (y + z) == x + [c] + y + z && x + (y + z) == x + y + z;
    PutPieces(x, y, z, o, o);
    assert c.(value := o.value) == o && o.(value := c.value) == c && o.(value := None) == c;
  }

  lemma MovedIs(b: seq<Item>, p: Place, q: Place, m: nat, n: nat)
    requires m < |b| && n < |b| && m != n && Find(b, p) == Some(m) && Find(b, q) == Some(n)
    ensures Moved(b, p, q) == Some(TakeOut(b[n := b[n].(value := b[m].value)], m))
  {
    hide Find;
  }

  lemma SwappedBy(a: seq<Item>, r: nat, s: nat, n: nat, back: bool)
    requires Around(a, r, s, n)
    ensures var p := Place(a[r].name, 1 + Occ(TakeOut(a, r)[..s], a[r].name));
            var b := PutIn(a, n, Item(a[r].name, None));
            Swapped(a, r, s, n, back) == if back then Moved(b, Next(p), p) else Moved(b, p, Next(p))
  {
  }

  /** The new node in front of the old one, or behind it, with no node of the label between them. */
  lemma SwappedIs(a: seq<Item>, r: nat, s: nat, n: nat, back: bool)
    requires Around(a, r, s, n) && r < |a| && s < |a| && n <= |a|
    requires Occ(TakeOut(a, r)[..s], a[r].name) == Occ(a[..r], a[r].name)
    requires Occ(a[..n], a[r].name) == Occ(a[..r], a[r].name) + if n <= r then 0 else 1
    ensures Swapped(a, r, s, n, back)
            == Some(if back == (n <= r) then PutIn(TakeOut(a, r), if n <= r then n else n - 1, a[r])
                    else a[r := a[r].(value := None)])
  {
    hide *;
    BothFound(a, r, n);
    SwappedBy(a, r, s, n, back);
    var p := Place(a[r].name, 1 + Occ(a[..r], a[r].name));
    var b := PutIn(a, n, Item(a[r].name, None));
    if n <= r {
      SwapFront(a, r, n);
      MovedIs(b, Next(p), p, r + 1, n);
      MovedIs(b, p, Next(p), n, r + 1);
    } else {
      SwapBehind(a, r, n);
      MovedIs(b, Next(p), p, n, r);
      MovedIs(b, p, Next(p), r, n);
    }
  }

  /** No other place gives the same siblings. */
  lemma PutSame(a: seq<Item>, m: nat, s: nat, x: Item)
    requires m <= |a| && s <= |a| && Occ(a[..m], x.name) == Occ(a[..s], x.name)
    ensures PutIn(a, m, x) == PutIn(a, s, x) ==> m == s
  {
    if m < s {
      OccMore(a, m, s, x.name);
      assert PutIn(a, m, x)[m] == x && PutIn(a, s, x)[m] == a[m];
      if PutIn(a, m, x)[m + 1] == PutIn(a, s, x)[m + 1] { }
      assert a[m].name != x.name;
    } else if s < m {
      OccMore(a, s, m, x.name);
      assert PutIn(a, s, x)[s] == x && PutIn(a, m, x)[s] == a[s];
      assert a[s].name != x.name;
    }
  }

  /** The old node stays where it was and loses its value: right only if it has none and moves past nobody. */
  lemma StayedIs(a: seq<Item>, r: nat, s: nat)
    requires r < |a| && s < |a| && Occ(TakeOut(a, r)[..s], a[r].name) == Occ(a[..r], a[r].name)
    ensures a[r := a[r].(value := None)] == Wanted(a, r, s) <==> s == r && a[r].value == None
  {
    var b, w, a1 := a[r := a[r].(value := None)], Wanted(a, r, s), TakeOut(a, r);
    assert Wanted(a, r, r) == a;
    assert a1[..r] == a[..r];
    if s < r {
      OccMore(a1, s, r, a[r].name);
      assert w[s] == a[r] && b[s] == a1[s];
    } else if r < s {
      OccMore(a1, r, s, a[r].name);
      assert w[r] == a1[r] && b[r].name == a[r].name;
    }
  }

  // ----- Where the anchor's path leads -----

  /** Everything about one move, on both sides. */
  ghost predicate Moving(y: seq<Entry>, i: nat, j: nat, r: nat, s: nat) {
    && i < |y| && j < |y| && y[i].shown && Uniform(y)
    && r == |Shown(y[..i])| && s == |Shown(Placed(y, i, j)[..j])|
  }

  lemma TakeShown(y: seq<Entry>, i: nat)
    requires i < |y| && y[i].shown
    ensures var a, r := Shown(y), |Shown(y[..i])|;
            r < |a| && a[r] == ItemOf(y[i]) && a[..r] == Shown(y[..i]) && Shown(TakeOut(y, i)) == TakeOut(a, r)
  {
    hide Shown;
    ShownSplit(y, i);
    ShownConcat(y[..i], y[i + 1..]);
    OnePiece(Shown(y[..i]), ItemOf(y[i]), Shown(y[i + 1..]), ItemOf(y[i]));
    Joint(Shown(y[..i]), [ItemOf(y[i])] + Shown(y[i + 1..]));
    Assoc(Shown(y[..i]), [ItemOf(y[i])], Shown(y[i + 1..]));
  }

  lemma PlacedUniform(y: seq<Entry>, i: nat, j: nat)
    requires Uniform(y) && i < |y| && j < |y|
    ensures Uniform(Placed(y, i, j))
  {
    var y1, e := TakeOut(y, i), y[i];
    TakeUniform(y, i);
    forall k | 0 <= k < |y1| ensures Alike(y1[k], e) && Alike(e, y1[k]) {
      assert y1[k] == y[if k < i then k else k + 1];
    }
    PutUniform(y1, j, e);
  }

  lemma PlacedIs(y: seq<Entry>, i: nat, j: nat)
    requires i < |y| && j < |y|
    ensures |TakeOut(y, i)| == |y| - 1 && Placed(y, i, j) == PutIn(TakeOut(y, i), j, y[i])
  {
  }

  lemma MovingParts(y: seq<Entry>, i: nat, j: nat, r: nat, s: nat)
    requires Moving(y, i, j, r, s)
    ensures i < |y| && j < |y| && y[i].shown && Uniform(y)
    ensures r == |Shown(y[..i])| && s == |Shown(Placed(y, i, j)[..j])|
  {
  }

  lemma PlacedShown(y: seq<Entry>, i: nat, j: nat, r: nat, s: nat)
    requires Moving(y, i, j, r, s)
    ensures var a, z := Shown(y), Placed(y, i, j);
            && i < |y| && j < |y| && y[i].shown && Uniform(y)
            && r < |a| && a[r] == ItemOf(y[i]) && a[..r] == Shown(y[..i]) && |TakeOut(a, r)| == |a| - 1 && s < |a|
            && Shown(z) == Wanted(a, r, s) == PutIn(TakeOut(a, r), s, ItemOf(y[i]))
            && Shown(z[..j]) == TakeOut(a, r)[..s] && Uniform(z)
  {
    hide *;
    MovingParts(y, i, j, r, s);
    var y1, e := TakeOut(y, i), y[i];
    TakeShown(y, i);
    PlacedIs(y, i, j);
    PlacedUniform(y, i, j);
    PutSlices(y1, j, e);
    PutShown(y1, j, e);
    Joint(Shown(y1[..j]), Shown(y1[j..]));
    PutMiddle(Shown(y1[..j]), ItemOf(e), Shown(y1[j..]));
    TakeLength(Shown(y), r);
    WantedIs(Shown(y), r, s);
  }

  lemma TakeLength<T>(a: seq<T>, r: nat)
    requires r < |a|
    ensures |TakeOut(a, r)| == |a| - 1
  {
  }

  lemma WantedIs(a: seq<Item>, r: nat, s: nat)
    requires r < |a| && s < |a|
    ensures |TakeOut(a, r)| == |a| - 1 && Wanted(a, r, s) == PutIn(TakeOut(a, r), s, a[r])
  {
  }

  lemma TakeUniform(y: seq<Entry>, p: nat)
    requires Uniform(y) && p < |y|
    ensures Uniform(TakeOut(y, p))
  {
    var z := TakeOut(y, p);
    assert forall i :: 0 <= i < |z| ==> z[i] == y[if i < p then i else i + 1];
    forall i, j | 0 <= i < |z| && 0 <= j < |z| ensures Alike(z[i], z[j]) { }
  }

  lemma FrontShown(z: seq<Entry>, j: nat)
    requires 0 < j <= |z| && z[j - 1].shown
    ensures var u := Shown(z[..j]); |u| > 0 && u[|u| - 1] == ItemOf(z[j - 1]) && u[..|u| - 1] == Shown(z[..j - 1])
  {
    ShownSplit(z, j - 1);
    hide Shown;
    Joint(Shown(z[..j - 1]), [ItemOf(z[j - 1])]);
  }

  lemma BehindShown(z: seq<Entry>, j: nat)
    requires j + 1 < |z| && z[j].shown && z[j + 1].shown
    ensures var w := Shown(z[j + 1..]); |w| > 0 && w[0] == ItemOf(z[j + 1])
    ensures Shown(z[..j + 1]) == Shown(z[..j]) + [ItemOf(z[j])]
  {
    ShownSplit(z, j + 1);
    ShownSplit(z, j);
    hide Shown;
  }

  /** A neighbour among the shown ones. */
  lemma NeighbourShown(z: seq<Entry>, j: nat, s: nat, a1: seq<Item>)
    requires j < |z| && z[j].shown && s == |Shown(z[..j])| <= |a1| && Shown(z) == PutIn(a1, s, ItemOf(z[j]))
    ensures Shown(z[..j]) == a1[..s]
    ensures j > 0 && z[j - 1].shown ==> s > 0 && a1[s - 1] == ItemOf(z[j - 1]) && Shown(z[..j - 1]) == a1[..s - 1]
    ensures j + 1 < |z| && z[j + 1].shown ==>
              s < |a1| && a1[s] == ItemOf(z[j + 1]) && Shown(z[..j + 1]) == a1[..s] + [ItemOf(z[j])]
  {
    ShownSplit(z, j);
    var u, w := Shown(z[..j]), Shown(z[j + 1..]);
    SameParts(a1, s, ItemOf(z[j]), u, w);
    if j > 0 && z[j - 1].shown { FrontShown(z, j); }
    if j + 1 < |z| && z[j + 1].shown { BehindShown(z, j); }
    hide *;
    Joint(u, w);
  }

  lemma SameParts<T>(a: seq<T>, s: nat, x: T, u: seq<T>, w: seq<T>)
    requires s == |u| <= |a| && PutIn(a, s, x) == u + [x] + w
    ensures a == u + w
  {
    assert a[..s] == PutIn(a, s, x)[..s] == u;
    assert a[s..] == PutIn(a, s, x)[s + 1..] == w;
  }

  /** Where the new node is put when the index of the entry stays. */
  function SpotOf(r: nat, s: nat, before: bool, same: bool): nat {
    if before && same then r else if s < r || (s == r && !before) then s else s + 1
  }

  /** The anchor's path: a place around the wanted one, and the wanted one when the index stays. */
  ghost predicate Spotted(a: seq<Item>, r: nat, s: nat, n: nat, before: bool, same: bool) {
    && Around(a, r, s, n)
    && (Occ(TakeOut(a, r)[..s], a[r].name) == Occ(a[..r], a[r].name) ==>
       n == SpotOf(r, s, before, same) && (before && same ==> s >= r))
  }

  /** An anchor in front with another label. */
  lemma FrontOther(a: seq<Item>, r: nat, s: nat, q: Place)
    requires r < |a| && 0 < s < |a| && TakeOut(a, r)[s - 1].name == q.name != a[r].name
    requires q.index == 1 + Occ(TakeOut(a, r)[..s - 1], q.name)
    ensures Find(a, q).Some? && Spotted(a, r, s, Find(a, q).value + 1, false, false)
  {
    TakeOcc(a, r, s);
    TakeOcc(a, r, s - 1);
    if s <= r {
      FindIs(a, q, s - 1);
    } else {
      FindIs(a, q, s);
    }
  }

  /** An anchor in front with the same label. */
  lemma FrontSame(a: seq<Item>, r: nat, s: nat, q: Place)
    requires r < |a| && 0 < s < |a| && |TakeOut(a, r)| == |a| - 1 && TakeOut(a, r)[s - 1].name == q.name == a[r].name
    requires q.index == 1 + Occ(TakeOut(a, r)[..s - 1], q.name)
    ensures Find(a, q).Some? && Spotted(a, r, s, Find(a, q).value + 1, false, true)
  {
    hide Occ, Find, TakeOut, SpotOf;
    var l, a1 := q.name, TakeOut(a, r);
    OccSplit(a1, s - 1, l);
    OccHalf(a1, s, l);
    OccTake(a, r);
    FindOnly(a, q);
    OccSplit(a, Find(a, q).value, l);
    if Occ(a1[..s], l) == Occ(a[..r], l) { FrontSpot(a, r, s, q); }
  }

  lemma OccHalf(a: seq<Item>, s: nat, l: string)
    requires s <= |a|
    ensures Occ(a[..s], l) <= Occ(a, l)
  {
    Parts(a, s);
    OccConcat(a[..s], a[s..], l);
  }

  lemma FrontSpot(a: seq<Item>, r: nat, s: nat, q: Place)
    requires r < |a| && 0 < s < |a| && |TakeOut(a, r)| == |a| - 1 && TakeOut(a, r)[s - 1].name == q.name == a[r].name
    requires q.index == 1 + Occ(TakeOut(a, r)[..s - 1], q.name)
             && Occ(TakeOut(a, r)[..s], q.name) == Occ(a[..r], q.name)
    ensures Find(a, q) == Some(s - 1) && SpotOf(r, s, false, true) == s
  {
    hide Occ, Find, TakeOut;
    var l, a1 := q.name, TakeOut(a, r);
    TakeOcc(a, r, s - 1);
    TakeOcc(a, r, r);
    if s > r { OccMore(a1, r, s, l); }
    FindIs(a, q, s - 1);
  }

  lemma OccTake(a: seq<Item>, r: nat)
    requires r < |a|
    ensures Occ(a, a[r].name) == Occ(TakeOut(a, r), a[r].name) + 1
  {
    OccSplit(a, r, a[r].name);
    OccConcat(a[..r], a[r + 1..], a[r].name);
  }

  /** An anchor behind with another label. */
  lemma BehindOther(a: seq<Item>, r: nat, s: nat, q: Place)
    requires r < |a| && s + 1 < |a| && TakeOut(a, r)[s].name == q.name != a[r].name
    requires q.index == 1 + Occ(TakeOut(a, r)[..s], q.name)
    ensures Find(a, q).Some? && Spotted(a, r, s, Find(a, q).value, true, false)
  {
    TakeOcc(a, r, s);
    if s < r {
      FindIs(a, q, s);
    } else {
      FindIs(a, q, s + 1);
    }
  }

  /** An anchor behind with the same label: the path is that of the new node. */
  lemma BehindSame(a: seq<Item>, r: nat, s: nat, q: Place)
    requires r < |a| && s + 1 < |a| && TakeOut(a, r)[s].name == q.name == a[r].name
    requires q.index == 1 + Occ(TakeOut(a, r)[..s], q.name)
    ensures Find(a, q).Some? && Spotted(a, r, s, Find(a, q).value, true, true)
  {
    var l, a1 := q.name, TakeOut(a, r);
    TakeOcc(a, r, s);
    OccSplit(a1, s, l);
    OccTake(a, r);
    FindOnly(a, q);
    if Occ(a1[..s], l) == Occ(a[..r], l) {
      FindIs(a, q, r);
      if s < r {
        OccSplit(a, s, l);
        OccMore(a, s + 1, r, l);
        assert false;
      }
    }
  }

  lemma AnchorSpot(y: seq<Entry>, i: nat, j: nat, r: nat, s: nat)
    requires Moving(y, i, j, r, s)
    ensures var a, z := Shown(y), Placed(y, i, j);
            var c := AnchorOf(z, j);
            c.Beside? ==>
              var f := Find(a, AnchorPlace(z, j, c));
              f.Some? && var n := if c.before then f.value else f.value + 1;
                         Spotted(a, r, s, n, c.before, z[c.pos].name == y[i].name)
  {
    var a, z := Shown(y), Placed(y, i, j);
    PlacedShown(y, i, j, r, s);
    var c, a1, l := AnchorOf(z, j), TakeOut(a, r), y[i].name;
    NeighbourShown(z, j, s, a1);
    if c.Beside? {
      PlaceIs(z, j);
      PlaceIs(z, c.pos);
      var q := AnchorPlace(z, j, c);
      OccConcat(a1[..s], [ItemOf(z[j])], z[c.pos].name);
      OccOne(ItemOf(z[j]), z[c.pos].name);
      hide Shown, Find, Placed, PlaceOf, Moving, Uniform, Spotted;
      if c.before {
        if z[c.pos].name == l { BehindSame(a, r, s, q); } else { BehindOther(a, r, s, q); }
      } else {
        if z[c.pos].name == l { FrontSame(a, r, s, q); } else { FrontOther(a, r, s, q); }
      }
    }
  }

  // ----- When a move is right -----

  /** The direction that the new node's place asks for. */
  predicate Steered(r: nat, s: nat, before: bool, same: bool, back: bool) {
    if s < r then back
    else if r < s then !back && !(before && same)
    else back == (!before || same)
  }

  /** The entry moves past one of the same schema node and label. */
  predicate Passes(y: seq<Entry>, i: nat, j: nat)
    requires i < |y| && j < |y|
  {
    exists k :: 0 <= k < |y| && (i < k <= j || j <= k < i) && y[k].schema == y[i].schema && y[k].name == y[i].name
  }

  lemma {:induction false} CountNone(x: seq<Entry>, schema: nat, name: string)
    ensures Count(x, schema, name) == 0 <==> forall k :: 0 <= k < |x| ==> x[k].schema != schema || x[k].name != name
    decreases |x|
  {
    if x != [] {
      CountNone(x[1..], schema, name);
      assert forall k :: 0 < k < |x| ==> x[k] == x[1..][k - 1];
    }
  }

  lemma PlacedFront(y: seq<Entry>, i: nat, j: nat)
    requires i < |y| && j < |y|
    ensures Placed(y, i, j)[j] == y[i]
    ensures Placed(y, i, j)[..j] == if j <= i then y[..j] else y[..i] + Passed(y, i, j)
    ensures j <= i ==> y[..i] == y[..j] + Passed(y, i, j)
  {
    if i < j { TakeFront(y, i, j); }
  }

  /** The path of an entry stays the same exactly if it passes no other one of its label. */
  lemma PathKept(y: seq<Entry>, i: nat, j: nat)
    requires i < |y| && j < |y|
    ensures PlaceOf(Placed(y, i, j), j) == PlaceOf(y, i) <==> !Passes(y, i, j)
  {
    hide *;
    var e, z, w := y[i], Placed(y, i, j), Passed(y, i, j);
    PlacedFront(y, i, j);
    PlaceIsCount(y, i);
    PlaceIsCount(z, j);
    CountConcat(if j <= i then y[..j] else y[..i], w, e.schema, e.name);
    CountNone(w, e.schema, e.name);
    PassesIs(y, i, j);
  }

  /** The entries that the entry moves past. */
  function Passed(y: seq<Entry>, i: nat, j: nat): seq<Entry>
    requires i < |y| && j < |y|
  {
    if j <= i then y[j..i] else y[i + 1..j + 1]
  }

  lemma PassesIs(y: seq<Entry>, i: nat, j: nat)
    requires i < |y| && j < |y|
    ensures var w := Passed(y, i, j);
            Passes(y, i, j) <==> !(forall k :: 0 <= k < |w| ==> w[k].schema != y[i].schema || w[k].name != y[i].name)
  {
    var w := Passed(y, i, j);
    if Passes(y, i, j) {
      var k :| 0 <= k < |y| && (i < k <= j || j <= k < i) && y[k].schema == y[i].schema && y[k].name == y[i].name;
      var n := if j <= i then k - j else k - i - 1;
      assert w[n] == y[k];
    }
    forall n | 0 <= n < |w| ensures w[n] == y[if j <= i then n + j else n + i + 1] { }
  }

  lemma PlaceIsCount(y: seq<Entry>, p: nat)
    requires p < |y|
    ensures PlaceOf(y, p) == Place(y[p].name, 1 + Count(y[..p], y[p].schema, y[p].name))
  {
  }

  /** The condition on the YANG data before the move. */
  ghost predicate MoveSafe(y: seq<Entry>, i: nat, j: nat)
    requires i < |y| && j < |y|
  {
    if y[i].shown then ShownSafe(y, i, j)
    else var c := AnchorOf(Placed(y, i, j), j); c.Beside? && !c.before
  }

  ghost predicate ShownSafe(y: seq<Entry>, i: nat, j: nat)
    requires i < |y| && j < |y|
  {
    var z := Placed(y, i, j);
    var c := AnchorOf(z, j);
    && c.Beside? && !Passes(y, i, j)
    && (var r, s := |Shown(y[..i])|, |Shown(z[..j])|;
        || Steered(r, s, c.before, z[c.pos].name == y[i].name, MovedBack(z, j, c))
        || (r == s && y[i].value == None))
  }

  lemma SpotSafe(a: seq<Item>, r: nat, s: nat, n: nat, before: bool, same: bool, back: bool)
    requires Spotted(a, r, s, n, before, same) && Occ(TakeOut(a, r)[..s], a[r].name) == Occ(a[..r], a[r].name)
    ensures Swapped(a, r, s, n, back) == Some(Wanted(a, r, s)) <==>
              Steered(r, s, before, same, back) || (r == s && a[r].value == None)
  {
    var l, a1 := a[r].name, TakeOut(a, r);
    if n <= r { OccMore(a, n, r, l); } else { OccSplit(a, r, l); OccMore(a, r + 1, n, l); }
    SwappedIs(a, r, s, n, back);
    var m := if n <= r then n else n - 1;
    TakeOcc(a, r, m);
    PutSame(a1, m, s, a[r]);
    StayedIs(a, r, s);
  }

  lemma MovePlaces(y: seq<Entry>, i: nat, j: nat, r: nat, s: nat)
    requires Moving(y, i, j, r, s)
    ensures var a, z := Shown(y), Placed(y, i, j);
            && r < |a| && s < |a| && a[r] == ItemOf(y[i])
            && PlaceOf(z, j) == Place(y[i].name, 1 + Occ(TakeOut(a, r)[..s], y[i].name))
            && PlaceOf(y, i) == Place(y[i].name, 1 + Occ(a[..r], y[i].name))
  {
    PlacedShown(y, i, j, r, s);
    PlaceIs(Placed(y, i, j), j);
    PlaceIs(y, i);
    ShownSplit(y, i);
    assert Shown(y)[..r] == Shown(y[..i]);
  }

  lemma AppliedIs(y: seq<Entry>, i: nat, j: nat, r: nat, s: nat)
    requires Moving(y, i, j, r, s)
    ensures var a, z := Shown(y), Placed(y, i, j);
            var c := AnchorOf(z, j);
            && (c == NoAnchor ==> MoveApplied(y, a, i, j) == None)
            && (c.Beside? ==>
                 var f := Find(a, AnchorPlace(z, j, c));
                 && f.Some? && r < |a| && Around(a, r, s, if c.before then f.value else f.value + 1)
                 && var n := if c.before then f.value else f.value + 1;
                    MoveApplied(y, a, i, j) == Swapped(a, r, s, n, MovedBack(z, j, c)))
  {
    AnchorSpot(y, i, j, r, s);
    MovePlaces(y, i, j, r, s);
    hide Shown, Find, Placed, PlaceOf, Moving, Moved, AnchorPlace, AnchorOf, MovedBack, Occ;
  }

  /** A move that keeps the path, or not. */
  lemma MoveCases(y: seq<Entry>, i: nat, j: nat, r: nat, s: nat)
    requires Moving(y, i, j, r, s) && AnchorOf(Placed(y, i, j), j).Beside? && NoTwo(Vals(Shown(y), y[i].name))
    ensures MoveApplied(y, Shown(y), i, j) == Some(Shown(Placed(y, i, j))) <==>
              && PlaceOf(Placed(y, i, j), j) == PlaceOf(y, i)
              && (var z := Placed(y, i, j);
                  var c := AnchorOf(z, j);
                  || Steered(r, s, c.before, z[c.pos].name == y[i].name, MovedBack(z, j, c))
                  || (r == s && y[i].value == None))
  {
    hide *;
    MovingParts(y, i, j, r, s);
    var a, z := Shown(y), Placed(y, i, j);
    var c := AnchorOf(z, j);
    ItemParts(y[i]);
    PlacedShown(y, i, j, r, s);
    AppliedIs(y, i, j, r, s);
    MovePlaces(y, i, j, r, s);
    AnchorSpot(y, i, j, r, s);
    var f := Find(a, AnchorPlace(z, j, c)).value;
    var n, back := if c.before then f else f + 1, MovedBack(z, j, c);
    if PlaceOf(z, j) == PlaceOf(y, i) {
      SpotSafe(a, r, s, n, c.before, z[c.pos].name == y[i].name, back);
    } else if Swapped(a, r, s, n, back) == Some(Wanted(a, r, s)) {
      IndexStays(a, r, s, n, back);
    }
  }

  /**
   MOVE gives the moved list exactly if there is an anchor, the entry passes no other one of its label, and the
   comparison of keys tells the direction; for siblings of which those of one label differ. For a hidden entry it
   does so exactly if a shown one stands in front.
  */
  lemma MoveInStep(y: seq<Entry>, i: nat, j: nat)
    requires i < |y| && j < |y| && Uniform(y) && (y[i].shown ==> NoTwo(Vals(Shown(y), y[i].name)))
    ensures MoveApplied(y, Shown(y), i, j) == Some(Shown(Placed(y, i, j))) <==> MoveSafe(y, i, j)
  {
    if y[i].shown { ShownMove(y, i, j); } else { HiddenMove(y, i, j); }
    hide MoveApplied, ShownSafe, Placed, Shown, AnchorOf, NoTwo, Vals, Uniform;
  }

  /** A hidden entry changes nothing, and may stand only behind a shown one. */
  lemma HiddenMove(y: seq<Entry>, i: nat, j: nat)
    requires i < |y| && j < |y| && !y[i].shown
    ensures Shown(Placed(y, i, j)) == Shown(y)
    ensures MoveApplied(y, Shown(y), i, j) == Some(Shown(Placed(y, i, j))) <==> MoveSafe(y, i, j)
  {
    HiddenStays(y, i, j);
    assert Placed(y, i, j)[j] == y[i];
    hide Shown, Placed, AnchorOf, PlaceOf;
  }

  lemma HiddenStays(y: seq<Entry>, i: nat, j: nat)
    requires i < |y| && j < |y| && !y[i].shown
    ensures Shown(Placed(y, i, j)) == Shown(y)
  {
    hide *;
    var y1 := TakeOut(y, i);
    PlacedIs(y, i, j);
    ShownSplit(y, i);
    ShownConcat(y[..i], y[i + 1..]);
    TakeSlices(y, i);
    PutShown(y1, j, y[i]);
    Neutral(Shown(y[..i]));
    Neutral(Shown(y1[..j]));
  }

  lemma Neutral<T>(x: seq<T>)
    ensures x + [] == x
  {
  }

  lemma ShownMove(y: seq<Entry>, i: nat, j: nat)
    requires i < |y| && j < |y| && y[i].shown && Uniform(y) && NoTwo(Vals(Shown(y), y[i].name))
    ensures MoveApplied(y, Shown(y), i, j) == Some(Shown(Placed(y, i, j))) <==> ShownSafe(y, i, j)
  {
    var z := Placed(y, i, j);
    var r, s := |Shown(y[..i])|, |Shown(z[..j])|;
    IsMoving(y, i, j);
    PathKept(y, i, j);
    AppliedIs(y, i, j, r, s);
    hide Shown, Placed, PlaceOf, Moving, AnchorOf, MovedBack, Steered, MoveApplied, Passes, NoTwo, Vals;
    if AnchorOf(z, j).Beside? {
      MoveCases(y, i, j, r, s);
    }
  }

  lemma SafeParts(y: seq<Entry>, i: nat, j: nat)
    requires i < |y| && j < |y| && ShownSafe(y, i, j)
    ensures var z := Placed(y, i, j);
            var c := AnchorOf(z, j);
            && c.Beside? && PlaceOf(z, j) == PlaceOf(y, i)
            && (var r, s := |Shown(y[..i])|, |Shown(z[..j])|;
                || Steered(r, s, c.before, z[c.pos].name == y[i].name, MovedBack(z, j, c))
                || (r == s && y[i].value == None))
  {
    PathKept(y, i, j);
  }

  lemma IsMoving(y: seq<Entry>, i: nat, j: nat)
    requires i < |y| && j < |y| && y[i].shown && Uniform(y)
    ensures Moving(y, i, j, |Shown(y[..i])|, |Shown(Placed(y, i, j)[..j])|)
  {
  }

  lemma ItemParts(e: Entry)
    ensures ItemOf(e).name == e.name && ItemOf(e).value == e.value
  {
  }

  /** A safe move is right whatever the values are. */
  lemma SafeMove(y: seq<Entry>, i: nat, j: nat)
    requires i < |y| && j < |y| && Uniform(y) && MoveSafe(y, i, j)
    ensures MoveApplied(y, Shown(y), i, j) == Some(Shown(Placed(y, i, j)))
  {
    if y[i].shown { SafeShown(y, i, j); } else { HiddenMove(y, i, j); }
  }

  lemma SafeShown(y: seq<Entry>, i: nat, j: nat)
    requires i < |y| && j < |y| && y[i].shown && Uniform(y) && ShownSafe(y, i, j)
    ensures MoveApplied(y, Shown(y), i, j) == Some(Shown(Placed(y, i, j)))
  {
    hide *;
    SafeParts(y, i, j);
    IsMoving(y, i, j);
    ItemParts(y[i]);
    var a, z := Shown(y), Placed(y, i, j);
    var r, s, c := |Shown(y[..i])|, |Shown(z[..j])|, AnchorOf(z, j);
    PlacedShown(y, i, j, r, s);
    AppliedIs(y, i, j, r, s);
    MovePlaces(y, i, j, r, s);
    AnchorSpot(y, i, j, r, s);
    var f := Find(a, AnchorPlace(z, j, c)).value;
    SpotSafe(a, r, s, if c.before then f else f + 1, c.before, z[c.pos].name == y[i].name, MovedBack(z, j, c));
  }

  // ----- Lists as they are loaded -----

  ghost predicate Ascending(y: seq<Entry>) {
    forall m, n :: 0 <= m < n < |y| ==> y[m].key < y[n].key
  }

  lemma {:induction false} AllShown(y: seq<Entry>)
    requires forall m :: 0 <= m < |y| ==> y[m].shown
    ensures |Shown(y)| == |y|
    decreases |y|
  {
    if y != [] { AllShown(y[1..]); }
  }

  lemma AscendingAnchor(y: seq<Entry>, i: nat, j: nat)
    requires i < |y| && j < |y| && i != j && Ascending(y) && forall m :: 0 <= m < |y| ==> y[m].shown
    ensures var z := Placed(y, i, j);
            var c := AnchorOf(z, j);
            && |Shown(y[..i])| == i && |Shown(z[..j])| == j && c.Beside? && (j > 0 ==> !c.before)
               && (MovedBack(z, j, c) <==> j < i)
  {
    var z := Placed(y, i, j);
    PlacedAt(y, i, j);
    hide Placed, Shown;
    assert forall m :: 0 <= m < |y| ==> z[m].shown;
    AllShown(y[..i]);
    AllShown(z[..j]);
  }

  lemma SafeThus(y: seq<Entry>, i: nat, j: nat)
    requires i < |y| && j < |y| && y[i].shown
    requires var z := Placed(y, i, j);
             var c := AnchorOf(z, j);
             && c.Beside? && !Passes(y, i, j)
             && Steered(|Shown(y[..i])|, |Shown(z[..j])|, c.before, z[c.pos].name == y[i].name, MovedBack(z, j, c))
    ensures MoveSafe(y, i, j)
  {
  }

  lemma Straight(r: nat, s: nat, before: bool, same: bool, back: bool)
    requires r != s && (s > 0 ==> !before) && (back <==> s < r)
    ensures Steered(r, s, before, same, back)
  {
  }

  /** In a list with ascending keys and no hidden entries a move is right if the entry passes no other one of its
      label. */
  lemma AscendingMove(y: seq<Entry>, i: nat, j: nat)
    requires i < |y| && j < |y| && i != j && Uniform(y) && Ascending(y) && forall m :: 0 <= m < |y| ==> y[m].shown
    requires !Passes(y, i, j)
    ensures MoveSafe(y, i, j) && MoveApplied(y, Shown(y), i, j) == Some(Shown(Placed(y, i, j)))
  {
    hide *;
    AscendingAnchor(y, i, j);
    var z := Placed(y, i, j);
    var c := AnchorOf(z, j);
    Straight(i, j, c.before, z[c.pos].name == y[i].name, MovedBack(z, j, c));
    SafeThus(y, i, j);
    SafeMove(y, i, j);
  }

  lemma PlacedAt(y: seq<Entry>, i: nat, j: nat)
    requires i < |y| && j < |y|
    ensures var z := Placed(y, i, j);
            forall m :: 0 <= m < |y| ==>
              z[m] == y[if m == j then i
                        else if m < j then (if m < i then m else m + 1)
                        else if m <= i then m - 1 else m]
  {
    var z, y1 := Placed(y, i, j), TakeOut(y, i);
    forall m | 0 <= m < |y|
      ensures z[m] == y[if m == j then i
                        else if m < j then (if m < i then m else m + 1)
                        else if m <= i then m - 1 else m]
    {
    }
  }
}
