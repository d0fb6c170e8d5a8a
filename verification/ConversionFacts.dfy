/** What the conversion of a class leaves alone: ids, order, space, and everything before its first node. */
module ConversionFacts {
  import opened YNodes
  import opened RoseTree
  import opened TreeLinks
  import opened TreeEdits
  import opened Expansion
  import opened Conversion

  // ----- Ids -----

  ghost function IdsT(t: Tree): multiset<nat>
    decreases Size(t), 0
  {
    multiset{t.id} + IdsF(t.kids)
  }

  ghost function IdsF(f: seq<Tree>): multiset<nat>
    decreases SizeF(f), 1
  {
    if f == [] then multiset{} else IdsT(f[0]) + IdsF(f[1..])
  }

  lemma IdsNode(t: Tree)
    ensures IdsT(t) == multiset{t.id} + IdsF(t.kids)
  {
  }

  ghost function Range(n: nat, m: nat): multiset<nat>
    decreases m - n
  {
    if n >= m then multiset{} else multiset{n} + Range(n + 1, m)
  }

  lemma {:induction false} RangeJoin(n: nat, k: nat, m: nat)
    requires n <= k <= m
    ensures Range(n, m) == Range(n, k) + Range(k, m)
    decreases k - n
  {
    if n < k { RangeJoin(n + 1, k, m); }
  }

  lemma {:induction false} RangeCount(n: nat, m: nat, x: nat)
    ensures Range(n, m)[x] == if n <= x < m then 1 else 0
    decreases m - n
  {
    if n < m { RangeCount(n + 1, m, x); }
  }

  ghost predicate Distinct(s: multiset<nat>) {
    forall x :: s[x] <= 1
  }

  lemma {:induction false} IdsConcat(f: seq<Tree>, g: seq<Tree>)
    ensures IdsF(f + g) == IdsF(f) + IdsF(g)
    decreases |f|
  {
    if f == [] {
      assert f + g == g;
    } else {
      assert (f + g)[1..] == f[1..] + g;
      IdsConcat(f[1..], g);
    }
  }

  lemma IdsThree(x: seq<Tree>, y: seq<Tree>, z: seq<Tree>)
    ensures IdsF(x + y + z) == IdsF(x) + IdsF(y) + IdsF(z)
  {
    IdsConcat(x + y, z);
    IdsConcat(x, y);
  }

  lemma IdsOne(t: Tree)
    ensures IdsF([t]) == IdsT(t)
  {
    assert [t][1..] == [];
  }

  lemma {:induction false} ConvIdsF(f: seq<Tree>, c: Class, n: nat)
    ensures n <= ConvF(f, c, n).1
    ensures IdsF(ConvF(f, c, n).0) <= IdsF(f) + Range(n, ConvF(f, c, n).1)
    decreases SizeF(f), 1
  {
    if f != [] {
      var a := ConvT(f[0], c, n);
      var b := ConvF(f[1..], c, a.1);
      ConvIdsT(f[0], c, n);
      ConvIdsF(f[1..], c, a.1);
      assert ([a.0] + b.0)[1..] == b.0;
      RangeJoin(n, a.1, b.1);
    }
  }

  lemma {:induction false} ConvIdsT(t: Tree, c: Class, n: nat)
    ensures n <= ConvT(t, c, n).1
    ensures IdsT(ConvT(t, c, n).0) <= IdsT(t) + Range(n, ConvT(t, c, n).1)
    decreases Size(t), 0
  {
    if InClass(c, t.id, t.data) {
      if Split(t.data) {
        var k := InnerIndex(t.kids);
        SizeTake(t.kids, k);
        ConvIdsF(t.kids[..k], c, n + 1);
        assert t.kids == t.kids[..k] + t.kids[k..];
        IdsConcat(t.kids[..k], t.kids[k..]);
        var x, u := ConvF(t.kids[..k], c, n + 1), Node(n, UsesData(c), []);
        IdsConcat(x.0, [u]);
        IdsOne(u);
      }
    } else {
      ConvIdsF(t.kids, c, n);
    }
  }

  // ----- Properties of single nodes -----

  ghost predicate All(s: seq<Cell>, p: (nat, Data) -> bool) {
    forall i :: 0 <= i < |s| ==> p(s[i].id, s[i].data)
  }

  lemma AllConcat(x: seq<Cell>, y: seq<Cell>, p: (nat, Data) -> bool)
    ensures All(x + y, p) <==> All(x, p) && All(y, p)
  {
    if All(x + y, p) {
      forall i | 0 <= i < |x| ensures p(x[i].id, x[i].data) { assert (x + y)[i] == x[i]; }
      forall i | 0 <= i < |y| ensures p(y[i].id, y[i].data) { assert (x + y)[|x| + i] == y[i]; }
    }
  }

  lemma AllNode(t: Tree, p: (nat, Data) -> bool)
    ensures All(FlatT(t), p) <==> p(t.id, t.data) && All(FlatF(t.kids), p)
  {
    var c := Cell(t.id, t.data, SizeF(t.kids));
    AllConcat([c], FlatF(t.kids), p);
    assert All([c], p) <==> p(c.id, c.data) by { assert [c][0] == c; }
  }

  lemma AllTwo(f: seq<Tree>, g: seq<Tree>, p: (nat, Data) -> bool)
    ensures All(FlatF(f + g), p) <==> All(FlatF(f), p) && All(FlatF(g), p)
  {
    FlatConcat(f, g);
    AllConcat(FlatF(f), FlatF(g), p);
  }

  /** Closed under conversion. */
  ghost predicate Closed(p: (nat, Data) -> bool, c: Class, n: nat, m: nat) {
    && (forall id, d :: p(id, d) && InClass(c, id, d) ==> p(id, d.(ref := 0)) && p(id, TurnedData(c, d)))
    && (forall id :: n <= id < m ==> p(id, UsesData(c)))
  }

  lemma {:induction false} ConvAllF(f: seq<Tree>, c: Class, n: nat, p: (nat, Data) -> bool, lo: nat, hi: nat)
    requires All(FlatF(f), p) && lo <= n && ConvF(f, c, n).1 <= hi && Closed(p, c, lo, hi)
    ensures All(FlatF(ConvF(f, c, n).0), p)
    decreases SizeF(f), 1
  {
    if f != [] {
      var a := ConvT(f[0], c, n);
      var b := ConvF(f[1..], c, a.1);
      ConvIdsT(f[0], c, n);
      ConvIdsF(f[1..], c, a.1);
      AllConcat(FlatT(f[0]), FlatF(f[1..]), p);
      ConvAllT(f[0], c, n, p, lo, hi);
      ConvAllF(f[1..], c, a.1, p, lo, hi);
      assert ([a.0] + b.0)[1..] == b.0;
      AllConcat(FlatT(a.0), FlatF(b.0), p);
    }
  }

  lemma AllTake(f: seq<Tree>, k: nat, p: (nat, Data) -> bool)
    requires k <= |f| && All(FlatF(f), p)
    ensures All(FlatF(f[..k]), p) && All(FlatF(f[k..]), p)
  {
    hide FlatF, All;
    assert f == f[..k] + f[k..];
    AllTwo(f[..k], f[k..], p);
  }

  lemma AllAppend(f: seq<Tree>, m: Tree, p: (nat, Data) -> bool)
    requires All(FlatF(f), p) && m.kids == [] && p(m.id, m.data)
    ensures All(FlatF(f + [m]), p)
  {
    AllTwo(f, [m], p);
    AllNode(m, p);
    assert [m][1..] == [] && FlatF([m]) == FlatT(m) + [];
  }

  lemma {:induction false} ConvAllT(t: Tree, c: Class, n: nat, p: (nat, Data) -> bool, lo: nat, hi: nat)
    requires All(FlatT(t), p) && lo <= n && ConvT(t, c, n).1 <= hi && Closed(p, c, lo, hi)
    ensures All(FlatT(ConvT(t, c, n).0), p)
    decreases Size(t), 0
  {
    AllNode(t, p);
    var u := ConvT(t, c, n);
    AllNode(u.0, p);
    if InClass(c, t.id, t.data) {
      if Split(t.data) {
        var k := InnerIndex(t.kids);
        SizeTake(t.kids, k);
        AllTake(t.kids, k, p);
        ConvIdsF(t.kids[..k], c, n + 1);
        ConvAllF(t.kids[..k], c, n + 1, p, lo, hi);
        AllAppend(ConvF(t.kids[..k], c, n + 1).0, Node(n, UsesData(c), []), p);
      }
    } else {
      ConvAllF(t.kids, c, n, p, lo, hi);
    }
  }

  /** No node of the class is left. */
  lemma ConvDone(t: Tree, c: Class, n: nat)
    requires c.r != 0 && c.r != c.g
    ensures NoMembers(FlatT(ConvT(t, c, n).0), c)
  {
    ConvDoneT(t, c, n);
  }

  lemma {:induction false} ConvDoneF(f: seq<Tree>, c: Class, n: nat)
    requires c.r != 0 && c.r != c.g
    ensures NoMembers(FlatF(ConvF(f, c, n).0), c)
    decreases SizeF(f), 1
  {
    if f != [] {
      var a := ConvT(f[0], c, n);
      var b := ConvF(f[1..], c, a.1);
      ConvDoneT(f[0], c, n);
      ConvDoneF(f[1..], c, a.1);
      assert ([a.0] + b.0)[1..] == b.0;
      NoMembersConcat(FlatT(a.0), FlatF(b.0), c);
    }
  }

  lemma NoMembersNode(t: Tree, c: Class)
    ensures NoMembers(FlatT(t), c) <==> !InClass(c, t.id, t.data) && NoMembers(FlatF(t.kids), c)
  {
    var n := Cell(t.id, t.data, SizeF(t.kids));
    NoMembersConcat([n], FlatF(t.kids), c);
    assert NoMembers([n], c) <==> !InClass(c, n.id, n.data) by { assert [n][0] == n; }
  }

  lemma {:induction false} ConvDoneT(t: Tree, c: Class, n: nat)
    requires c.r != 0 && c.r != c.g
    ensures NoMembers(FlatT(ConvT(t, c, n).0), c)
    decreases Size(t), 0
  {
    NoMembersNode(ConvT(t, c, n).0, c);
    if InClass(c, t.id, t.data) {
      if Split(t.data) {
        var k := InnerIndex(t.kids);
        SizeTake(t.kids, k);
        ConvDoneF(t.kids[..k], c, n + 1);
        var x, m := ConvF(t.kids[..k], c, n + 1).0, Node(n, UsesData(c), []);
        NoMembersNode(m, c);
        FlatConcat(x, [m]);
        assert [m][1..] == [] && FlatF([m]) == FlatT(m) + [];
        NoMembersConcat(FlatF(x), FlatF([m]), c);
      }
    } else {
      ConvDoneF(t.kids, c, n);
    }
  }

  // ----- Order -----

  /** The part of the array before index `m`, seen from child `k`. */
  lemma PrefixParts(t: Tree, k: nat, m: nat, c: Class)
    requires k < |t.kids| && Off(t, k) <= m <= Off(t, k) + Size(t.kids[k])
    ensures m <= Size(t)
    ensures NoMembers(FlatT(t)[..m], c) ==>
              && !InClass(c, t.id, t.data) && NoMembers(FlatF(t.kids[..k]), c)
              && NoMembers(FlatT(t.kids[k])[..m - Off(t, k)], c)
  {
    KidCells(t, k);
    if NoMembers(FlatT(t)[..m], c) {
      var s := FlatT(t)[..m];
      assert s[0] == FlatT(t)[0];
      forall i | 0 <= i < SizeF(t.kids[..k])
        ensures !InClass(c, FlatF(t.kids[..k])[i].id, FlatF(t.kids[..k])[i].data)
      {
        assert s[i + 1] == FlatT(t)[i + 1];
      }
      forall i | 0 <= i < m - Off(t, k)
        ensures !InClass(c, FlatT(t.kids[k])[i].id, FlatT(t.kids[k])[i].data)
      {
        assert s[i + Off(t, k)] == FlatT(t)[i + Off(t, k)];
      }
    }
  }

  lemma ConvKid(t: Tree, k: nat, c: Class, n: nat)
    requires k < |t.kids| && !InClass(c, t.id, t.data) && NoMembers(FlatF(t.kids[..k]), c)
    ensures var a := ConvT(t.kids[k], c, n);
            var b := ConvF(t.kids[k + 1..], c, a.1);
            && ConvT(t, c, n) == (t.(kids := t.kids[..k] + [a.0] + b.0), b.1)
  {
    var x, y := t.kids[..k], t.kids[k..];
    assert t.kids == x + y && y[1..] == t.kids[k + 1..];
    ConvConcat(x, y, c, n);
    ConvNoneF(x, c, n);
    var a := ConvT(t.kids[k], c, n);
    var b := ConvF(t.kids[k + 1..], c, a.1);
    assert x + ([a.0] + b.0) == x + [a.0] + b.0;
  }

  /** Nothing up to the end of the node at `q` belongs to the class: it stays as it is, where it is. */
  lemma {:induction false} ConvAt(t: Tree, q: Path, c: Class, n: nat)
    requires ValidPath(t, q) && Pos(t, q) + Size(At(t, q)) <= Size(t)
    requires NoMembers(FlatT(t)[..Pos(t, q) + Size(At(t, q))], c)
    ensures var u := ConvT(t, c, n).0;
            && ValidPath(u, q) && At(u, q) == At(t, q) && Pos(u, q) == Pos(t, q)
    decreases |q|
  {
    if q == [] {
      assert FlatT(t)[..Size(t)] == FlatT(t);
      ConvNoneT(t, c, n);
    } else {
      var k, kid := q[0], t.kids[q[0]];
      PosBound(kid, q[1..]);
      PrefixParts(t, k, Pos(t, q) + Size(At(t, q)), c);
      ConvKid(t, k, c, n);
      ConvAt(kid, q[1..], c, n);
      var u := ConvT(t, c, n).0;
      assert u.kids[..k] == t.kids[..k];
    }
  }

  // ----- One node at a time -----

  function ReplaceAt(t: Tree, q: Path, u: Tree): Tree
    requires ValidPath(t, q)
    decreases |q|
  {
    if q == [] then u else t.(kids := t.kids[q[0] := ReplaceAt(t.kids[q[0]], q[1..], u)])
  }

  /** What happens to one node of the class itself. */
  function ConvOne(m: Tree, c: Class, n: nat): (Tree, nat) {
    if Split(m.data) then
      (Node(m.id, m.data.(ref := 0), m.kids[..InnerIndex(m.kids)] + [Node(n, UsesData(c), [])]), n + 1)
    else (Node(m.id, TurnedData(c, m.data), []), n)
  }

  lemma ConvUses(u: Tree, c: Class, n: nat)
    requires u.data.typ == Uses && u.kids == []
    ensures ConvF([u], c, n) == ([u], n)
  {
    assert ConvF([], c, n) == ([], n);
    assert ConvT(u, c, n) == (u, n);
    assert [u][1..] == [] && [u] + [] == [u];
  }

  /** Converting the first node of the class, and then all the rest. */
  lemma {:induction false} ConvFirst(t: Tree, q: Path, c: Class, n: nat)
    requires ValidPath(t, q) && Pos(t, q) <= Size(t) && NoMembers(FlatT(t)[..Pos(t, q)], c)
    requires InClass(c, At(t, q).id, At(t, q).data) && c.r != 0
    ensures var a := ConvOne(At(t, q), c, n);
            ConvT(ReplaceAt(t, q, a.0), c, a.1) == ConvT(t, c, n)
    decreases |q|
  {
    var a := ConvOne(At(t, q), c, n);
    if q == [] {
      if Split(t.data) {
        var k := InnerIndex(t.kids);
        SizeTake(t.kids, k);
        var u := Node(n, UsesData(c), []);
        var x := ConvF(t.kids[..k], c, n + 1);
        ConvConcat(t.kids[..k], [u], c, n + 1);
        ConvUses(u, c, x.1);
        assert ConvT(a.0, c, a.1) == (a.0.(kids := x.0 + [u]), x.1);
      }
    } else {
      var k, kid := q[0], t.kids[q[0]];
      PosBound(kid, q[1..]);
      PrefixParts(t, k, Pos(t, q), c);
      ConvKid(t, k, c, n);
      ConvFirst(kid, q[1..], c, n);
      var u := ReplaceAt(t, q, a.0);
      assert u.kids[..k] == t.kids[..k] && u.kids[k + 1..] == t.kids[k + 1..];
      ConvKid(u, k, c, a.1);
    }
  }

  // ----- Space -----

  /** How many nodes the creation of groupings may still insert for a node. */
  function NeedOf(id: nat, d: Data): nat {
    match RoleOf(id, d)
    case Leader => 2
    case Member => 1
    case _ => 0
  }

  function NeedT(t: Tree): nat
    decreases Size(t), 0
  {
    NeedOf(t.id, t.data) + NeedF(t.kids)
  }

  function NeedF(f: seq<Tree>): nat
    decreases SizeF(f), 1
  {
    if f == [] then 0 else NeedT(f[0]) + NeedF(f[1..])
  }

  lemma {:induction false} NeedConcat(f: seq<Tree>, g: seq<Tree>)
    ensures NeedF(f + g) == NeedF(f) + NeedF(g)
    decreases |f|
  {
    if f == [] {
      assert f + g == g;
    } else {
      assert (f + g)[1..] == f[1..] + g;
      NeedConcat(f[1..], g);
    }
  }

  /** Size and remaining need together never grow. */
  ghost predicate Cheaper(size: nat, need: nat, size': nat, need': nat) {
    size' + need' <= size + need && need' <= need
  }

  lemma {:induction false} ConvNeedF(f: seq<Tree>, c: Class, n: nat)
    requires Marked(FlatF(f), c) && c.r != 0
    ensures var g := ConvF(f, c, n).0; Cheaper(SizeF(f), NeedF(f), SizeF(g), NeedF(g))
    decreases SizeF(f), 1
  {
    if f != [] {
      var a := ConvT(f[0], c, n);
      var b := ConvF(f[1..], c, a.1);
      MarkedConcat(FlatT(f[0]), FlatF(f[1..]), c);
      ConvNeedT(f[0], c, n);
      ConvNeedF(f[1..], c, a.1);
      assert ([a.0] + b.0)[1..] == b.0;
    }
  }

  lemma {:induction false} ConvNeedT(t: Tree, c: Class, n: nat)
    requires Marked(FlatT(t), c) && c.r != 0
    ensures var u := ConvT(t, c, n).0; Cheaper(Size(t), NeedT(t), Size(u), NeedT(u))
    decreases Size(t), 0
  {
    MarkedParts(t, c);
    if InClass(c, t.id, t.data) {
      if Split(t.data) {
        var k := InnerIndex(t.kids);
        SizeTake(t.kids, k);
        ConvNeedF(t.kids[..k], c, n + 1);
        SplitNeed(t, k, ConvF(t.kids[..k], c, n + 1).0, n, c);
      }
    } else {
      ConvNeedF(t.kids, c, n);
    }
  }

  lemma SplitNeed(t: Tree, k: nat, x: seq<Tree>, n: nat, c: Class)
    requires k <= |t.kids| && RoleOf(t.id, t.data) == Member
    requires Cheaper(SizeF(t.kids[..k]), NeedF(t.kids[..k]), SizeF(x), NeedF(x))
    ensures var u := Node(t.id, t.data.(ref := 0), x + [Node(n, UsesData(c), [])]);
            Cheaper(Size(t), NeedT(t), Size(u), NeedT(u))
  {
    assert t.kids == t.kids[..k] + t.kids[k..];
    NeedConcat(t.kids[..k], t.kids[k..]);
    SizeConcat(t.kids[..k], t.kids[k..]);
    var u := Node(n, UsesData(c), []);
    NeedConcat(x, [u]);
    SizeConcat(x, [u]);
    assert [u][1..] == [] && NeedT(u) == 0;
  }

  // ----- Edits before the rest of the class -----

  ghost predicate SamePrefix(x: seq<Cell>, y: seq<Cell>, m: nat) {
    m <= |x| && m <= |y| && forall i :: 0 <= i < m ==> x[i].id == y[i].id && x[i].data == y[i].data
  }

  /** Up to the first node of the class nothing changes but counts. */
  lemma {:induction false} ConvPrefixT(t: Tree, c: Class, n: nat, m: nat)
    requires m <= Size(t) && NoMembers(FlatT(t)[..m], c)
    ensures SamePrefix(FlatT(t), FlatT(ConvT(t, c, n).0), m)
    decreases Size(t), 0
  {
    if m > 0 {
      var x, y := FlatF(t.kids), FlatF(ConvF(t.kids, c, n).0);
      assert FlatT(t)[..m][0] == FlatT(t)[0];
      forall i | 0 <= i < m - 1 ensures !InClass(c, x[i].id, x[i].data) {
        assert FlatT(t)[..m][i + 1] == x[i];
      }
      ConvPrefixF(t.kids, c, n, m - 1);
      forall i | 0 <= i < m
        ensures FlatT(t)[i].id == FlatT(ConvT(t, c, n).0)[i].id && FlatT(t)[i].data == FlatT(ConvT(t, c, n).0)[i].data
      {
        if i > 0 { assert x[i - 1].id == y[i - 1].id; }
      }
    }
  }

  lemma {:induction false} ConvPrefixF(f: seq<Tree>, c: Class, n: nat, m: nat)
    requires m <= SizeF(f) && NoMembers(FlatF(f)[..m], c)
    ensures SamePrefix(FlatF(f), FlatF(ConvF(f, c, n).0), m)
    decreases SizeF(f), 1
  {
    if f != [] && m > 0 {
      var a := ConvT(f[0], c, n);
      var b := ConvF(f[1..], c, a.1);
      assert ([a.0] + b.0)[1..] == b.0;
      var x, y := FlatT(f[0]), FlatF(f[1..]);
      if m <= |x| {
        assert (x + y)[..m] == x[..m];
        ConvPrefixT(f[0], c, n, m);
        PrefixGrow(x, y, FlatT(a.0), FlatF(b.0), m);
      } else {
        assert (x + y)[..m] == x + y[..m - |x|];
        NoMembersConcat(x, y[..m - |x|], c);
        ConvNoneT(f[0], c, n);
        ConvPrefixF(f[1..], c, a.1, m - |x|);
        PrefixAppend(x, y, FlatF(b.0), m - |x|);
      }
    }
  }

  lemma PrefixGrow(x: seq<Cell>, y: seq<Cell>, x': seq<Cell>, y': seq<Cell>, m: nat)
    requires SamePrefix(x, x', m)
    ensures SamePrefix(x + y, x' + y', m)
  {
  }

  lemma PrefixAppend(x: seq<Cell>, y: seq<Cell>, y': seq<Cell>, m: nat)
    requires SamePrefix(y, y', m)
    ensures SamePrefix(x + y, x + y', |x| + m)
  {
    forall i | |x| <= i < |x| + m ensures (x + y)[i].id == (x + y')[i].id && (x + y)[i].data == (x + y')[i].data {
      assert y[i - |x|].id == y'[i - |x|].id;
    }
  }

  /** The edit can be made before or after the conversion. */
  ghost predicate Commutes(t: Tree, p: Path, a: nat, b: nat, r: seq<Tree>, c: Class, n: nat)
    requires ValidPath(t, p) && a <= b <= |At(t, p).kids|
  {
    var u := ConvT(t, c, n);
    && ValidPath(u.0, p) && b <= |At(u.0, p).kids| && At(u.0, p).kids[..b] == At(t, p).kids[..b]
    && Pos(u.0, p) == Pos(t, p)
    && ConvT(Splice(t, p, a, b, r), c, n) == (Splice(u.0, p, a, b, r), u.1)
  }

  /** It can if nothing up to its end belongs to the class. */
  lemma {:induction false} ConvSplice(t: Tree, p: Path, a: nat, b: nat, r: seq<Tree>, c: Class, n: nat)
    requires ValidPath(t, p) && a <= b <= |At(t, p).kids| && RangeStart(t, p, b) <= Size(t)
    requires NoMembers(FlatT(t)[..RangeStart(t, p, b)], c) && NoMembers(FlatF(r), c)
    ensures Commutes(t, p, a, b, r, c, n)
    decreases |p|
  {
    if p == [] {
      ConvSpliceHere(t, a, b, r, c, n);
    } else {
      var k, kid := p[0], t.kids[p[0]];
      RangeCells(kid, p[1..], b, |At(kid, p[1..]).kids|);
      PrefixParts(t, k, RangeStart(t, p, b), c);
      ConvSplice(kid, p[1..], a, b, r, c, n);
      ConvSpliceBelow(t, p, a, b, r, c, n);
    }
  }

  lemma ConvSpliceBelow(t: Tree, p: Path, a: nat, b: nat, r: seq<Tree>, c: Class, n: nat)
    requires p != [] && ValidPath(t, p) && a <= b <= |At(t, p).kids|
    requires !InClass(c, t.id, t.data) && NoMembers(FlatF(t.kids[..p[0]]), c)
    requires Commutes(t.kids[p[0]], p[1..], a, b, r, c, n)
    ensures Commutes(t, p, a, b, r, c, n)
  {
    var k, kid := p[0], t.kids[p[0]];
    var x := t.kids[..k];
    var s := Splice(t, p, a, b, r);
    ConvKid(t, k, c, n);
    assert s.kids[..k] == x && s.kids[k + 1..] == t.kids[k + 1..];
    ConvKid(s, k, c, n);
    var v := ConvT(kid, c, n);
    var z := ConvF(t.kids[k + 1..], c, v.1).0;
    var w := Splice(v.0, p[1..], a, b, r);
    KidSwap(x, v.0, w, z);
    assert (x + [v.0] + z)[..k] == x;
  }

  lemma KidSwap<T>(x: seq<T>, v: T, w: T, z: seq<T>)
    ensures (x + [v] + z)[|x|] == v && (x + [v] + z)[|x| := w] == x + [w] + z
  {
  }

  lemma ConvSpliceHere(t: Tree, a: nat, b: nat, r: seq<Tree>, c: Class, n: nat)
    requires a <= b <= |t.kids| && Off(t, b) <= Size(t)
    requires NoMembers(FlatT(t)[..Off(t, b)], c) && NoMembers(FlatF(r), c)
    ensures Commutes(t, [], a, b, r, c, n)
  {
    var x, y, z := t.kids[..a], t.kids[a..b], t.kids[b..];
    assert FlatT(t)[..Off(t, b)][0] == FlatT(t)[0];
    KidsPrefix(t, a, b, c);
    assert t.kids == t.kids[..b] + z && t.kids[..b] == x + y;
    ConvConcat(t.kids[..b], z, c, n);
    ConvNoneF(t.kids[..b], c, n);
    ConvConcat(x + r, z, c, n);
    FlatConcat(x, r);
    NoMembersConcat(FlatF(x), FlatF(r), c);
    ConvNoneF(x + r, c, n);
    var w := ConvF(z, c, n).0;
    assert (t.kids[..b] + w)[..a] == x && (t.kids[..b] + w)[b..] == w;
  }

  lemma KidsPrefix(t: Tree, a: nat, b: nat, c: Class)
    requires a <= b <= |t.kids| && Off(t, b) <= Size(t) && NoMembers(FlatT(t)[..Off(t, b)], c)
    ensures NoMembers(FlatF(t.kids[..b]), c) && NoMembers(FlatF(t.kids[..a]), c)
  {
    var f, z := t.kids[..b], t.kids[b..];
    assert t.kids == f + z;
    FlatConcat(f, z);
    forall i | 0 <= i < SizeF(f) ensures !InClass(c, FlatF(f)[i].id, FlatF(f)[i].data) {
      assert FlatT(t)[..Off(t, b)][i + 1] == FlatF(t.kids)[i];
    }
    assert f == f[..a] + f[a..] && f[..a] == t.kids[..a];
    FlatConcat(f[..a], f[a..]);
    NoMembersConcat(FlatF(f[..a]), FlatF(f[a..]), c);
  }
}
