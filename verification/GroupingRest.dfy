/** The loop that turns the later nodes of a class into uses. */
module GroupingRest {
  import opened YNodes
  import opened RoseTree
  import opened TreeLinks
  import opened TreeEdits
  import opened Expansion
  import opened Rewriting
  import opened Conversion
  import opened ConversionFacts
  import opened Groupings
  import opened GroupingSteps
  import opened GroupingRuns
  import opened GroupingEdits
  import opened GroupingPass
  import Array = YTree

  // ----- Ids by index -----

  ghost function CellIds(s: seq<Cell>): multiset<nat> {
    if s == [] then multiset{} else multiset{s[0].id} + CellIds(s[1..])
  }

  lemma {:induction false} CellIdsConcat(x: seq<Cell>, y: seq<Cell>)
    ensures CellIds(x + y) == CellIds(x) + CellIds(y)
    decreases |x|
  {
    if x == [] {
      assert x + y == y;
    } else {
      assert (x + y)[1..] == x[1..] + y;
      CellIdsConcat(x[1..], y);
    }
  }

  lemma {:induction false} IdsOfCellsT(t: Tree)
    ensures CellIds(FlatT(t)) == IdsT(t)
    decreases Size(t), 0
  {
    var c := Cell(t.id, t.data, SizeF(t.kids));
    CellIdsConcat([c], FlatF(t.kids));
    assert [c][1..] == [];
    IdsOfCellsF(t.kids);
  }

  lemma {:induction false} IdsOfCellsF(f: seq<Tree>)
    ensures CellIds(FlatF(f)) == IdsF(f)
    decreases SizeF(f), 1
  {
    if f != [] {
      CellIdsConcat(FlatT(f[0]), FlatF(f[1..]));
      IdsOfCellsT(f[0]);
      IdsOfCellsF(f[1..]);
    }
  }

  lemma {:induction false} CellIdsHas(s: seq<Cell>, i: nat)
    requires i < |s|
    ensures CellIds(s)[s[i].id] >= 1
    decreases |s|
  {
    if i > 0 { CellIdsHas(s[1..], i - 1); }
  }

  lemma TwiceCounted(s: seq<Cell>, i: nat, j: nat)
    requires i < j < |s| && s[i].id == s[j].id
    ensures CellIds(s)[s[i].id] >= 2
  {
    assert s == s[..j] + s[j..];
    CellIdsConcat(s[..j], s[j..]);
    CellIdsHas(s[..j], i);
    CellIdsHas(s[j..], 0);
  }

  /** Ids that are used once tell the positions apart. */
  lemma OnlyThere(t: Tree, i: nat, j: nat, r: nat)
    requires i < j < Size(t) && FlatT(t)[i].id == r && IdsT(t)[r] <= 1
    ensures FlatT(t)[j].id != r
  {
    IdsOfCellsT(t);
    if FlatT(t)[j].id == r { TwiceCounted(FlatT(t), i, j); }
  }

  // ----- One node -----

  function MarkedNode(c: Class): (nat, Data) -> bool {
    (id: nat, d: Data) => InClass(c, id, d) ==> RoleOf(id, d) == Member
  }

  lemma MarkedIsAll(s: seq<Cell>, c: Class)
    ensures Marked(s, c) <==> All(s, MarkedNode(c))
  {
    var p := MarkedNode(c);
    if Marked(s, c) {
      forall i | 0 <= i < |s| ensures p(s[i].id, s[i].data) { }
    }
    if All(s, p) {
      forall i | 0 <= i < |s| && InClass(c, s[i].id, s[i].data) ensures RoleOf(s[i].id, s[i].data) == Member {
        assert p(s[i].id, s[i].data);
      }
    }
  }

  lemma ConvOneFacts(l: Tree, c: Class, n: nat)
    requires InClass(c, l.id, l.data) && Marked(FlatT(l), c) && c.r != 0
    ensures var a := ConvOne(l, c, n);
            && !InClass(c, a.0.id, a.0.data) && a.0.id == l.id && n <= a.1 <= n + 1
            && Marked(FlatT(a.0), c) && IdsT(a.0) <= IdsT(l) + multiset{n}
            && Size(a.0) + NeedT(a.0) <= Size(l) + NeedT(l)
  {
    MarkedParts(l, c);
    if Split(l.data) {
      var k := InnerIndex(l.kids);
      SplitOneFacts(l, l.kids[..k], l.kids[k..], c, n);
    } else {
      TurnedOneFacts(l, c);
    }
  }

  lemma TurnedOneFacts(l: Tree, c: Class)
    requires InClass(c, l.id, l.data) && RoleOf(l.id, l.data) == Member
    ensures var a := Node(l.id, TurnedData(c, l.data), []);
            && !InClass(c, a.id, a.data) && Marked(FlatT(a), c) && IdsT(a) <= IdsT(l)
            && Size(a) + NeedT(a) <= Size(l) + NeedT(l)
  {
    var a := Node(l.id, TurnedData(c, l.data), []);
    Leafs(l.id, TurnedData(c, l.data));
    assert FlatT(a)[0].data.typ == Uses;
  }

  lemma SplitOneFacts(l: Tree, x: seq<Tree>, z: seq<Tree>, c: Class, n: nat)
    requires l.kids == x + z && InClass(c, l.id, l.data) && RoleOf(l.id, l.data) == Member && Marked(FlatT(l), c)
             && c.r != 0
    ensures var a := Node(l.id, l.data.(ref := 0), x + [Node(n, UsesData(c), [])]);
            && !InClass(c, a.id, a.data) && Marked(FlatT(a), c) && IdsT(a) <= IdsT(l) + multiset{n}
            && Size(a) + NeedT(a) <= Size(l) + NeedT(l)
  {
    var u := Node(n, UsesData(c), []);
    var a := Node(l.id, l.data.(ref := 0), x + [u]);
    var p := MarkedNode(c);
    assert p(l.id, a.data) && p(n, u.data);
    Leafs(n, u.data);
    AllNode(u, p);
    assert NeedOf(n, u.data) == 0 && NeedOf(l.id, a.data) == 0 && NeedOf(l.id, l.data) == 1;
    hide FlatT, FlatF, All, Marked, MarkedNode, NeedOf, UsesData;
    OneFlat(u);
    MarkedIsAll(FlatT(l), c);
    MarkedIsAll(FlatT(a), c);
    NodeParts(l, x, z, c, p);
    NodeParts(a, x, [u], c, p);
    assert All(FlatF([]), p) by { assert All([], p); }
  }

  // ----- The loop -----

  /** Before index `j` the class is done; its first node stands at `i`, in front of all others. */
  ghost predicate RestReady(t: Tree, n: nat, i: nat, j: nat, c: Class) {
    && i < j <= Size(t) && FlatT(t)[i].id == c.r && IdsT(t)[c.r] <= 1 && c.r < n
    && RoleOf(FlatT(t)[i].id, FlatT(t)[i].data) == Leader
    && NoMembers(FlatT(t)[..j], c) && Marked(FlatT(t), c) && c.r != 0 && c.r != c.g
  }

  lemma RestSkip(t: Tree, n: nat, i: nat, j: nat, c: Class)
    requires RestReady(t, n, i, j, c) && j < Size(t)
    ensures FlatT(t)[j].id != c.r
    ensures !InClass(c, FlatT(t)[j].id, FlatT(t)[j].data) ==> RestReady(t, n, i, j + 1, c)
  {
    OnlyThere(t, i, j, c.r);
    if !InClass(c, FlatT(t)[j].id, FlatT(t)[j].data) {
      OneMore(FlatT(t), j, c);
    }
  }

  lemma OneMore(s: seq<Cell>, j: nat, c: Class)
    requires j < |s| && NoMembers(s[..j], c) && !InClass(c, s[j].id, s[j].data)
    ensures NoMembers(s[..j + 1], c)
  {
    var x, y := s[..j + 1], s[..j];
    forall i | 0 <= i < j + 1 ensures !InClass(c, x[i].id, x[i].data) {
      if i < j { assert x[i] == y[i]; }
    }
  }

  lemma PrefixOneMore(s: seq<Cell>, s': seq<Cell>, i: nat, j: nat, c: Class)
    requires SamePrefix(s, s', j) && j < |s'| && NoMembers(s[..j], c) && !InClass(c, s'[j].id, s'[j].data)
    ensures NoMembers(s'[..j + 1], c) && (i < j ==> s'[i].id == s[i].id && s'[i].data == s[i].data)
  {
    var x, y := s'[..j + 1], s[..j];
    forall k | 0 <= k < j + 1 ensures !InClass(c, x[k].id, x[k].data) {
      if k < j { assert x[k] == s'[k] && y[k] == s[k] && s[k].id == s'[k].id; }
    }
  }

  lemma CountBelow(a: multiset<nat>, b: multiset<nat>, l: multiset<nat>, x: multiset<nat>, n: nat, r: nat)
    requires a + l == b + x && x <= l + multiset{n} && n != r
    ensures a[r] <= b[r]
  {
    assert (a + l)[r] == (b + x)[r] && x[r] <= (l + multiset{n})[r];
  }

  lemma FirstCell(r: seq<Tree>)
    requires r != []
    ensures SizeF(r) >= 1 && FlatF(r)[0].data == r[0].data && FlatF(r)[0].id == r[0].id
  {
  }

  lemma SliceFirst(s: seq<Cell>, j: nat, m: seq<Cell>)
    requires |m| >= 1 && j + |m| <= |s| && s[j..j + |m|] == m
    ensures s[j] == m[0]
  {
  }

  lemma RestStep(t: Tree, q: Path, n: nat, i: nat, c: Class)
    requires q != [] && ValidPath(t, q) && RestReady(t, n, i, Pos(t, q), c)
    requires InClass(c, At(t, q).id, At(t, q).data)
    ensures var a := ConvOne(At(t, q), c, n);
            var u := ReplaceAt(t, q, a.0);
            && RestReady(u, a.1, i, Pos(t, q) + 1, c) && n <= a.1
            && Size(u) + NeedT(u) <= Size(t) + NeedT(t)
            && ConvT(u, c, a.1) == ConvT(t, c, n)
  {
    hide Size, SizeF, FlatT, FlatF, At, Pos, Put, ReplaceAt, ConvT, ConvOne, InClass, NoMembers, Marked, NeedT, NeedF,
         IdsT, IdsF,
      SamePrefix, MarkedNode, All;
    var l, j := At(t, q), Pos(t, q);
    var a := ConvOne(l, c, n);
    var u := ReplaceAt(t, q, a.0);
    var p := MarkedNode(c);
    ConvFirst(t, q, c, n);
    PutOne(t, q, a.0);
    PutFlat(t, q, [a.0]);
    PutIds(t, q, [a.0]);
    MarkedIsAll(FlatT(t), c);
    AllAt(t, q, p);
    MarkedIsAll(FlatT(l), c);
    ConvOneFacts(l, c, n);
    OneFlat(a.0);
    MarkedIsAll(FlatT(a.0), c);
    PutAll(t, q, [a.0], p);
    MarkedIsAll(FlatT(u), c);
    CountBelow(IdsT(u), IdsT(t), IdsT(l), IdsT(a.0), n, c.r);
    FirstCell([a.0]);
    SliceFirst(FlatT(u), j, FlatF([a.0]));
    PrefixOneMore(FlatT(t), FlatT(u), i, j, c);
  }

  /** The loop over the nodes behind a grouping: what is left of its class is converted. The first node of
      the class still counts for the grouping and the uses, of which one may be inserted already. */
  method ConvertRest(y: Array.YTree, start: nat, c: Class, ghost i: nat)
    requires y.Valid() && RestReady(y.tree, y.idcnt, i, start, c) && y.count + NeedT(y.tree) <= y.nodes.Length + 1
    modifies y`count, y`tree, y`idcnt, y.nodes
    ensures y.Valid() && y.count < y.nodes.Length
    ensures y.count + NeedT(y.tree) <= old(y.count + NeedT(y.tree))
    ensures (y.tree, y.idcnt) == ConvT(old(y.tree), c, old(y.idcnt))
  {
    hide FlatT, NeedT, Pos, At, ReplaceAt, ConvT, RestReady, ConvOne, PathTo;
    ghost var t0, n0 := y.tree, y.idcnt;
    RestEnd(t0, n0, i, start, c);
    var j := start;
    while j < y.count
      invariant y.Valid() && y.count == Size(y.tree)
      invariant 0 < j <= y.count && RestReady(y.tree, y.idcnt, i, j, c)
      invariant y.count + NeedT(y.tree) <= old(y.count + NeedT(y.tree))
      invariant ConvT(y.tree, c, y.idcnt) == ConvT(t0, c, n0)
      decreases y.count + NeedT(y.tree) - j
    {
      ghost var t, n, q := y.tree, y.idcnt, PathTo(y.tree, j);
      RestSkip(t, n, i, j, c);
      NodeCell(t, q);
      var d := y.nodes[..y.count][j].data;
      assert Array.CellOf(y.nodes[..y.count][j]) == FlatT(t)[j];
      if d.ref != c.r || d.typ == Uses {
        j := j + 1;
        continue;
      }
      PairNeeds(t, n, i, j, c);
      RestStep(t, q, n, i, c);
      ConvertOne(y, j, c);
      j := j + 1;
      RestEnd(y.tree, y.idcnt, i, j, c);
    }
    RestEnd(y.tree, y.idcnt, i, j, c);
    LeaderNeeds(y.tree, y.idcnt, i, j, c);
  }

  lemma RestEnd(t: Tree, n: nat, i: nat, j: nat, c: Class)
    requires RestReady(t, n, i, j, c)
    ensures 0 < j <= Size(t) && (j == Size(t) ==> ConvT(t, c, n) == (t, n))
  {
    if j == Size(t) {
      assert FlatT(t)[..j] == FlatT(t);
      ConvNoneT(t, c, n);
    }
  }

  // ----- Space by index -----

  ghost function CellNeeds(s: seq<Cell>): nat {
    if s == [] then 0 else NeedOf(s[0].id, s[0].data) + CellNeeds(s[1..])
  }

  lemma {:induction false} CellNeedsConcat(x: seq<Cell>, y: seq<Cell>)
    ensures CellNeeds(x + y) == CellNeeds(x) + CellNeeds(y)
    decreases |x|
  {
    if x == [] {
      assert x + y == y;
    } else {
      assert (x + y)[1..] == x[1..] + y;
      CellNeedsConcat(x[1..], y);
    }
  }

  lemma {:induction false} NeedsOfCellsT(t: Tree)
    ensures CellNeeds(FlatT(t)) == NeedT(t)
    decreases Size(t), 0
  {
    var c := Cell(t.id, t.data, SizeF(t.kids));
    CellNeedsConcat([c], FlatF(t.kids));
    assert [c][1..] == [];
    NeedsOfCellsF(t.kids);
  }

  lemma {:induction false} NeedsOfCellsF(f: seq<Tree>)
    ensures CellNeeds(FlatF(f)) == NeedF(f)
    decreases SizeF(f), 1
  {
    if f != [] {
      CellNeedsConcat(FlatT(f[0]), FlatF(f[1..]));
      NeedsOfCellsT(f[0]);
      NeedsOfCellsF(f[1..]);
    }
  }

  lemma {:induction false} CellNeedsHas(s: seq<Cell>, i: nat)
    requires i < |s|
    ensures CellNeeds(s) >= NeedOf(s[i].id, s[i].data)
    decreases |s|
  {
    if i > 0 { CellNeedsHas(s[1..], i - 1); }
  }

  lemma LeaderNeeds(t: Tree, n: nat, i: nat, j: nat, c: Class)
    requires RestReady(t, n, i, j, c)
    ensures NeedT(t) >= 2
  {
    NeedsOfCellsT(t);
    CellNeedsHas(FlatT(t), i);
  }

  /** The first node of a class and a later one need space together. */
  lemma PairNeeds(t: Tree, n: nat, i: nat, j: nat, c: Class)
    requires RestReady(t, n, i, j, c) && j < Size(t) && InClass(c, FlatT(t)[j].id, FlatT(t)[j].data)
    ensures NeedT(t) >= 3
  {
    var s := FlatT(t);
    NeedsOfCellsT(t);
    assert s == s[..j] + s[j..];
    CellNeedsConcat(s[..j], s[j..]);
    CellNeedsHas(s[..j], i);
    CellNeedsHas(s[j..], 0);
  }
}
