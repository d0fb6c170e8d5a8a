/** Grouping the inner nodes of a class, and reusing the grouping a node stands in alone. */
module GroupingSplit {
  import opened YNodes
  import opened RoseTree
  import opened TreeLinks
  import opened TreeEdits
  import opened Expansion
  import opened Rewriting
  import opened Conversion
  import opened ConversionFacts
  import opened Groupings
  import opened GroupingSteps
  import opened GroupingRuns
  import opened GroupingEdits
  import opened GroupingPass
  import opened GroupingRest
  import opened GroupingBuild
  import Array = YTree

  /** The first node of a class with its inner nodes under one more node. */
  function Parted(l: Tree, id: nat, d: Data, rest: seq<Tree>): Tree {
    var k := InnerIndex(l.kids);
    l.(kids := l.kids[..k] + [Node(id, d, l.kids[k..])] + rest)
  }

  lemma PartedKids(l: Tree, id: nat, d: Data, rest: seq<Tree>)
    ensures var x, k := Parted(l, id, d, rest), InnerIndex(l.kids);
            && x.id == l.id && x.data == l.data
            && |x.kids| == k + 1 + |rest| && x.kids[k] == Node(id, d, l.kids[k..]) && x.kids[..k] == l.kids[..k]
            && x.kids[k + 1..] == rest
  {
  }

  /** Where the grouping stands. */
  lemma PartedPlace(v: Tree, q: Path, l: Tree, x: Tree)
    requires ValidPath(v, q) && InnerIndex(l.kids) < |x.kids|
             && x.kids[..InnerIndex(l.kids)] == l.kids[..InnerIndex(l.kids)]
    ensures var u, k := ReplaceAt(v, q, x), InnerIndex(l.kids);
            && ValidPath(u, q) && At(u, q) == x && Pos(u, q) == Pos(v, q) < Size(u) && PathTo(u, Pos(v, q)) == q
            && GroupAt(v, q, l) < Size(u) && RangeStart(u, q, k) == GroupAt(v, q, l)
            && PathTo(u, GroupAt(v, q, l)) == q + [k]
            && ValidPath(u, q + [k]) && At(u, q + [k]) == x.kids[k] && Pos(u, q + [k]) == GroupAt(v, q, l)
  {
    var u, k := ReplaceAt(v, q, x), InnerIndex(l.kids);
    Standing(v, q, x);
    KidIndex(u, q, k);
    ReplaceKid(u, q, k, x.kids[k]);
    assert Up(q + [k]) == q && Last(q + [k]) == k;
    UpValid(u, q + [k]);
  }

  function GroupAt(v: Tree, q: Path, l: Tree): nat
    requires ValidPath(v, q)
  {
    Pos(v, q) + 1 + SizeF(l.kids[..InnerIndex(l.kids)])
  }

  lemma ForRest(t: Tree, q: Path, n: nat)
    requires ValidPath(t, q)
    ensures var l := At(t, q);
            var k := InnerIndex(l.kids);
            k < |l.kids| ==>
              && ValidPath(t, q + [k]) && RangeStart(t, q, k) == GroupAt(t, q, l)
              && 0 < GroupAt(t, q, l) < Size(t) && PathTo(t, GroupAt(t, q, l)) == q + [k]
              && InsertParentForRest(t, q + [k], n) == ReplaceAt(t, q, Parted(l, n, BLANK, []))
  {
    var l := At(t, q);
    var k := InnerIndex(l.kids);
    if k < |l.kids| {
      ReplaceFacts(t, q, l);
      PartedPlace(t, q, l, l);
      assert Up(q + [k]) == q && Last(q + [k]) == k;
      SpliceAt(t, q, k, |l.kids|, [Node(n, BLANK, l.kids[k..])]);
      assert l.kids[k..|l.kids|] == l.kids[k..] && l.kids[|l.kids|..] == [];
    }
  }

  lemma PartedData(v: Tree, q: Path, l: Tree, id: nat, d: Data, rest: seq<Tree>, d': Data)
    requires ValidPath(v, q)
    ensures var u, k := ReplaceAt(v, q, Parted(l, id, d, rest)), InnerIndex(l.kids);
            ValidPath(u, q + [k]) && SetData(u, q + [k], d') == ReplaceAt(v, q, Parted(l, id, d', rest))
  {
    var x, k := Parted(l, id, d, rest), InnerIndex(l.kids);
    PartedKids(l, id, d, rest);
    SetKid(v, q, x, k, d');
    assert x.kids[k := x.kids[k].(data := d')] == Parted(l, id, d', rest).kids;
  }

  /** Inserting the grouping around the inner nodes of the first node of a class. */
  method OpenSplit(y: Array.YTree, i: nat) returns (g: nat)
    requires y.Valid() && 0 < i < y.count < y.nodes.Length
    requires InnerIndex(At(y.tree, PathTo(y.tree, i)).kids) < |At(y.tree, PathTo(y.tree, i)).kids|
    modifies y`count, y`tree, y`idcnt, y.nodes
    ensures y.Valid()
    ensures var t, q, n := old(y.tree), PathTo(old(y.tree), i), old(y.idcnt);
            var l := At(t, q);
            && g == GroupAt(t, q, l)
            && y.tree == ReplaceAt(t, q, Parted(l, n, GroupData(l.data.snode), [])) && y.idcnt == n + 1
  {
    ghost var t, q, n := y.tree, PathTo(y.tree, i), y.idcnt;
    ghost var l := At(t, q);
    hide FlatT, LinkT, Pos, Size, At, ReplaceAt, InsertParentForRest, SetData, InnerIndex, Parted, GroupAt;
    ForRest(t, q, n);
    StoredData(y, i, q);
    g := InnerNodes(y, i);   // a first node has inner nodes, so the fallback to the first child is not needed
    var snode := y.nodes[i].data.snode;
    y.InsertParentForRest(g);
    PartedKids(l, n, BLANK, []);
    PartedPlace(t, q, l, Parted(l, n, BLANK, []));
    PartedData(t, q, l, n, BLANK, [], GroupData(snode));
    y.SetNodeData(g, GroupData(snode));
  }

  lemma PartedCleared(v: Tree, q: Path, l: Tree, id: nat, d: Data)
    requires ValidPath(v, q)
    ensures var u := ReplaceAt(v, q, Parted(l, id, d, []));
            && ValidPath(u, q)
            && SetData(u, q, l.data.(ref := 0)) == ReplaceAt(v, q, Parted(Cleared(l), id, d, []))
  {
    SetTop(v, q, Parted(l, id, d, []), l.data.(ref := 0));
    assert Parted(l, id, d, []).(data := l.data.(ref := 0)) == Parted(Cleared(l), id, d, []);
  }

  lemma PartedSibling(v: Tree, q: Path, l: Tree, id: nat, d: Data, m: nat)
    requires ValidPath(v, q)
    ensures var u, k := ReplaceAt(v, q, Parted(l, id, d, [])), InnerIndex(l.kids);
            ValidPath(u, q + [k])
              && InsertSibling(u, q + [k], m) == ReplaceAt(v, q, Parted(l, id, d, [Node(m, BLANK, [])]))
  {
    var x, k, z := Parted(l, id, d, []), InnerIndex(l.kids), [Node(m, BLANK, [])];
    PartedKids(l, id, d, []);
    PartedPlace(v, q, l, x);
    assert Up(q + [k]) == q && Last(q + [k]) == k;
    assert x.kids[k + 1..k + 1] == [];
    SpliceTop(v, q, x, k + 1, k + 1, z);
    assert x.kids[..k + 1] == x.kids;
    assert x.kids[..k + 1] + z + x.kids[k + 1..] == Parted(l, id, d, z).kids;
  }

  /** The uses behind the grouping. */
  lemma PartedUses(v: Tree, q: Path, l: Tree, id: nat, d: Data, w: Tree, du: Data)
    requires ValidPath(v, q)
    ensures var u, k := ReplaceAt(v, q, Parted(l, id, d, [w])), InnerIndex(l.kids);
            && ValidPath(u, q) && At(u, q) == Parted(l, id, d, [w]) && |At(u, q).kids| == k + 2
            && GroupAt(v, q, l) < Size(u) && RangeStart(u, q, k + 1) < Size(u)
            && LinkT(u, 0, NULL, NULL)[GroupAt(v, q, l)].next == RangeStart(u, q, k + 1)
            && SetData(u, PathTo(u, RangeStart(u, q, k + 1)), du)
               == ReplaceAt(v, q, Parted(l, id, d, [w.(data := du)]))
  {
    var x, k := Parted(l, id, d, [w]), InnerIndex(l.kids);
    var u := ReplaceAt(v, q, x);
    PartedKids(l, id, d, [w]);
    hide FlatT, LinkT, Size, At, ReplaceAt, SetData, RangeStart, GroupAt, Pos, InnerIndex, Parted;
    PartedPlace(v, q, l, x);
    KidNode(u, q, k);
    KidIndex(u, q, k + 1);
    SetKid(v, q, x, k + 1, du);
    assert x.kids[k + 1] == [w][0];
    PartedUpdate(l, id, d, w, du);
  }

  lemma PartedUpdate(l: Tree, id: nat, d: Data, w: Tree, du: Data)
    ensures var x, k := Parted(l, id, d, [w]), InnerIndex(l.kids);
            && k + 1 < |x.kids|
            && x.(kids := x.kids[k + 1 := w.(data := du)]) == Parted(l, id, d, [w.(data := du)])
  {
  }

  /** A lone inner node loses its choice. */
  lemma PartedLone(v: Tree, q: Path, l: Tree, id: nat, d: Data, w: Tree)
    requires ValidPath(v, q)
    ensures var k := InnerIndex(l.kids);
            var u := ReplaceAt(v, q, Parted(l, id, d, [w]));
            && ValidPath(u, q + [k])
            && LoneKidChoice(u, q + [k])
               == ReplaceAt(v, q, l.(kids := l.kids[..k] + [Node(id, d, Unchosen(l.kids[k..])), w]))
  {
    hide ReplaceAt, At, Pos, Size, SizeF, GroupAt, InnerIndex, PathTo, RangeStart, SetData;
    var x, k := Parted(l, id, d, [w]), InnerIndex(l.kids);
    var u := ReplaceAt(v, q, x);
    PartedKids(l, id, d, [w]);
    PartedPlace(v, q, l, x);
    var g := x.kids[k];
    if |g.kids| == 1 {
      var g' := g.(kids := Unchosen(g.kids));
      var dk := g.kids[0].data.(choice := None);
      ReplaceFacts(u, q + [k], g);
      SetKid(u, q + [k], g, 0, dk);
      assert g.kids[0 := g.kids[0].(data := dk)] == Unchosen(g.kids);
      ReplaceKid(u, q, k, g');
      ReplaceTwice(v, q, x, x.(kids := x.kids[k := g']));
      ExtendPath(u, q + [k], 0);
      assert x.kids[k := g'] == l.kids[..k] + [Node(id, d, Unchosen(l.kids[k..])), w];
    } else {
      assert x.kids == l.kids[..k] + [Node(id, d, Unchosen(l.kids[k..])), w];
    }
  }

  /** Unmarking the first node, and the uses behind the grouping of its inner nodes. */
  method CloseSplit(y: Array.YTree, i: nat, g: nat, c: Class, ghost v: Tree, ghost q: Path, ghost l: Tree)
    requires y.Valid() && q != [] && ValidPath(v, q) && i == Pos(v, q) > 0 && y.count < y.nodes.Length
    requires InnerIndex(l.kids) < |l.kids| && g == GroupAt(v, q, l)
    requires y.tree == ReplaceAt(v, q, Parted(l, c.g, GroupData(l.data.snode), []))
    modifies y`count, y`tree, y`idcnt, y.nodes
    ensures y.Valid()
    ensures y.tree == ReplaceAt(v, q, Cleared(SplitUnit(l, c, old(y.idcnt)))) && y.idcnt == old(y.idcnt) + 1
  {
    hide FlatT, LinkT, Pos, Size, At, ReplaceAt, SetData, InsertSibling, Unchosen, LoneKidChoice, RangeStart,
         InnerIndex,
      Parted, GroupAt, SplitUnit;
    ghost var k, m, d, l' := InnerIndex(l.kids), y.idcnt, GroupData(l.data.snode), Cleared(l);
    SameGroupAt(v, q, l);
    PartedKids(l, c.g, d, []);
    Standing(v, q, Parted(l, c.g, d, []));
    StoredData(y, i, q);
    var di := y.nodes[i].data;
    PartedCleared(v, q, l, c.g, d);
    y.SetNodeData(i, di.(ref := 0));
    PartedKids(l', c.g, d, []);
    PartedPlace(v, q, l', Parted(l', c.g, d, []));
    PartedSibling(v, q, l', c.g, d, m);
    y.InsertSibling(g);
    FillUses(y, g, c, v, q, l', m, d);
    SplitIsParted(l, c, m);
  }

  lemma SameGroupAt(v: Tree, q: Path, l: Tree)
    requires ValidPath(v, q)
    ensures GroupAt(v, q, Cleared(l)) == GroupAt(v, q, l) > 0 && Cleared(l).kids == l.kids
            && Cleared(l).data == l.data.(ref := 0)
  {
  }

  method FillUses(y: Array.YTree, g: nat, c: Class, ghost v: Tree, ghost q: Path, ghost l: Tree, ghost m: nat,
                  ghost d: Data)
    requires y.Valid() && ValidPath(v, q) && InnerIndex(l.kids) < |l.kids| && g == GroupAt(v, q, l)
    requires y.tree == ReplaceAt(v, q, Parted(l, c.g, d, [Node(m, BLANK, [])]))
    modifies y`count, y`tree, y.nodes
    ensures y.Valid()
    ensures var k := InnerIndex(l.kids);
            var u := Node(m, UsesData(c).(choice := l.kids[k].data.choice), []);
            y.tree == ReplaceAt(v, q, l.(kids := l.kids[..k] + [Node(c.g, d, Unchosen(l.kids[k..])), u]))
  {
    hide FlatT, LinkT, Pos, Size, At, ReplaceAt, SetData, Unchosen, LoneKidChoice, RangeStart, InnerIndex, Parted,
         GroupAt;
    ghost var k, w := InnerIndex(l.kids), Node(m, BLANK, []);
    PartedKids(l, c.g, d, [w]);
    PartedPlace(v, q, l, Parted(l, c.g, d, [w]));
    FirstKidAt(y.tree, q + [k]);
    NodeKids(y.tree, q + [k]);
    assert Array.LinkOf(y.nodes[..y.count][g]) == LinkT(y.tree, 0, NULL, NULL)[g];
    assert y.nodes[y.nodes[g].child].data == Array.CellOf(y.nodes[..y.count][y.nodes[g].child]).data;
    var du := UsesData(c).(choice := y.nodes[y.nodes[g].child].data.choice);
    assert l.kids[k..][0] == l.kids[k];
    var uses := y.nodes[g].next;
    PartedUses(v, q, l, c.g, d, w, du);
    y.SetNodeData(uses, du);
    ghost var w' := w.(data := du);
    PartedKids(l, c.g, d, [w']);
    PartedPlace(v, q, l, Parted(l, c.g, d, [w']));
    PartedLone(v, q, l, c.g, d, w');
    y.ClearLoneChoice(g);
  }

  lemma SplitIsParted(l: Tree, c: Class, m: nat)
    requires InnerIndex(l.kids) < |l.kids|
    ensures var k, l' := InnerIndex(l.kids), Cleared(l);
            var u := Node(m, UsesData(c).(choice := l.kids[k].data.choice), []);
            Cleared(SplitUnit(l, c, m))
            == l'.(kids := l'.kids[..k] + [Node(c.g, GroupData(l.data.snode), Unchosen(l'.kids[k..])), u])
  {
  }

  lemma SplitReady(t: Tree, q: Path, c: Class, n: nat, refs: set<nat>)
    requires WellMarked(t, n, refs) && FirstMarked(t, q) && c.g == n && c.r == At(t, q).id
    ensures var x := Parted(At(t, q), n, GroupData(At(t, q).data.snode), []);
            var u, v := ReplaceAt(t, q, x), ConvT(t, c, n + 1);
            && RestReady(u, n + 1, Pos(t, q), Pos(t, q) + Size(x), c)
            && Size(u) + NeedT(u) <= Size(t) + NeedT(t) + 1
            && ValidPath(v.0, q) && Pos(v.0, q) == Pos(t, q) && ConvT(u, c, n + 1) == (ReplaceAt(v.0, q, x), v.1)
  {
    hide *;
    FirstValid(t, q);
    var l := At(t, q);
    var x := Parted(l, n, GroupData(l.data.snode), []);
    PartedNeed(l, n, l.data.snode);
    FirstRef(t, q, n, refs);
    HeadOfClass(t, q, c, n, refs);
    OpenedSplit(l, c, n, l.data.snode, refs);
    StartReady(t, q, x, 0, c, n, n + 1, refs);
    OpenedNone(l, x, 0, c, n, n + 1, refs);
    ConvReplace(t, q, x, c, n, n + 1, refs);
    OpenedNeed(t, q, x, 1);
  }

  lemma PartedNeed(l: Tree, n: nat, s: Option<nat>)
    ensures var x, k := Parted(l, n, GroupData(s), []), InnerIndex(l.kids);
            && Size(x) == Size(l) + 1 && NeedT(x) == NeedT(l)
            && x == l.(kids := l.kids[..k] + [Node(n, GroupData(s), l.kids[k..])])
  {
    var k := InnerIndex(l.kids);
    var y, z := l.kids[..k], l.kids[k..];
    var g := Node(n, GroupData(s), z);
    assert l.kids == y + z && NeedOf(n, GroupData(s)) == 0;
    assert y + [g] + [] == y + [g];
    OneFlat(g);
    SizeConcat(y, z);
    SizeConcat(y, [g]);
    NeedConcat(y, z);
    NeedConcat(y, [g]);
  }

  lemma SplitHead(t: Tree, q: Path, n: nat, refs: set<nat>)
    requires WellMarked(t, n, refs) && FirstMarked(t, q) && Split(At(t, q).data)
    ensures var l := At(t, q);
            && InnerIndex(l.kids) < |l.kids| && GroupStart(l) == InnerIndex(l.kids)
            && l.kids[InnerIndex(l.kids)..] != [] && l.kids[InnerIndex(l.kids)..][0] == l.kids[InnerIndex(l.kids)]
  {
    FirstRef(t, q, n, refs);
    HeadOfClass(t, q, Class(At(t, q).id, n, {}), n, refs);
  }

  /** The grouping of inner nodes, and the loop over the rest of its class. */
  method ConvertParted(y: Array.YTree, i: nat, ghost refs: set<nat>) returns (c: Class, g: nat)
    requires y.Valid() && 0 < i < y.count && y.count + NeedT(y.tree) <= y.nodes.Length
    requires var q := PathTo(y.tree, i);
             WellMarked(y.tree, y.idcnt, refs) && FirstMarked(y.tree, q) && Split(At(y.tree, q).data)
    modifies y`count, y`tree, y`idcnt, y.nodes
    ensures y.Valid() && y.count < y.nodes.Length
    ensures var t, q, n := old(y.tree), PathTo(old(y.tree), i), old(y.idcnt);
            var l := At(t, q);
            && l.kids != [] && c == ClassOf(l, n, l.kids[GroupStart(l)].data)
            && (var v := ConvT(t, c, n + 1);
                && ValidPath(v.0, q) && Pos(v.0, q) == i && g == GroupAt(v.0, q, l)
                && y.tree == ReplaceAt(v.0, q, Parted(l, n, GroupData(l.data.snode), [])) && y.idcnt == v.1)
  {
    hide FlatT, FlatF, LinkT, Pos, At, ReplaceAt, Put, NeedT, ConvT, WellMarked, FirstMarked, RestReady, Parted,
         InnerIndex, Split,
      GroupStart, PathTo, ValidPath, Array.Stores;
    Array.CountIsSize(y);
    ghost var t, q, n := y.tree, PathTo(y.tree, i), y.idcnt;
    ghost var l := At(t, q);
    ghost var x, k := Parted(l, n, GroupData(l.data.snode), []), InnerIndex(l.kids);
    FirstRef(t, q, n, refs);
    SplitHead(t, q, n, refs);
    g := OpenSplit(y, i);
    Standing(t, q, x);
    PartedKids(l, n, GroupData(l.data.snode), []);
    PartedPlace(t, q, l, x);
    FirstKidAt(y.tree, q + [k]);
    c := NewClass(y, i, g, g + 1, q, q + [k], q + [k] + [0]);
    SplitReady(t, q, c, n, refs);
    PartedEnd(y, i, g, t, q, l, n);
    Array.CountIsSize(y);
    var start := g + y.nodes[g].descendants + 1;
    ConvertRest(y, start, c, i);
  }

  /** The grouping is the last child of the node. */
  lemma PartedEnd(y: Array.YTree, i: nat, g: nat, t: Tree, q: Path, l: Tree, n: nat)
    requires y.Valid() && ValidPath(t, q) && i == Pos(t, q) && g == GroupAt(t, q, l)
    requires y.tree == ReplaceAt(t, q, Parted(l, n, GroupData(l.data.snode), []))
    ensures g < y.count
    ensures g + y.nodes[g].descendants + 1 == i + Size(Parted(l, n, GroupData(l.data.snode), []))
  {
    var x, k := Parted(l, n, GroupData(l.data.snode), []), InnerIndex(l.kids);
    var m := Node(n, GroupData(l.data.snode), l.kids[k..]);
    assert x.kids == l.kids[..k] + [m] by { assert l.kids[..k] + [m] + [] == l.kids[..k] + [m]; }
    hide FlatT, FlatF, LinkT, At, ReplaceAt, Parted, InnerIndex, PathTo;
    PartedKids(l, n, GroupData(l.data.snode), []);
    PartedPlace(t, q, l, x);
    StoredData(y, g, q + [k]);
    OneFlat(m);
    SizeConcat(l.kids[..k], [m]);
  }

  /** The inner nodes of a class are grouped. */
  method GroupSplit(y: Array.YTree, i: nat, ghost refs: set<nat>)
    requires y.Valid() && 0 < i < y.count && y.count + NeedT(y.tree) <= y.nodes.Length
    requires var q := PathTo(y.tree, i);
             WellMarked(y.tree, y.idcnt, refs) && FirstMarked(y.tree, q) && Split(At(y.tree, q).data)
    modifies y`count, y`tree, y`idcnt, y.nodes
    ensures y.Valid() && At(old(y.tree), PathTo(old(y.tree), i)).kids != []
    ensures (y.tree, y.idcnt) == Extract(old(y.tree), PathTo(old(y.tree), i), old(y.idcnt))
  {
    hide FlatT, FlatF, LinkT, Pos, At, ReplaceAt, Put, NeedT, ConvT, WellMarked, FirstMarked, Extract, Split, Parted,
         InnerIndex,
      GroupStart, SplitUnit, GroupAt;
    ghost var t, q, n := y.tree, PathTo(y.tree, i), y.idcnt;
    FirstRef(t, q, n, refs);
    SplitHead(t, q, n, refs);
    SplitDone(t, q, n, refs);
    var c, g := ConvertParted(y, i, refs);
    CloseSplit(y, i, g, c, ConvT(t, c, n + 1).0, q, At(t, q));
  }

  lemma SplitDone(t: Tree, q: Path, n: nat, refs: set<nat>)
    requires WellMarked(t, n, refs) && FirstMarked(t, q) && Split(At(t, q).data)
    ensures var l := At(t, q);
            && l.kids != []
            && (var c := ClassOf(l, n, l.kids[GroupStart(l)].data);
                var v := ConvT(t, c, n + 1);
                && ValidPath(v.0, q)
                && Extract(t, q, n) == (ReplaceAt(v.0, q, Cleared(SplitUnit(l, c, v.1))), v.1 + 1))
  {
    hide FlatT, At, ReplaceAt, Put, ConvT, Cleared, SplitUnit, GroupStart, InnerIndex;
    SplitHead(t, q, n, refs);
    var l := At(t, q);
    SplitPut(t, q, ClassOf(l, n, l.kids[GroupStart(l)].data), n, refs);
  }

  lemma SplitPut(t: Tree, q: Path, c: Class, n: nat, refs: set<nat>)
    requires WellMarked(t, n, refs) && FirstMarked(t, q) && c.g == n && c.r == At(t, q).id
    requires Split(At(t, q).data)
    ensures var v, l := ConvT(t, c, n + 1), At(t, q);
            && InnerIndex(l.kids) < |l.kids|
            && (var x := Cleared(SplitUnit(l, c, v.1));
                ValidPath(v.0, q) && ConvT(Put(t, q, [x]), c, n + 1) == (ReplaceAt(v.0, q, x), v.1))
  {
    hide *;
    FirstValid(t, q);
    var l, m := At(t, q), ConvT(t, c, n + 1).1;
    FirstRef(t, q, n, refs);
    SplitHead(t, q, n, refs);
    HeadOfClass(t, q, c, n, refs);
    ConvIdsT(t, c, n + 1);
    WellKeyed(t, n, refs);
    KeyedAt(t, q);
    SplitReplaces(l, c, n, m, refs);
    var x := Cleared(SplitUnit(l, c, m));
    ReplacesNone(l, [x], c, refs, m + 1);
    ConvPut(t, q, [x], c, n, n + 1, refs);
    PutOne(ConvT(t, c, n + 1).0, q, x);
  }
}
