/** Building the grouping of one class in the stored array, and the loop over all classes. */
module GroupingBuild {
  import opened YNodes
  import opened RoseTree
  import opened TreeLinks
  import opened TreeEdits
  import opened Expansion
  import opened Rewriting
  import opened Conversion
  import opened ConversionFacts
  import opened Groupings
  import opened GroupingSteps
  import opened GroupingRuns
  import opened GroupingEdits
  import opened GroupingPass
  import opened GroupingRest
  import Array = YTree

  // ----- The start of the inner loop -----

  /** What stands in place of the first node before the loop: it holds that node at index `k`. */
  ghost predicate Opened(l: Tree, x: Tree, k: nat, c: Class, n: nat, n': nat, refs: set<nat>) {
    && NoMembers(FlatT(x), c) && All(FlatT(x), Fits(refs, n')) && n <= n' && IdsT(x) <= IdsT(l) + multiset{n}
    && k < Size(x) && FlatT(x)[k].id == l.id && FlatT(x)[k].data == l.data
  }

  lemma StartReady(t: Tree, q: Path, x: Tree, k: nat, c: Class, n: nat, n': nat, refs: set<nat>)
    requires WellMarked(t, n, refs) && FirstMarked(t, q) && ClassHead(At(t, q), c, n, refs) && c.r < n
    requires Opened(At(t, q), x, k, c, n, n', refs)
    ensures RestReady(ReplaceAt(t, q, x), n', Pos(t, q) + k, Pos(t, q) + Size(x), c)
  {
    hide Size, SizeF, FlatT, FlatF, At, Pos, Put, ReplaceAt, NoMembers, Marked, IdsT, IdsF, SamePrefix, All,
         Fits, Silent,
      NonePending, Keyed, ExpandT, NeedT, NeedF;
    var l, s, u := At(t, q), Pos(t, q), ReplaceAt(t, q, x);
    PutOne(t, q, x);
    OneFlat(x);
    PutFlat(t, q, [x]);
    PutIds(t, q, [x]);
    FitsLater(FlatT(t), refs, n, n');
    PutAll(t, q, [x], Fits(refs, n'));
    InClassFacts(FlatT(u), c, n', refs);
    PlacePrefix(t, q, [x], c, n', refs);
    CountBelow(IdsT(u), IdsT(t), IdsT(l), IdsT(x), n, c.r);
    OnceAtMost(IdsT(t), c.r);
    SliceCell(FlatT(u), s, FlatT(x), k);
  }

  lemma SliceCell<T>(f: seq<T>, s: nat, m: seq<T>, k: nat)
    requires k < |m| && s + |m| <= |f| && f[s..s + |m|] == m
    ensures f[s + k] == m[k]
  {
  }

  lemma OpenedWhole(l: Tree, c: Class, n: nat, s: Option<nat>, refs: set<nat>)
    requires ClassHead(l, c, n, refs) && c.g == n
    ensures Opened(l, Node(n, GroupData(s), [l]), 1, c, n, n + 1, refs)
  {
    var x := Node(n, GroupData(s), [l]);
    MadeFits(refs, n + 1, c, n, s, None);
    FitsLater(FlatT(l), refs, n, n + 1);
    AllNode(x, Fits(refs, n + 1));
    NoMembersNode(x, c);
    OneFlat(l);
    assert IdsT(x) == multiset{n} + IdsT(l);
    assert FlatT(x)[1] == FlatT(l)[0];
  }

  lemma OpenedSplit(l: Tree, c: Class, n: nat, s: Option<nat>, refs: set<nat>)
    requires ClassHead(l, c, n, refs) && c.g == n
    ensures var k := InnerIndex(l.kids);
            Opened(l, l.(kids := l.kids[..k] + [Node(n, GroupData(s), l.kids[k..])]), 0, c, n, n + 1, refs)
  {
    var k := InnerIndex(l.kids);
    var y, z := l.kids[..k], l.kids[k..];
    assert l.kids == y + z;
    var g := Node(n, GroupData(s), z);
    var x := l.(kids := y + [g]);
    var p := Fits(refs, n + 1);
    assert FlatT(x)[0].id == l.id && FlatT(x)[0].data == l.data;
    MadeFits(refs, n + 1, c, n, s, None);
    FitsLater(FlatT(l), refs, n, n + 1);
    hide FlatT, FlatF, NoMembers, All, Fits, IdsF, IdsT, NeedF, NeedT, Size, SizeF;
    NodeParts(l, y, z, c, p);
    OneFlat(g);
    AllNode(g, p);
    NoMembersNode(g, c);
    NodeParts(g, [], z, c, p);
    NodeParts(x, y, [g], c, p);
  }

  lemma OpenedSelf(l: Tree, c: Class, n: nat, refs: set<nat>)
    requires ClassHead(l, c, n, refs)
    ensures Opened(l, l, 0, c, n, n, refs)
  {
  }

  // ----- The grouping of a whole node -----

  lemma WrapperAt(t: Tree, q: Path, n: nat)
    requires q != [] && ValidPath(t, q)
    ensures var u := ReplaceAt(t, q, Node(n, BLANK, [At(t, q)]));
            && InsertWrapper(t, q, n) == u
            && ValidPath(t, Up(q)) && ValidPath(u, Up(q)) && At(u, Up(q)).data == At(t, Up(q)).data
            && Pos(t, q) < Size(t)
  {
    UpValid(t, q);
    PosBound(t, q);
    var w := Node(n, BLANK, [At(t, q)]);
    assert At(t, Up(q)).kids[Last(q)..Last(q) + 1] == [At(t, q)];
    PutOne(t, q, w);
    SpliceValid(t, Up(q), Last(q), Last(q) + 1, [w]);
  }

  /** Reading a stored node. */
  lemma StoredData(y: Array.YTree, i: nat, q: Path)
    requires y.Valid() && ValidPath(y.tree, q) && Pos(y.tree, q) == i
    ensures i < y.count && y.nodes[i].data == At(y.tree, q).data && y.nodes[i].id == At(y.tree, q).id
    ensures y.nodes[i].descendants == Size(At(y.tree, q)) - 1
    ensures q != [] ==> ValidPath(y.tree, Up(q)) && y.nodes[i].parent == Pos(y.tree, Up(q))
  {
    NodeCell(y.tree, q);
    assert Array.CellOf(y.nodes[..y.count][i]) == FlatT(y.tree)[i];
    if q != [] {
      ParentLink(y.tree, q);
      assert Array.LinkOf(y.nodes[..y.count][i]) == LinkT(y.tree, 0, NULL, NULL)[i];
    }
  }

  lemma FirstKidAt(t: Tree, q: Path)
    requires ValidPath(t, q) && At(t, q).kids != []
    ensures ValidPath(t, q + [0]) && At(t, q + [0]) == At(t, q).kids[0] && Pos(t, q + [0]) == Pos(t, q) + 1
    ensures Pos(t, q) + 1 < Size(t) && PathTo(t, Pos(t, q) + 1) == q + [0]
  {
    AllKids(t, q);
    KidIndex(t, q, 0);
    ReplaceKid(t, q, 0, At(t, q).kids[0]);
    assert Up(q + [0]) == q && Last(q + [0]) == 0;
    UpValid(t, q + [0]);
  }

  /** What the loop over the rest of a class needs to know, read from three nodes. */
  method NewClass(y: Array.YTree, lead: nat, group: nat, first: nat, ghost ql: Path, ghost qg: Path, ghost qf: Path)
    returns (c: Class)
    requires y.Valid() && ValidPath(y.tree, ql) && ValidPath(y.tree, qg) && ValidPath(y.tree, qf)
    requires lead == Pos(y.tree, ql) && group == Pos(y.tree, qg) && first == Pos(y.tree, qf)
    ensures c == Class(At(y.tree, ql).data.ref, At(y.tree, qg).id, At(y.tree, qf).data.flags * {ChoiceMandFalse})
  {
    hide FlatT, LinkT, Pos, Size, At;
    StoredData(y, lead, ql);
    StoredData(y, group, qg);
    StoredData(y, first, qf);
    c := Class(y.nodes[lead].data.ref, y.nodes[group].id, y.nodes[first].data.flags * {ChoiceMandFalse});
  }

  /** Inserting the grouping around the first node of a class. */
  method OpenWhole(y: Array.YTree, i: nat)
    requires y.Valid() && 0 < i < y.count < y.nodes.Length
    modifies y`count, y`tree, y`idcnt, y.nodes
    ensures y.Valid()
    ensures var t, q, n := old(y.tree), PathTo(old(y.tree), i), old(y.idcnt);
            && ValidPath(t, Up(q))
            && y.tree == ReplaceAt(t, q, Node(n, GroupData(At(t, Up(q)).data.snode), [At(t, q)])) && y.idcnt == n + 1
  {
    ghost var t, q, n := y.tree, PathTo(y.tree, i), y.idcnt;
    ghost var l := At(t, q);
    hide FlatT, LinkT, Pos, Size, At, ReplaceAt, InsertWrapper, SetData;
    WrapperAt(t, q, n);
    y.InsertWrapper(i);
    ghost var g := Node(n, BLANK, [l]);
    Standing(t, q, g);
    StoredData(y, i, q);
    StoredData(y, y.nodes[i].parent, Up(q));
    var s := y.nodes[y.nodes[i].parent].data.snode;
    SetTop(t, q, g, GroupData(s));
    y.SetNodeData(i, GroupData(s));
  }

  /** The edits that finish the grouping of a whole node. */
  lemma ClosedTop(v: Tree, q: Path, l: Tree, c: Class, s: Option<nat>)
    requires ValidPath(v, q)
    ensures var g, g' := Node(c.g, GroupData(s), [l]), Node(c.g, GroupData(s), [Cleared(l)]);
            var u := ReplaceAt(v, q, g);
            ValidPath(u, q + [0]) && SetData(u, q + [0], l.data.(ref := 0)) == ReplaceAt(v, q, g')
  {
    SetKid(v, q, Node(c.g, GroupData(s), [l]), 0, l.data.(ref := 0));
    assert [l][0 := Cleared(l)] == [Cleared(l)];
  }

  lemma SiblingAt(v: Tree, q: Path, g: Tree, m: nat, d: Data)
    requires q != [] && ValidPath(v, q)
    ensures var u, w := ReplaceAt(v, q, g), Put(v, q, [g, Node(m, BLANK, [])]);
            && ValidPath(u, q) && InsertSibling(u, q, m) == w
            && ValidPath(w, q) && At(w, q) == g && Pos(w, q) == Pos(v, q) < Size(w) && PathTo(w, Pos(v, q)) == q
            && (var p, a := Up(q), Last(q) + 1;
                && ValidPath(w, p) && a < |At(w, p).kids| && ValidPath(w, p + [a])
                && RangeStart(w, p, a) < Size(w) && PathTo(w, RangeStart(w, p, a)) == p + [a]
                && LinkT(w, 0, NULL, NULL)[Pos(v, q)].next == RangeStart(w, p, a)
                && SetData(w, p + [a], d) == Put(v, q, [g, Node(m, d, [])]))
  {
    hide FlatT, LinkT, Size, At, ReplaceAt, Put, SetData, Splice;
    var w := Put(v, q, [g, Node(m, BLANK, [])]);
    PutOne(v, q, g);
    Standing(v, q, g);
    PutSecond(v, q, g, Node(m, BLANK, []), d);
    var u := ReplaceAt(v, q, g);
    UpValid(u, q);
    assert At(u, Up(q)).kids[Last(q) + 1..Last(q) + 1] == [];
    PutAt(v, q, [g, Node(m, BLANK, [])]);
    PathToPos(w, q);
    NextLink(w, q);
    KidIndex(w, Up(q), Last(q) + 1);
  }

  /** The last edit: a lone child of the grouping loses its choice. */
  lemma LoneAt(v: Tree, q: Path, g: Tree, u: Tree)
    requires q != [] && ValidPath(v, q)
    ensures var w := Put(v, q, [g, u]);
            ValidPath(w, q) && LoneKidChoice(w, q) == Put(v, q, [g.(kids := Unchosen(g.kids)), u])
  {
    hide SetData;
    var w := Put(v, q, [g, u]);
    PutAt(v, q, [g, u]);
    if |g.kids| == 1 {
      var d := g.kids[0].data.(choice := None);
      assert g.kids[0 := g.kids[0].(data := d)] == Unchosen(g.kids);
      SetKidOfFirst(v, q, g, u, 0, d);
      ExtendPath(w, q, 0);
    }
  }

  lemma SetKidOfFirst(v: Tree, q: Path, g: Tree, u: Tree, k: nat, d: Data)
    requires q != [] && ValidPath(v, q) && k < |g.kids|
    ensures var w := Put(v, q, [g, u]);
            && ValidPath(w, q) && ValidPath(w, q + [k])
            && SetData(w, q + [k], d) == Put(v, q, [g.(kids := g.kids[k := g.kids[k].(data := d)]), u])
  {
    UpValid(v, q);
    var w, p, a := Put(v, q, [g, u]), Up(q), Last(q);
    var g' := g.(kids := g.kids[k := g.kids[k].(data := d)]);
    PutAt(v, q, [g, u]);
    ReplaceKid(w, q, k, g.kids[k].(data := d));
    SetAt(w, q + [k], d);
    assert SetData(w, q + [k], d) == ReplaceAt(w, q, g');
    PutOne(w, q, g');
    SpliceSplice(v, p, a, g, [u], g');
    assert [g] + [u] == [g, u] && [g'] + [u] == [g', u];
  }

  /** Unmarking the first node, and the uses behind the grouping. */
  method CloseWhole(y: Array.YTree, i: nat, c: Class, ghost v: Tree, ghost q: Path, ghost l: Tree, ghost s: Option<nat>)
    requires y.Valid() && q != [] && ValidPath(v, q) && i == Pos(v, q) > 0 && y.count < y.nodes.Length
    requires y.tree == ReplaceAt(v, q, Node(c.g, GroupData(s), [l]))
    modifies y`count, y`tree, y`idcnt, y.nodes
    ensures y.Valid()
    ensures y.tree == Put(v, q, WholeUnit(Cleared(l), c, old(y.idcnt), s)) && y.idcnt == old(y.idcnt) + 1
  {
    hide FlatT, LinkT, Pos, Size, At, ReplaceAt, SetData, InsertSibling, Put, WholeUnit, Unchosen, LoneKidChoice,
         RangeStart;
    ghost var g, m := Node(c.g, GroupData(s), [l]), y.idcnt;
    ghost var g' := Node(c.g, GroupData(s), [Cleared(l)]);
    Standing(v, q, g);
    FirstKidAt(y.tree, q);
    StoredData(y, i + 1, q + [0]);
    var d := y.nodes[i + 1].data;
    ClosedTop(v, q, l, c, s);
    y.SetNodeData(i + 1, d.(ref := 0));
    Standing(v, q, g');
    var du := UsesData(c).(choice := d.choice);
    SiblingAt(v, q, g', m, du);
    y.InsertSibling(i);
    assert Array.LinkOf(y.nodes[..y.count][i]) == LinkT(y.tree, 0, NULL, NULL)[i];
    var uses := y.nodes[i].next;
    y.SetNodeData(uses, du);
    LoneAt(v, q, g', Node(m, du, []));
    PutPlace(v, q, [g', Node(m, du, [])]);
    y.ClearLoneChoice(i);
    WholeShape(Cleared(l), c, m, s);
  }

  lemma PutPlace(v: Tree, q: Path, r: seq<Tree>)
    requires q != [] && ValidPath(v, q) && r != []
    ensures var w := Put(v, q, r);
            ValidPath(w, q) && Pos(v, q) == Pos(w, q) < Size(w) && PathTo(w, Pos(v, q)) == q
  {
    PutAt(v, q, r);
    PathToPos(Put(v, q, r), q);
  }

  /** What is put in place of the first node may be put there before or after the loop. */
  lemma ConvPut(t: Tree, q: Path, r: seq<Tree>, c: Class, n: nat, n1: nat, refs: set<nat>)
    requires WellMarked(t, n, refs) && FirstMarked(t, q) && ClassHead(At(t, q), c, n, refs) && NoMembers(FlatF(r), c)
    ensures var v := ConvT(t, c, n1);
            && ValidPath(v.0, q) && Pos(v.0, q) == Pos(t, q)
            && ConvT(Put(t, q, r), c, n1) == (Put(v.0, q, r), v.1)
  {
    HeadPrefix(t, q, c, n, refs);
    UpValid(t, q);
    hide FlatT, FlatF, Size, ConvT, Splice, NoMembers, ClassHead, WellMarked;
    ConvSplice(t, Up(q), Last(q), Last(q) + 1, r, c, n1);
    var v, p, a := ConvT(t, c, n1).0, Up(q), Last(q);
    assert a + 1 <= |At(v, p).kids|;
    ExtendPath(v, p, a);
    assert p + [a] == q;
    UpValid(v, q);
    var x, z := At(v, p).kids[..a + 1], At(t, p).kids[..a + 1];
    assert x == z && x[..a] == At(v, p).kids[..a] && z[..a] == At(t, p).kids[..a];
  }

  lemma ConvReplace(t: Tree, q: Path, x: Tree, c: Class, n: nat, n1: nat, refs: set<nat>)
    requires WellMarked(t, n, refs) && FirstMarked(t, q) && ClassHead(At(t, q), c, n, refs) && NoMembers(FlatT(x), c)
    ensures var v := ConvT(t, c, n1);
            && ValidPath(v.0, q) && Pos(v.0, q) == Pos(t, q)
            && ConvT(ReplaceAt(t, q, x), c, n1) == (ReplaceAt(v.0, q, x), v.1)
  {
    hide *;
    FirstValid(t, q);
    OneFlat(x);
    ConvPut(t, q, [x], c, n, n1, refs);
    PutOne(t, q, x);
    PutOne(ConvT(t, c, n1).0, q, x);
  }

  lemma FirstValid(t: Tree, q: Path)
    requires FirstMarked(t, q)
    ensures q != [] && ValidPath(t, q)
  {
  }

  lemma FirstRef(t: Tree, q: Path, n: nat, refs: set<nat>)
    requires WellMarked(t, n, refs) && FirstMarked(t, q)
    ensures At(t, q).data.ref == At(t, q).id < n && NeedT(t) >= 2
    ensures RoleOf(At(t, q).id, At(t, q).data) == Leader
  {
    FirstIsLeader(t, q, n, refs);
    BelowCounter(t, q, n, refs);
    NeedsOfCellsT(t);
    CellAt(t, q);
    CellNeedsHas(FlatT(t), Pos(t, q));
  }

  /** Space for the inner loop. */
  lemma OpenedNeed(t: Tree, q: Path, x: Tree, k: nat)
    requires q != [] && ValidPath(t, q) && Size(x) + NeedT(x) <= Size(At(t, q)) + NeedT(At(t, q)) + k
    ensures var u := ReplaceAt(t, q, x); Size(u) + NeedT(u) <= Size(t) + NeedT(t) + k
  {
    PutOne(t, q, x);
    PutFlat(t, q, [x]);
    PutIds(t, q, [x]);
    OneFlat(x);
  }

  /** The grouping of a whole node, and the loop over the rest of its class. */
  method ConvertWhole(y: Array.YTree, i: nat, ghost refs: set<nat>) returns (c: Class)
    requires y.Valid() && 0 < i < y.count && y.count + NeedT(y.tree) <= y.nodes.Length
    requires WellMarked(y.tree, y.idcnt, refs) && FirstMarked(y.tree, PathTo(y.tree, i))
    modifies y`count, y`tree, y`idcnt, y.nodes
    ensures y.Valid() && y.count < y.nodes.Length
    ensures PathTo(old(y.tree), i) != [] && ValidPath(old(y.tree), PathTo(old(y.tree), i))
            && ValidPath(old(y.tree), Up(PathTo(old(y.tree), i)))
    ensures var t, q, n := old(y.tree), PathTo(old(y.tree), i), old(y.idcnt);
            && c == ClassOf(At(t, q), n, At(t, q).data)
            && (var v, x := ConvT(t, c, n + 1), Node(n, GroupData(At(t, Up(q)).data.snode), [At(t, q)]);
                && ValidPath(v.0, q) && Pos(v.0, q) == i && y.tree == ReplaceAt(v.0, q, x) && y.idcnt == v.1)
  {
    hide FlatT, FlatF, LinkT, Pos, At, ReplaceAt, Put, NeedT, ConvT, WellMarked, FirstMarked, RestReady, ClassHead,
         Opened, PathTo,
      Array.Stores, Up, Last, ValidPath;
    Array.CountIsSize(y);
    ghost var t, q, n := y.tree, PathTo(y.tree, i), y.idcnt;
    FirstRef(t, q, n, refs);
    UpValid(t, q);
    ghost var s := At(t, Up(q)).data.snode;
    ghost var x := Node(n, GroupData(s), [At(t, q)]);
    OpenWhole(y, i);
    Standing(t, q, x);
    FirstKidAt(y.tree, q);
    c := NewClass(y, i + 1, i, i + 1, q + [0], q, q + [0]);
    WholeReady(t, q, c, n, s, refs);
    StoredData(y, i, q);
    Array.CountIsSize(y);
    var start := i + y.nodes[i].descendants + 1;
    ConvertRest(y, start, c, i + 1);
  }

  /** A whole node is grouped. */
  method GroupWhole(y: Array.YTree, i: nat, ghost refs: set<nat>)
    requires y.Valid() && 0 < i < y.count && y.count + NeedT(y.tree) <= y.nodes.Length
    requires var q := PathTo(y.tree, i);
             && WellMarked(y.tree, y.idcnt, refs) && FirstMarked(y.tree, q)
             && !Split(At(y.tree, q).data) && !Reuses(y.tree, q)
    modifies y`count, y`tree, y`idcnt, y.nodes
    ensures y.Valid()
    ensures (y.tree, y.idcnt) == Extract(old(y.tree), PathTo(old(y.tree), i), old(y.idcnt))
  {
    hide FlatT, FlatF, LinkT, Pos, At, ReplaceAt, Put, WholeUnit, NeedT, ConvT, WellMarked, FirstMarked, Extract,
         Reuses, Split;
    ghost var t, q, n := y.tree, PathTo(y.tree, i), y.idcnt;
    FirstRef(t, q, n, refs);
    WholeDone(t, q, n, refs);
    var c := ConvertWhole(y, i, refs);
    CloseWhole(y, i, c, ConvT(t, c, n + 1).0, q, At(t, q), At(t, Up(q)).data.snode);
  }

  lemma WholeReady(t: Tree, q: Path, c: Class, n: nat, s: Option<nat>, refs: set<nat>)
    requires WellMarked(t, n, refs) && FirstMarked(t, q) && c.g == n && c.r == At(t, q).id
    ensures var x := Node(n, GroupData(s), [At(t, q)]);
            var u, v := ReplaceAt(t, q, x), ConvT(t, c, n + 1);
            && RestReady(u, n + 1, Pos(t, q) + 1, Pos(t, q) + Size(x), c)
            && Size(u) + NeedT(u) <= Size(t) + NeedT(t) + 1
            && ValidPath(v.0, q) && Pos(v.0, q) == Pos(t, q) && ConvT(u, c, n + 1) == (ReplaceAt(v.0, q, x), v.1)
  {
    hide *;
    FirstValid(t, q);
    var l, x := At(t, q), Node(n, GroupData(s), [At(t, q)]);
    WrappedNeed(l, n, s);
    FirstRef(t, q, n, refs);
    HeadOfClass(t, q, c, n, refs);
    OpenedWhole(l, c, n, s, refs);
    StartReady(t, q, x, 1, c, n, n + 1, refs);
    OpenedNone(l, x, 1, c, n, n + 1, refs);
    ConvReplace(t, q, x, c, n, n + 1, refs);
    OpenedNeed(t, q, x, 1);
  }

  lemma WrappedNeed(l: Tree, n: nat, s: Option<nat>)
    ensures var x := Node(n, GroupData(s), [l]); Size(x) == Size(l) + 1 && NeedT(x) == NeedT(l)
  {
    OneFlat(l);
    assert NeedOf(n, GroupData(s)) == 0;
  }

  lemma OpenedNone(l: Tree, x: Tree, k: nat, c: Class, n: nat, n': nat, refs: set<nat>)
    requires Opened(l, x, k, c, n, n', refs)
    ensures NoMembers(FlatT(x), c)
  {
  }

  lemma WholeDone(t: Tree, q: Path, n: nat, refs: set<nat>)
    requires WellMarked(t, n, refs) && FirstMarked(t, q) && !Split(At(t, q).data) && !Reuses(t, q)
    ensures ValidPath(t, Up(q))
    ensures var l := At(t, q);
            var c, s := ClassOf(l, n, l.data), At(t, Up(q)).data.snode;
            var v := ConvT(t, c, n + 1);
            && ValidPath(v.0, q)
            && Extract(t, q, n) == (Put(v.0, q, WholeUnit(Cleared(l), c, v.1, s)), v.1 + 1)
  {
    UpValid(t, q);
    WholeExtract(t, q, n);
    WholePut(t, q, ClassOf(At(t, q), n, At(t, q).data), n, At(t, Up(q)).data.snode, refs);
  }

  lemma WholeExtract(t: Tree, q: Path, n: nat)
    requires q != [] && ValidPath(t, q) && ValidPath(t, Up(q)) && !Split(At(t, q).data) && !Reuses(t, q)
    ensures var l := At(t, q);
            var c, s := ClassOf(l, n, l.data), At(t, Up(q)).data.snode;
            var m := ConvT(t, c, n + 1).1;
            Extract(t, q, n) == (ConvT(Put(t, q, WholeUnit(Cleared(l), c, m, s)), c, n + 1).0, m + 1)
  {
  }

  lemma WholePut(t: Tree, q: Path, c: Class, n: nat, s: Option<nat>, refs: set<nat>)
    requires WellMarked(t, n, refs) && FirstMarked(t, q) && c.g == n && c.r == At(t, q).id
    ensures var v := ConvT(t, c, n + 1);
            var r := WholeUnit(Cleared(At(t, q)), c, v.1, s);
            ValidPath(v.0, q) && ConvT(Put(t, q, r), c, n + 1) == (Put(v.0, q, r), v.1)
  {
    hide *;
    FirstValid(t, q);
    var l, m := At(t, q), ConvT(t, c, n + 1).1;
    FirstRef(t, q, n, refs);
    HeadOfClass(t, q, c, n, refs);
    ConvIdsT(t, c, n + 1);
    WellKeyed(t, n, refs);
    KeyedAt(t, q);
    WholeReplaces(l, c, n, m, s, refs);
    ReplacesNone(l, WholeUnit(Cleared(l), c, m, s), c, refs, m + 1);
    ConvPut(t, q, WholeUnit(Cleared(l), c, m, s), c, n, n + 1, refs);
  }

  lemma WellKeyed(t: Tree, n: nat, refs: set<nat>)
    requires WellMarked(t, n, refs)
    ensures Keyed(t)
  {
  }

  lemma ReplacesNone(l: Tree, r: seq<Tree>, c: Class, refs: set<nat>, hi: nat)
    requires Replaces(l, r, c, refs, hi)
    ensures NoMembers(FlatF(r), c)
  {
  }
}
