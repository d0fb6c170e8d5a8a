/** Whole runs of edits: ids stay distinct and below the counter, and the array follows the rose tree. */
module EditRuns {
  import opened YNodes
  import opened RoseTree
  import opened TreeLinks
  import opened TreeEdits
  import opened TreeMoves
  import Array = YTree

  /** The edits of the source, with nodes named by their index as the callers name them. */
  datatype Edit =
    | Wrapper(node: nat)
    | Parent(node: nat)
    | ParentForRest(node: nat)
    | Child(node: nat)
    | Sibling(node: nat)
    | Removal(node: nat)
    | Cut(node: nat)
    | ToSibling(dst: nat, src: nat)
    | ToChild(dst: nat, src: nat)
    | ToLastChild(dst: nat, src: nat)
    | LastChild(node: nat)
    | Clearing(node: nat)
    | Setting(node: nat, data: Data)

  /** A tree and its id counter. */
  datatype State = State(t: Tree, idcnt: nat)

  predicate Allowed(t: Tree, e: Edit) {
    match e
    case Wrapper(n) => 0 < n < Size(t)
    case Parent(n) => 0 < n < Size(t)
    case ParentForRest(n) => 0 < n < Size(t)
    case Child(n) => n < Size(t)
    case Sibling(n) => 0 < n < Size(t)
    case Removal(n) => 0 < n < Size(t)
    case Cut(n) => 0 < n < Size(t)
    case ToSibling(d, s) => 0 < d < Size(t) && 0 < s < Size(t) && !(PathTo(t, s) <= Up(PathTo(t, d)))
    case ToChild(d, s) => d < Size(t) && 0 < s < Size(t) && !(PathTo(t, s) <= PathTo(t, d))
    case ToLastChild(d, s) => d < Size(t) && 0 < s < Size(t) && (d == s || !(PathTo(t, s) <= PathTo(t, d)))
    case LastChild(n) => n < Size(t)
    case Clearing(n) => n < Size(t)
    case Setting(n, d) => n < Size(t)
  }

  function Apply(s: State, e: Edit): State
    requires Allowed(s.t, e)
  {
    match e
    case Wrapper(n) => State(InsertWrapper(s.t, PathTo(s.t, n), s.idcnt), s.idcnt + 1)
    case Parent(n) => State(InsertParent(s.t, PathTo(s.t, n), s.idcnt), s.idcnt + 1)
    case ParentForRest(n) => State(InsertParentForRest(s.t, PathTo(s.t, n), s.idcnt), s.idcnt + 1)
    case Child(n) => State(InsertChild(s.t, PathTo(s.t, n), s.idcnt), s.idcnt + 1)
    case Sibling(n) => State(InsertSibling(s.t, PathTo(s.t, n), s.idcnt), s.idcnt + 1)
    case Removal(n) => s.(t := RemoveNode(s.t, PathTo(s.t, n)))
    case Cut(n) => s.(t := DeleteSubtree(s.t, PathTo(s.t, n)))
    case ToSibling(d, n) =>
      var q, p := PathTo(s.t, n), PathTo(s.t, d);
      UpValid(s.t, p);
      State(MoveTo(s.t, q, Up(p), Last(p) + 1), MovedIdcnt(s.idcnt, s.t, q, Up(p), Last(p) + 1))
    case ToChild(d, n) =>
      var q, p := PathTo(s.t, n), PathTo(s.t, d);
      State(MoveTo(s.t, q, p, 0), MovedIdcnt(s.idcnt, s.t, q, p, 0))
    case ToLastChild(d, n) =>
      if d == n then s
      else
        var q, p := PathTo(s.t, n), PathTo(s.t, d);
        var k := |At(s.t, p).kids|;
        State(MoveTo(s.t, q, p, k), MovedIdcnt(s.idcnt, s.t, q, p, k))
    case LastChild(n) =>
      var p := PathTo(s.t, n);
      var k := |At(s.t, p).kids|;
      State(Wrap(s.t, p, k, k, s.idcnt), s.idcnt + 1)
    case Clearing(n) =>
      var p := PathTo(s.t, n);
      s.(t := Splice(s.t, p, 0, |At(s.t, p).kids|, []))
    case Setting(n, d) => s.(t := SetData(s.t, PathTo(s.t, n), d))
  }

  predicate AllAllowed(s: State, es: seq<Edit>)
    decreases |es|
  {
    es == [] || (Allowed(s.t, es[0]) && AllAllowed(Apply(s, es[0]), es[1..]))
  }

  function Run(s: State, es: seq<Edit>): State
    requires AllAllowed(s, es)
    decreases |es|
  {
    if es == [] then s else Run(Apply(s, es[0]), es[1..])
  }

  // ----- Ids -----

  ghost predicate GoodCells(c: seq<Cell>, idcnt: nat) {
    && (forall i :: 0 <= i < |c| ==> c[i].id < idcnt)
    && (forall i, j :: 0 <= i < j < |c| ==> c[i].id != c[j].id)
  }

  /** Every id is below the counter and used once. */
  ghost predicate GoodIds(s: State) {
    GoodCells(FlatT(s.t), s.idcnt)
  }

  ghost predicate SameIds(c: seq<Cell>, d: seq<Cell>) {
    |c| == |d| && forall i :: 0 <= i < |c| ==> c[i].id == d[i].id
  }

  lemma SameGood(c: seq<Cell>, d: seq<Cell>, idcnt: nat)
    requires GoodCells(c, idcnt) && SameIds(c, d)
    ensures GoodCells(d, idcnt)
  {
  }

  lemma InsertGood(c: seq<Cell>, i: nat, n: Cell, idcnt: nat)
    requires GoodCells(c, idcnt) && i <= |c| && n.id == idcnt
    ensures GoodCells(Patch(c, i, i, [n]), idcnt + 1)
  {
  }

  lemma CutGood(c: seq<Cell>, s: nat, e: nat, idcnt: nat)
    requires GoodCells(c, idcnt) && s <= e <= |c|
    ensures GoodCells(Patch(c, s, e, []), idcnt)
  {
  }

  lemma RelocateGood(c: seq<Cell>, s: nat, n: nat, d: nat, idcnt: nat)
    requires GoodCells(c, idcnt) && s + n <= |c| && (d <= s || s + n <= d <= |c|)
    ensures GoodCells(Relocate(c, s, n, d), idcnt)
  {
    hide Relocate, Origin;
    var r := Relocate(c, s, n, d);
    forall i | 0 <= i < |r| ensures r[i].id < idcnt {
      RelocateAt(c, s, n, d, i);
    }
    forall i, j | 0 <= i < j < |r| ensures r[i].id != r[j].id {
      RelocateAt(c, s, n, d, i);
      RelocateAt(c, s, n, d, j);
      OriginDiffers(|c|, s, n, d, i, j);
    }
  }

  lemma OriginDiffers(m: nat, s: nat, n: nat, d: nat, i: nat, j: nat)
    requires s + n <= m && (d <= s || s + n <= d <= m) && i < j < m
    ensures Origin(s, n, d, i) != Origin(s, n, d, j)
  {
  }

  lemma BumpIds(c: seq<Cell>, t: Tree, p: Path, d: int)
    requires ValidPath(t, p)
    ensures SameIds(c, Bump(c, t, p, d))
  {
  }

  lemma GoodMore(c: seq<Cell>, n: nat, m: nat)
    requires GoodCells(c, n) && n <= m
    ensures GoodCells(c, m)
  {
  }

  lemma SameIdsTwice(a: seq<Cell>, b: seq<Cell>, c: seq<Cell>)
    requires SameIds(a, b) && SameIds(b, c)
    ensures SameIds(a, c)
  {
  }

  /** Where the element at `i` of a relocated sequence comes from. */
  function Origin(s: nat, n: nat, d: nat, i: nat): int {
    var d' := Drop(d, s, n);
    if d' <= i < d' + n then s + i - d'
    else
      var j := if i < d' then i else i - n;
      if j < s then j else j + n
  }

  lemma CutAt<T>(c: seq<T>, s: nat, e: nat, i: nat)
    requires s <= e <= |c| && i < |c| - (e - s)
    ensures |Patch(c, s, e, [])| == |c| - (e - s) && Patch(c, s, e, [])[i] == c[if i < s then i else i + (e - s)]
  {
  }

  lemma PutAt<T>(c: seq<T>, d: nat, m: seq<T>, i: nat)
    requires d <= |c| && i < |c| + |m|
    ensures |Patch(c, d, d, m)| == |c| + |m|
    ensures Patch(c, d, d, m)[i] == if i < d then c[i] else if i < d + |m| then m[i - d] else c[i - |m|]
  {
  }

  lemma RelocateAt<T>(c: seq<T>, s: nat, n: nat, d: nat, i: nat)
    requires s + n <= |c| && (d <= s || s + n <= d <= |c|) && i < |c|
    ensures 0 <= Origin(s, n, d, i) < |c| && Relocate(c, s, n, d)[i] == c[Origin(s, n, d, i)]
  {
    var y, m, b := Patch(c, s, s + n, []), c[s..s + n], Drop(d, s, n);
    assert |y| == |c| - n && Relocate(c, s, n, d) == Patch(y, b, b, m);
    hide Patch, Relocate;
    PutAt(y, b, m, i);
    if i < b {
      CutAt(c, s, s + n, i);
    } else if b + n <= i {
      CutAt(c, s, s + n, i - n);
    }
  }

  lemma WrapGood(t: Tree, p: Path, a: nat, b: nat, idcnt: nat)
    requires ValidPath(t, p) && a <= b <= |At(t, p).kids| && GoodIds(State(t, idcnt))
    ensures GoodIds(State(Wrap(t, p, a, b, idcnt), idcnt + 1))
  {
    WrapFlat(t, p, a, b, idcnt);
    RangeWithin(t, p, a);
    RangeCells(t, p, a, b);
    hide FlatT;
    SameGood(FlatT(t), Bump(FlatT(t), t, p, 1), idcnt);
    InsertGood(Bump(FlatT(t), t, p, 1), RangeStart(t, p, a),
      Cell(idcnt, BLANK, RangeStart(t, p, b) - RangeStart(t, p, a)), idcnt);
  }

  lemma MoveGood(t: Tree, q: Path, p: Path, k: nat, idcnt: nat)
    requires q != [] && ValidPath(t, q) && ValidPath(t, p) && !(q <= p) && k <= |At(t, p).kids|
    requires GoodIds(State(t, idcnt))
    ensures GoodIds(State(MoveTo(t, q, p, k), MovedIdcnt(idcnt, t, q, p, k)))
  {
    hide FlatT, MoveTo, GoodCells, SameIds, Bump, Relocate, Size, At, Pos, RangeStart;
    MoveFlat(t, q, p, k);
    var n := Size(At(t, q));
    var b := Bump(FlatT(t), t, Up(q), 0 - (n as int));
    var c := Bump(b, t, p, n);
    BumpIds(FlatT(t), t, Up(q), 0 - (n as int));
    BumpIds(b, t, p, n);
    SameIdsTwice(FlatT(t), b, c);
    SameGood(FlatT(t), c, idcnt);
    RelocateGood(c, Pos(t, q), Size(At(t, q)), RangeStart(t, p, k), idcnt);
    GoodMore(FlatT(MoveTo(t, q, p, k)), idcnt, MovedIdcnt(idcnt, t, q, p, k));
  }

  lemma SetDataGood(t: Tree, q: Path, d: Data, idcnt: nat)
    requires ValidPath(t, q) && GoodIds(State(t, idcnt))
    ensures GoodIds(State(SetData(t, q, d), idcnt))
  {
    SetDataFlat(t, q, d);
  }

  lemma {:induction false} MapKidsGood(t: Tree, p: Path, g: Data -> Data, n: nat, idcnt: nat)
    requires ValidPath(t, p) && n <= |At(t, p).kids| && GoodIds(State(t, idcnt))
    ensures GoodIds(State(MapKids(t, p, g, n), idcnt))
    decreases n
  {
    if n == 0 {
      MapKidsNone(t, p, g);
    } else {
      MapKidsGood(t, p, g, n - 1, idcnt);
      MapKidsStep(t, p, g, n - 1);
      SetDataGood(MapKids(t, p, g, n - 1), p + [n - 1], g(At(t, p).kids[n - 1].data), idcnt);
    }
  }

  lemma DeleteNodeGood(t: Tree, q: Path, idcnt: nat)
    requires q != [] && ValidPath(t, q) && GoodIds(State(t, idcnt))
    ensures GoodIds(State(DeleteNode(t, q), idcnt))
  {
    hide FlatT, DeleteNode, GoodCells, SameIds, Bump, Patch, At, Pos, Size;
    DeleteNodeFlat(t, q);
    BumpIds(FlatT(t), t, Up(q), -1);
    SameGood(FlatT(t), Bump(FlatT(t), t, Up(q), -1), idcnt);
    CutGood(Bump(FlatT(t), t, Up(q), -1), Pos(t, q), Pos(t, q) + 1, idcnt);
  }

  lemma RemoveGood(t: Tree, q: Path, idcnt: nat)
    requires q != [] && ValidPath(t, q) && GoodIds(State(t, idcnt))
    ensures GoodIds(State(RemoveNode(t, q), idcnt))
  {
    var n := At(t, q);
    if CastToCase(n) {
      SetDataGood(t, q, CaseData(n.data), idcnt);
    } else {
      DisinheritGood(t, q, idcnt);
      var t2 := Disinherit(t, q);
      DeleteNodeGood(t2, q, idcnt);
      UpValid(t2, q);
      SpliceValid(t2, Up(q), Last(q), Last(q) + 1, At(t2, q).kids);
      LoneGood(DeleteNode(t2, q), Up(q), idcnt);
    }
  }

  lemma DisinheritGood(t: Tree, q: Path, idcnt: nat)
    requires ValidPath(t, q) && GoodIds(State(t, idcnt))
    ensures GoodIds(State(Disinherit(t, q), idcnt))
  {
    var n := At(t, q);
    var t1 := if n.data.typ != Case && n.data.choice.Some? then MapAllKids(t, q, WithChoice(n.data.choice)) else t;
    MapKidsGood(t, q, WithChoice(n.data.choice), |n.kids|, idcnt);
    MapKidsGood(t1, q, WithFlag(HintMandFalse), |n.kids|, idcnt);
  }

  lemma LoneGood(t: Tree, p: Path, idcnt: nat)
    requires ValidPath(t, p) && GoodIds(State(t, idcnt))
    ensures GoodIds(State(LoneKidChoice(t, p), idcnt))
  {
    if |At(t, p).kids| == 1 {
      ExtendPath(t, p, 0);
      SetDataGood(t, p + [0], At(t, p).kids[0].data.(choice := None), idcnt);
    }
  }

  lemma CutSubtreeGood(t: Tree, q: Path, idcnt: nat)
    requires q != [] && ValidPath(t, q) && GoodIds(State(t, idcnt))
    ensures GoodIds(State(DeleteSubtree(t, q), idcnt))
  {
    hide FlatT, DeleteSubtree, GoodCells, SameIds, Bump, Patch, At, Pos, Size;
    CutFlat(t, q);
    var c := Bump(FlatT(t), t, Up(q), 0 - (Size(At(t, q)) as int));
    BumpIds(FlatT(t), t, Up(q), 0 - (Size(At(t, q)) as int));
    SameGood(FlatT(t), c, idcnt);
    CutGood(c, Pos(t, q), Pos(t, q) + Size(At(t, q)), idcnt);
  }

  lemma GoodIs(s: State)
    ensures GoodIds(s) <==> GoodCells(FlatT(s.t), s.idcnt)
  {
  }

  lemma ClearGood(t: Tree, p: Path, idcnt: nat)
    requires ValidPath(t, p) && GoodIds(State(t, idcnt))
    ensures GoodIds(State(Splice(t, p, 0, |At(t, p).kids|, []), idcnt))
  {
    hide *;
    var n := |At(t, p).kids|;
    var a, b := RangeStart(t, p, 0), RangeStart(t, p, n);
    DeleteRangeFlat(t, p, 0, n);
    GoodIs(State(t, idcnt));
    GoodIs(State(Splice(t, p, 0, n, []), idcnt));
    var d := a as int - b;
    BumpIds(FlatT(t), t, p, d);
    SameGood(FlatT(t), Bump(FlatT(t), t, p, d), idcnt);
    CutGood(Bump(FlatT(t), t, p, d), a, b, idcnt);
  }

  lemma ApplyGood(s: State, e: Edit)
    requires GoodIds(s) && Allowed(s.t, e)
    ensures GoodIds(Apply(s, e)) && Apply(s, e).idcnt >= s.idcnt
  {
    var t, c := s.t, s.idcnt;
    hide GoodCells, FlatT, Wrap, RemoveNode, DeleteSubtree, MoveTo, PathTo, At, Pos, Size, RangeStart, Up, Last,
         ValidPath;
    match e {
      case Wrapper(n) => var q := PathTo(t, n); UpValid(t, q); WrapGood(t, Up(q), Last(q), Last(q) + 1, c);
      case Parent(n) => var q := PathTo(t, n); UpValid(t, q); WrapGood(t, Up(q), 0, |At(t, Up(q)).kids|, c);
      case ParentForRest(n) => var q := PathTo(t, n); UpValid(t, q);
        WrapGood(t, Up(q), Last(q), |At(t, Up(q)).kids|, c);
      case Child(n) => WrapGood(t, PathTo(t, n), 0, 0, c);
      case Sibling(n) => var q := PathTo(t, n); UpValid(t, q); WrapGood(t, Up(q), Last(q) + 1, Last(q) + 1, c);
      case Removal(n) => RemoveGood(t, PathTo(t, n), c);
      case Cut(n) => CutSubtreeGood(t, PathTo(t, n), c);
      case ToSibling(d, n) => var p := PathTo(t, d); UpValid(t, p); MoveGood(t, PathTo(t, n), Up(p), Last(p) + 1, c);
      case ToChild(d, n) => MoveGood(t, PathTo(t, n), PathTo(t, d), 0, c);
      case ToLastChild(d, n) => if d != n { MoveGood(t, PathTo(t, n), PathTo(t, d), |At(t, PathTo(t, d)).kids|, c); }
      case LastChild(n) => var p := PathTo(t, n); WrapGood(t, p, |At(t, p).kids|, |At(t, p).kids|, c);
      case Clearing(n) => ClearGood(t, PathTo(t, n), c);
      case Setting(n, d) => SetDataGood(t, PathTo(t, n), d, c);
    }
  }

  /** Over any run of edits ids stay distinct and below the counter, and the counter never falls. */
  lemma {:induction false} RunKeepsIds(s: State, es: seq<Edit>)
    requires GoodIds(s) && AllAllowed(s, es)
    ensures GoodIds(Run(s, es)) && Run(s, es).idcnt >= s.idcnt
    decreases |es|
  {
    if es != [] {
      ApplyGood(s, es[0]);
      RunKeepsIds(Apply(s, es[0]), es[1..]);
    }
  }

  // ----- The array follows -----

  lemma RemoveSize(t: Tree, q: Path)
    requires q != [] && ValidPath(t, q)
    ensures Size(RemoveNode(t, q)) <= Size(t)
  {
    if CastToCase(At(t, q)) {
      SetDataFlat(t, q, CaseData(At(t, q).data));
    } else {
      var u := Disinherit(t, q);
      DisinheritedPath(t, q);
      DeleteNodeFlat(u, q);
      UpValid(u, q);
      SpliceValid(u, Up(q), Last(q), Last(q) + 1, At(u, q).kids);
      var v := DeleteNode(u, q);
      if |At(v, Up(q)).kids| == 1 {
        ExtendPath(v, Up(q), 0);
        SetDataFlat(v, Up(q) + [0], At(v, Up(q)).kids[0].data.(choice := None));
      }
    }
  }

  lemma ClearedSize(t: Tree, p: Path)
    requires ValidPath(t, p)
    ensures Size(Splice(t, p, 0, |At(t, p).kids|, [])) <= Size(t)
  {
    var n := |At(t, p).kids|;
    RangeCells(t, p, 0, n);
    SpliceFlat(t, p, 0, n, []);
  }

  lemma MovedSize(t: Tree, q: Path, p: Path, k: nat)
    requires q != [] && ValidPath(t, q) && ValidPath(t, p) && !(q <= p) && k <= |At(t, p).kids|
    ensures Size(MoveTo(t, q, p, k)) == Size(t)
  {
    MoveFlat(t, q, p, k);
    var c := Bump(Bump(FlatT(t), t, Up(q), 0 - Size(At(t, q))), t, p, Size(At(t, q)));
    assert |FlatT(MoveTo(t, q, p, k))| == |c|;
  }

  lemma WrapSize(t: Tree, p: Path, a: nat, b: nat, id: nat)
    requires ValidPath(t, p) && a <= b <= |At(t, p).kids|
    ensures Size(Wrap(t, p, a, b, id)) == Size(t) + 1
  {
    WrapFlat(t, p, a, b, id);
  }

  lemma CutSize(t: Tree, q: Path)
    requires q != [] && ValidPath(t, q)
    ensures Size(DeleteSubtree(t, q)) <= Size(t)
  {
    CutFlat(t, q);
  }

  lemma ApplySize(s: State, e: Edit)
    requires Allowed(s.t, e)
    ensures Size(Apply(s, e).t) <= Size(s.t) + 1
  {
    var t, c := s.t, s.idcnt;
    hide FlatT, Wrap, RemoveNode, DeleteSubtree, MoveTo, Splice, SetData, PathTo, At, Pos, Size, Up, Last, ValidPath,
         RangeStart;
    match e {
      case Wrapper(n) => var q := PathTo(t, n); UpValid(t, q); WrapSize(t, Up(q), Last(q), Last(q) + 1, c);
      case Parent(n) => var q := PathTo(t, n); UpValid(t, q); WrapSize(t, Up(q), 0, |At(t, Up(q)).kids|, c);
      case ParentForRest(n) => var q := PathTo(t, n); UpValid(t, q);
        WrapSize(t, Up(q), Last(q), |At(t, Up(q)).kids|, c);
      case Child(n) => WrapSize(t, PathTo(t, n), 0, 0, c);
      case Sibling(n) => var q := PathTo(t, n); UpValid(t, q); WrapSize(t, Up(q), Last(q) + 1, Last(q) + 1, c);
      case Removal(n) => RemoveSize(t, PathTo(t, n));
      case Cut(n) => CutSize(t, PathTo(t, n));
      case ToSibling(d, n) => var p := PathTo(t, d); UpValid(t, p); MovedSize(t, PathTo(t, n), Up(p), Last(p) + 1);
      case ToChild(d, n) => MovedSize(t, PathTo(t, n), PathTo(t, d), 0);
      case ToLastChild(d, n) => if d != n { MovedSize(t, PathTo(t, n), PathTo(t, d), |At(t, PathTo(t, d)).kids|); }
      case LastChild(n) => var p := PathTo(t, n); WrapSize(t, p, |At(t, p).kids|, |At(t, p).kids|, c);
      case Clearing(n) => ClearedSize(t, PathTo(t, n));
      case Setting(n, d) => SetDataFlat(t, PathTo(t, n), d);
    }
  }

  /** One edit on the array. */
  method Perform(y: Array.YTree, e: Edit)
    requires y.Valid() && Allowed(y.tree, e) && y.count < y.nodes.Length
    modifies y`count, y`idcnt, y`tree, y.nodes
    ensures y.Valid() && State(y.tree, y.idcnt) == Apply(old(State(y.tree, y.idcnt)), e)
  {
    hide FlatT, LinkT, Size, PathTo, MoveTo, RemoveNode, MovedIdcnt, DeleteSubtree, Wrap, InsertWrapper, InsertParent,
      InsertParentForRest, InsertChild, InsertSibling;
    match e {
      case Wrapper(n) => y.InsertWrapper(n);
      case Parent(n) => y.InsertParent(n);
      case ParentForRest(n) => y.InsertParentForRest(n);
      case Child(n) => y.InsertChild(n);
      case Sibling(n) => y.InsertSibling(n);
      case Removal(n) => var cast := y.DeleteNode(n);
      case Cut(n) => y.DeleteSubtree(n);
      case ToSibling(d, s) => y.MoveAsSibling(d, s);
      case ToChild(d, s) => y.MoveAsChild(d, s);
      case ToLastChild(d, s) => y.MoveAsLastChild(d, s);
      case LastChild(n) => var last := y.InsertChildLast(n);
      case Clearing(n) => y.DeleteChildren(n);
      case Setting(n, d) => y.SetNodeData(n, d);
    }
  }

  /** A run goes on with what is left of it. */
  lemma RunStep(s: State, es: seq<Edit>, i: nat)
    requires i < |es| && AllAllowed(s, es[i..])
    ensures Allowed(s.t, es[i]) && AllAllowed(Apply(s, es[i]), es[i + 1..])
    ensures Run(s, es[i..]) == Run(Apply(s, es[i]), es[i + 1..])
  {
    hide Allowed, Apply;
    assert es[i..][0] == es[i] && es[i..][1..] == es[i + 1..];
  }

  lemma RunEnds(s: State, es: seq<Edit>)
    ensures es[0..] == es && es[|es|..] == [] && AllAllowed(s, []) && Run(s, []) == s
  {
  }

  /** Any run of edits on the array, with spare capacity for one node each, is the same run on the rose tree. */
  method PerformAll(y: Array.YTree, es: seq<Edit>)
    requires y.Valid() && AllAllowed(State(y.tree, y.idcnt), es) && y.count + |es| <= y.nodes.Length
    modifies y`count, y`idcnt, y`tree, y.nodes
    ensures y.Valid() && State(y.tree, y.idcnt) == Run(old(State(y.tree, y.idcnt)), es)
    ensures old(GoodIds(State(y.tree, y.idcnt))) ==> GoodIds(State(y.tree, y.idcnt))
  {
    hide *;
    ghost var s := State(y.tree, y.idcnt);
    if GoodIds(s) { RunKeepsIds(s, es); }
    RunEnds(s, es);
    var i := 0;
    while i < |es|
      invariant 0 <= i <= |es| && y.Valid() && y.count + |es| - i <= y.nodes.Length
      invariant AllAllowed(State(y.tree, y.idcnt), es[i..])
      invariant Run(State(y.tree, y.idcnt), es[i..]) == Run(s, es)
    {
      Array.CountIsSize(y);
      RunStep(State(y.tree, y.idcnt), es, i);
      ApplySize(State(y.tree, y.idcnt), es[i]);
      Perform(y, es[i]);
      Array.CountIsSize(y);
      i := i + 1;
    }
    RunEnds(State(y.tree, y.idcnt), es);
  }
}
