/** Creating the grouping of one marked class, on rose trees, and that the meaning stays. */
module Groupings {
  import opened YNodes
  import opened RoseTree
  import opened TreeLinks
  import opened TreeEdits
  import opened Expansion
  import opened Rewriting
  import opened Conversion
  import opened ConversionFacts

  // ----- What the program builds -----

  function GroupData(snode: Option<nat>): Data {
    BLANK.(typ := Grouping, snode := snode)
  }

  function ClassOf(l: Tree, g: nat, first: Data): Class {
    Class(l.id, g, first.flags * {ChoiceMandFalse})
  }

  /** A lone child of a grouping is in no choice. */
  function Unchosen(f: seq<Tree>): seq<Tree> {
    if |f| == 1 then [f[0].(data := f[0].data.(choice := None))] else f
  }

  function Cleared(l: Tree): Tree {
    l.(data := l.data.(ref := 0))
  }

  /** Where the grouping of the inner nodes starts; without inner nodes it takes all children. */
  function GroupStart(l: Tree): (k: nat)
    requires l.kids != []
    ensures k < |l.kids|
  {
    if InnerIndex(l.kids) < |l.kids| then InnerIndex(l.kids) else 0
  }

  /** The first node of a class whose inner nodes are grouped, with grouping and uses. */
  function SplitUnit(l: Tree, c: Class, u: nat): Tree
    requires l.kids != []
  {
    var k := GroupStart(l);
    l.(kids := l.kids[..k] + [Node(c.g, GroupData(l.data.snode), Unchosen(l.kids[k..])),
                              Node(u, UsesData(c).(choice := l.kids[k].data.choice), [])])
  }

  /** The grouping of a whole node, and its uses. */
  function WholeUnit(l: Tree, c: Class, u: nat, snode: Option<nat>): seq<Tree> {
    [Node(c.g, GroupData(snode), Unchosen([l])), Node(u, UsesData(c).(choice := l.data.choice), [])]
  }

  /** The node at `q` is all there is in a grouping of inner nodes: that grouping serves again. */
  predicate Reuses(t: Tree, q: Path)
    requires q != [] && ValidPath(t, q)
  {
    UpValid(t, q);
    var p := At(t, Up(q));
    && p.data.typ == Grouping && Up(q) != []
    && (UpValid(t, Up(q)); GroupingChildren in At(t, Up(Up(q))).data.flags)
    && InnerIndex(p.kids) == Last(q) == |p.kids| - 1
  }

  function Put(t: Tree, q: Path, r: seq<Tree>): Tree
    requires q != [] && ValidPath(t, q)
  {
    UpValid(t, q);
    Splice(t, Up(q), Last(q), Last(q) + 1, r)
  }

  /** The class whose first node is at `q` becomes a grouping; returns the tree and the id counter. */
  function Extract(t: Tree, q: Path, n: nat): (Tree, nat)
    requires q != [] && ValidPath(t, q) && (Split(At(t, q).data) ==> At(t, q).kids != [])
  {
    UpValid(t, q);
    var l := At(t, q);
    if Split(l.data) then
      var c := ClassOf(l, n, l.kids[GroupStart(l)].data);
      var m := ConvT(t, c, n + 1).1;
      (ConvT(Put(t, q, [Cleared(SplitUnit(l, c, m))]), c, n + 1).0, m + 1)
    else if Reuses(t, q) then
      ConvT(Put(t, q, [Cleared(l)]), ClassOf(l, At(t, Up(q)).id, l.data), n)
    else
      var c, s := ClassOf(l, n, l.data), At(t, Up(q)).data.snode;
      var m := ConvT(t, c, n + 1).1;
      (ConvT(Put(t, q, WholeUnit(Cleared(l), c, m, s)), c, n + 1).0, m + 1)
  }

  // ----- Well-formed marked trees -----

  /** Keys and values are the first children only, and no grouping has them. */
  ghost predicate Keyed(t: Tree) {
    && FrontOnly(t.kids) && (t.data.typ == Grouping ==> InnerIndex(t.kids) == 0)
    && forall i :: 0 <= i < |t.kids| ==> Keyed(t.kids[i])
  }

  predicate FrontOnly(f: seq<Tree>) {
    forall i :: InnerIndex(f) <= i < |f| ==> !IsKeyVal(f[i].data)
  }

  /** Ids and references are below the counter, keys and values are not marked, and leafrefs do not
      refer to the first node of a class. */
  function Fits(refs: set<nat>, n: nat): (nat, Data) -> bool {
    (id: nat, d: Data) =>
      && id < n && d.ref < n
      && (d.typ == Grouping ==> d.ref == 0)
      && (Pending(d) ==> !IsKeyVal(d))
      && (d.typ == Leafref ==> d.ref in refs)
      && (RoleOf(id, d) == Leader ==> id !in refs)
  }

  ghost predicate WellMarked(t: Tree, n: nat, refs: set<nat>) {
    && All(FlatT(t), Fits(refs, n)) && Distinct(IdsT(t))
    && ExpandT(t, EMPTY).ok && !Pending(t.data) && Keyed(t)
  }

  ghost predicate FirstMarked(t: Tree, q: Path) {
    && q != [] && ValidPath(t, q) && Pos(t, q) <= Size(t)
    && Pending(At(t, q).data) && NonePending(FlatT(t)[..Pos(t, q)])
  }

  // ----- The first marked node is the first of its class -----

  /** No member of class `r` in a forest that does not define it. */
  lemma {:induction false} NoOwnF(f: seq<Tree>, e: Env, r: nat)
    requires ExpandF(f, e).ok && r !in e.classes && IdsF(f)[r] == 0
    ensures Silent(FlatF(f), {r}, {}) && r !in ExpandF(f, e).env.classes
    decreases SizeF(f), 1
  {
    if f != [] {
      NoOwnT(f[0], e, r);
      NoOwnF(f[1..], ExpandT(f[0], e).env, r);
      SilentConcat(FlatT(f[0]), FlatF(f[1..]), {r}, {});
    }
  }

  lemma SilentNode(t: Tree, kc: set<nat>, kg: set<nat>)
    ensures Silent(FlatT(t), kc, kg) <==> SilentCell(Cell(t.id, t.data, 0), kc, kg) && Silent(FlatF(t.kids), kc, kg)
  {
    var n := Cell(t.id, t.data, SizeF(t.kids));
    SilentConcat([n], FlatF(t.kids), kc, kg);
    assert Silent([n], kc, kg) <==> SilentCell(n, kc, kg) by { assert [n][0] == n; }
  }

  lemma SilentTwo(f: seq<Tree>, k: nat, kc: set<nat>, kg: set<nat>)
    requires k <= |f|
    ensures Silent(FlatF(f), kc, kg) <==> Silent(FlatF(f[..k]), kc, kg) && Silent(FlatF(f[k..]), kc, kg)
  {
    assert f == f[..k] + f[k..];
    FlatConcat(f[..k], f[k..]);
    SilentConcat(FlatF(f[..k]), FlatF(f[k..]), kc, kg);
  }

  lemma DiscardSilent(s: seq<Cell>, classes: set<nat>, r: nat)
    requires Discardable(s, classes) && r !in classes
    ensures Silent(s, {r}, {})
  {
  }

  lemma {:induction false} NoOwnT(t: Tree, e: Env, r: nat)
    requires ExpandT(t, e).ok && r !in e.classes && IdsT(t)[r] == 0
    ensures Silent(FlatT(t), {r}, {}) && r !in ExpandT(t, e).env.classes
    decreases Size(t), 0
  {
    var k := InnerIndex(t.kids);
    SizeTake(t.kids, k);
    SilentNode(t, {r}, {});
    match RoleOf(t.id, t.data) {
      case Plain => NoOwnF(t.kids, e, r);
      case Group => NoOwnF(t.kids, e, r);
      case Use =>
      case Leader =>
        if Split(t.data) {
          assert t.kids == t.kids[..k] + t.kids[k..];
          IdsConcat(t.kids[..k], t.kids[k..]);
          NoOwnF(t.kids[..k], e, r);
          NoOwnF(t.kids[k..], ExpandF(t.kids[..k], e).env, r);
          SilentTwo(t.kids, k, {r}, {});
        } else {
          NoOwnF(t.kids, e, r);
        }
      case Member =>
        DiscardSilent(FlatF(t.kids), e.classes.Keys, r);
        if Split(t.data) {
          assert t.kids == t.kids[..k] + t.kids[k..];
          IdsConcat(t.kids[..k], t.kids[k..]);
          NoOwnF(t.kids[..k], e, r);
        }
    }
  }

  lemma {:induction false} ClassesSameDiscard(f: seq<Tree>, e: Env, s: set<nat>)
    requires Discardable(FlatF(f), s)
    ensures ExpandF(f, e).env == e
    decreases SizeF(f), 1
  {
    if f != [] {
      DiscardConcat(FlatT(f[0]), FlatF(f[1..]), s);
      ClassesSameDiscardT(f[0], e, s);
      ClassesSameDiscard(f[1..], e, s);
    }
  }

  lemma {:induction false} ClassesSameDiscardT(t: Tree, e: Env, s: set<nat>)
    requires Discardable(FlatT(t), s)
    ensures ExpandT(t, e).env == e
    decreases Size(t), 0
  {
    DiscardParts(t, s);
    assert [Cell(t.id, t.data, 0)][0].data == t.data;
    var k := InnerIndex(t.kids);
    SizeTake(t.kids, k);
    ClassesSameDiscard(t.kids, e, s);
    ClassesSameDiscard(t.kids[..k], e, s);
  }

  lemma {:induction false} IdsAt(t: Tree, q: Path)
    requires ValidPath(t, q)
    ensures IdsT(At(t, q)) <= IdsT(t)
    decreases |q|
  {
    if q != [] {
      var k := q[0];
      IdsAt(t.kids[k], q[1..]);
      assert t.kids == t.kids[..k] + [t.kids[k]] + t.kids[k + 1..];
      IdsThree(t.kids[..k], [t.kids[k]], t.kids[k + 1..]);
      IdsOne(t.kids[k]);
    }
  }

  lemma FirstIsLeader(t: Tree, q: Path, n: nat, refs: set<nat>)
    requires WellMarked(t, n, refs) && FirstMarked(t, q)
    ensures RoleOf(At(t, q).id, At(t, q).data) == Leader
    ensures Silent(FlatF(At(t, q).kids), {At(t, q).id}, {})
    ensures ExpandT(At(t, q), EnvAt(t, q, EMPTY)).ok
  {
    var l, e := At(t, q), EnvAt(t, q, EMPTY);
    hide FlatT, ExpandF, ExpandT, IdsT, Keyed, Silent, RoleOf, Split;
    ReachFirst(t, q, EMPTY);
    NotFirstMember(l, e);
    IdsAt(t, q);
    LeaderSilent(l, e);
  }

  lemma NotFirstMember(l: Tree, e: Env)
    requires Pending(l.data) && ExpandT(l, e).ok && e.classes == map[]
    ensures RoleOf(l.id, l.data) == Leader
  {
    if RoleOf(l.id, l.data) == Member {
      var k := InnerIndex(l.kids);
      SizeTake(l.kids, k);
      DiscardTake(l.kids, k, {});
      ClassesSameDiscard(l.kids[..k], e, {});
      assert false;
    }
  }

  lemma LeaderSilent(l: Tree, e: Env)
    requires RoleOf(l.id, l.data) == Leader && ExpandT(l, e).ok && l.id !in e.classes && IdsT(l)[l.id] <= 1
    ensures Silent(FlatF(l.kids), {l.id}, {})
  {
    var k, r := InnerIndex(l.kids), l.id;
    SizeTake(l.kids, k);
    assert IdsT(l) == multiset{r} + IdsF(l.kids);
    if Split(l.data) {
      assert l.kids == l.kids[..k] + l.kids[k..];
      IdsConcat(l.kids[..k], l.kids[k..]);
      NoOwnF(l.kids[..k], e, r);
      NoOwnF(l.kids[k..], ExpandF(l.kids[..k], e).env, r);
      SilentTwo(l.kids, k, {r}, {});
    } else {
      NoOwnF(l.kids, e, r);
    }
  }

  lemma DiscardTake(f: seq<Tree>, k: nat, s: set<nat>)
    requires k <= |f|
    ensures Discardable(FlatF(f), s) ==> Discardable(FlatF(f[..k]), s)
  {
    assert f == f[..k] + f[k..];
    FlatConcat(f[..k], f[k..]);
    DiscardConcat(FlatF(f[..k]), FlatF(f[k..]), s);
  }

  // ----- The rest of the class is converted, and the mark is removed -----

  /** Nodes of the class are marked nodes, and none stands before or in its first node. */
  lemma InClassFacts(s: seq<Cell>, c: Class, n: nat, refs: set<nat>)
    requires All(s, Fits(refs, n)) && c.r !in refs && c.r != 0
    ensures Marked(s, c)
    ensures Silent(s, {c.r}, {}) ==> NoMembers(s, c)
    ensures NonePending(s) ==> NoMembers(s, c)
    ensures NoMembers(s, c) ==> Silent(s, {c.r}, {})
  {
  }

  /** The unit of the class at child `a` of the node at `p`, whose first node is the child itself or below it. */
  ghost predicate UnitReady(t: Tree, p: Path, a: nat, c: Class)
    requires ValidPath(t, p) && a < |At(t, p).kids|
  {
    && RangeStart(t, p, a) <= RangeStart(t, p, a + 1) <= Size(t)
    && NonePending(FlatT(t)[..RangeStart(t, p, a)])
    && NoMembers(FlatT(t)[..RangeStart(t, p, a + 1)], c)
    && Marked(FlatT(t), c) && UnitsT(t, c) && ExpandT(t, EMPTY).ok
    && c.r != 0 && c.r != c.g
  }

  /** Converting the class and unmarking its first node keeps the output. */
  lemma ConvClear(t: Tree, p: Path, a: nat, c: Class, n: nat)
    requires ValidPath(t, p) && a < |At(t, p).kids| && UnitReady(t, p, a, c)
    requires var l := At(t, p).kids[a]; RoleOf(l.id, l.data) == Leader && l.id == c.r
    ensures var l := At(t, p).kids[a];
            var u := ConvT(Splice(t, p, a, a + 1, [Cleared(l)]), c, n).0;
            ExpandT(u, EMPTY).ok && ExpandT(u, EMPTY).out == ExpandT(t, EMPTY).out
  {
    var l := At(t, p).kids[a];
    var v := ConvT(t, c, n).0;
    UnitRange(t, p, a, c);
    ConvSplice(t, p, a, a + 1, [Cleared(l)], c, n);
    ConvSameT(t, c, n, EMPTY);
    ConvDone(t, c, n);
    assert At(v, p).kids[a] == At(v, p).kids[..a + 1][a] == At(t, p).kids[..a + 1][a];
    ClearAfter(t, p, a, c, n);
  }

  lemma UnitRange(t: Tree, p: Path, a: nat, c: Class)
    requires ValidPath(t, p) && a < |At(t, p).kids|
    requires RangeStart(t, p, a + 1) <= Size(t) && NoMembers(FlatT(t)[..RangeStart(t, p, a + 1)], c)
    ensures NoMembers(FlatF([Cleared(At(t, p).kids[a])]), c) || c.r == 0
    ensures NoMembers(FlatT(At(t, p).kids[a]), c)
    ensures RangeStart(t, p, a) <= RangeStart(t, p, a + 1)
  {
    var l := At(t, p).kids[a];
    KidRange(t, p, a);
    RangeCells(t, p, a, a + 1);
    assert At(t, p).kids[a..a + 1] == [l];
    SliceMembers(FlatT(t), RangeStart(t, p, a), RangeStart(t, p, a + 1), c);
    NoMembersNode(l, c);
    NoMembersNode(Cleared(l), c);
    assert [Cleared(l)][1..] == [] && FlatF([Cleared(l)]) == FlatT(Cleared(l)) + [];
  }

  lemma SliceMembers(s: seq<Cell>, a: nat, b: nat, c: Class)
    requires a <= b <= |s| && NoMembers(s[..b], c)
    ensures NoMembers(s[a..b], c)
  {
    forall i | 0 <= i < b - a ensures !InClass(c, s[a..b][i].id, s[a..b][i].data) {
      assert s[..b][a + i] == s[a..b][i];
    }
  }

  lemma ClearAfter(t: Tree, p: Path, a: nat, c: Class, n: nat)
    requires ValidPath(t, p) && a < |At(t, p).kids| && UnitReady(t, p, a, c)
    requires var l := At(t, p).kids[a]; RoleOf(l.id, l.data) == Leader && l.id == c.r
    requires Commutes(t, p, a, a + 1, [Cleared(At(t, p).kids[a])], c, n)
    requires var v := ConvT(t, c, n).0; At(v, p).kids[a] == At(t, p).kids[a]
    requires NoMembers(FlatT(ConvT(t, c, n).0), c)
    requires ExpandT(ConvT(t, c, n).0, EMPTY).ok && ExpandT(ConvT(t, c, n).0, EMPTY).out == ExpandT(t, EMPTY).out
    ensures var l := At(t, p).kids[a];
            var u := ConvT(Splice(t, p, a, a + 1, [Cleared(l)]), c, n).0;
            ExpandT(u, EMPTY).ok && ExpandT(u, EMPTY).out == ExpandT(t, EMPTY).out
  {
    hide ExpandT, ExpandF, FlatT, FlatF, Silent, ConvT, Splice, At, Pos, NonePending, NoMembers, Equiv, Around,
         RoleOf, Cleared,
      RangeStart, UnitsT, Marked, Size;
    var l, v := At(t, p).kids[a], ConvT(t, c, n).0;
    NoClassSilent(FlatT(v), c);
    UnitRange(t, p, a, c);
    NoClassSilent(FlatT(l), c);
    SilentNode(l, {c.r}, {});
    ConvFirstPart(t, p, a, c, n);
    AroundFirst(v, p, a, a + 1, {c.r}, {}, EMPTY);
    ClearedPlain(l);
    ClearEquiv(l, Cleared(l).data);
    assert At(v, p).kids[a..a + 1] == [l];
    Context(v, p, a, a + 1, [Cleared(l)], EMPTY, EMPTY, {c.r}, {});
  }

  lemma ClearedPlain(l: Tree)
    requires RoleOf(l.id, l.data) == Leader
    ensures var d := Cleared(l).data;
            PayloadOf(d) == PayloadOf(l.data) && d.ref == 0 && RoleOf(l.id, d) == Plain && l.(data := d) == Cleared(l)
  {
  }

  lemma NoClassSilent(s: seq<Cell>, c: Class)
    requires NoMembers(s, c) && c.r != 0
    ensures Silent(s, {c.r}, {})
  {
  }

  /** What stands before the unit is converted into itself. */
  lemma ConvFirstPart(t: Tree, p: Path, a: nat, c: Class, n: nat)
    requires ValidPath(t, p) && a < |At(t, p).kids| && UnitReady(t, p, a, c)
    requires Commutes(t, p, a, a + 1, [Cleared(At(t, p).kids[a])], c, n)
    ensures var v := ConvT(t, c, n).0;
            && RangeStart(v, p, a) == RangeStart(t, p, a) <= Size(v)
            && NonePending(FlatT(v)[..RangeStart(v, p, a)])
  {
    var v := ConvT(t, c, n).0;
    var m := RangeStart(t, p, a);
    KidRange(t, p, a);
    assert FlatT(t)[..m] == FlatT(t)[..RangeStart(t, p, a + 1)][..m];
    assert NoMembers(FlatT(t)[..m], c);
    ConvPrefixT(t, c, n, m);
    assert At(v, p).kids[..a] == At(v, p).kids[..a + 1][..a] == At(t, p).kids[..a];
    forall i | 0 <= i < m ensures !Pending(FlatT(v)[i].data) {
      assert FlatT(t)[..m][i].data == FlatT(v)[i].data;
    }
  }

  // ----- What putting a unit in place of its first node does to the array -----

  lemma PutPatch(t: Tree, q: Path, r: seq<Tree>)
    requires q != [] && ValidPath(t, q)
    ensures var u, s, n := Put(t, q, r), Pos(t, q), Size(At(t, q));
            && ValidPath(t, Up(q)) && s + n <= Size(t) && Size(u) == Size(t) + SizeF(r) - n
            && FlatT(u) == Patch(Bump(FlatT(t), t, Up(q), SizeF(r) - n), s, s + n, FlatF(r))
  {
    hide FlatT, FlatF, Size, SizeF, Patch, Bump, Pos, At, RangeStart, Splice, Up, Last, ValidPath;
    UpValid(t, q);
    KidRange(t, Up(q), Last(q));
    PosBound(t, q);
    SpliceFlat(t, Up(q), Last(q), Last(q) + 1, r);
  }

  lemma PutFlat(t: Tree, q: Path, r: seq<Tree>)
    requires q != [] && ValidPath(t, q)
    ensures var u, s := Put(t, q, r), Pos(t, q);
            && s + Size(At(t, q)) <= Size(t) && s + SizeF(r) <= Size(u)
            && Size(u) == Size(t) + SizeF(r) - Size(At(t, q))
            && SamePrefix(FlatT(t), FlatT(u), s)
            && FlatT(u)[s..s + SizeF(r)] == FlatF(r)
  {
    hide FlatT, FlatF, Size, SizeF, Patch, Put, SamePrefix, Bump;
    PutPatch(t, q, r);
    var d := SizeF(r) - Size(At(t, q));
    BumpSame(FlatT(t), t, Up(q), d);
    PatchFacts(FlatT(t), Bump(FlatT(t), t, Up(q), d), Pos(t, q), Pos(t, q) + Size(At(t, q)), FlatF(r));
  }

  lemma PutAll(t: Tree, q: Path, r: seq<Tree>, p: (nat, Data) -> bool)
    requires q != [] && ValidPath(t, q) && All(FlatT(t), p) && All(FlatF(r), p)
    ensures All(FlatT(Put(t, q, r)), p)
  {
    hide FlatT, FlatF, Size, SizeF, Patch, Put, SamePrefix, Bump, All;
    PutPatch(t, q, r);
    var d := SizeF(r) - Size(At(t, q));
    BumpSame(FlatT(t), t, Up(q), d);
    PatchAll(FlatT(t), Bump(FlatT(t), t, Up(q), d), Pos(t, q), Pos(t, q) + Size(At(t, q)), FlatF(r), p);
  }

  lemma BumpSame(f: seq<Cell>, t: Tree, p: Path, d: int)
    requires ValidPath(t, p)
    ensures SamePrefix(f, Bump(f, t, p, d), |f|)
  {
  }

  lemma PatchFacts(f: seq<Cell>, g: seq<Cell>, s: nat, e: nat, m: seq<Cell>)
    requires |f| == |g| && s <= e <= |g| && SamePrefix(f, g, |f|)
    ensures |Patch(g, s, e, m)| == |g| - (e - s) + |m|
    ensures SamePrefix(f, Patch(g, s, e, m), s) && Patch(g, s, e, m)[s..s + |m|] == m
  {
  }

  lemma PatchAll(f: seq<Cell>, g: seq<Cell>, s: nat, e: nat, m: seq<Cell>, p: (nat, Data) -> bool)
    requires |f| == |g| && s <= e <= |g| && SamePrefix(f, g, |f|) && All(f, p) && All(m, p)
    ensures All(Patch(g, s, e, m), p)
  {
    assert All(g, p);
    assert All(g[..s], p);
    forall i | 0 <= i < |g| - e ensures p(g[e..][i].id, g[e..][i].data) {
      assert g[e..][i] == g[e + i];
    }
    AllConcat(g[..s], m, p);
    AllConcat(g[..s] + m, g[e..], p);
  }

  lemma IdsSplit(f: seq<Tree>, k: nat)
    requires k < |f|
    ensures IdsF(f) == IdsF(f[..k]) + IdsT(f[k]) + IdsF(f[k + 1..])
  {
    hide IdsF, IdsT;
    assert f == f[..k] + [f[k]] + f[k + 1..];
    IdsThree(f[..k], [f[k]], f[k + 1..]);
    IdsOne(f[k]);
  }

  lemma IdsReplace(f: seq<Tree>, k: nat, v: Tree)
    requires k < |f|
    ensures IdsF(f[k := v]) + IdsT(f[k]) == IdsF(f) + IdsT(v)
  {
    IdsSplit(f, k);
    IdsSplit(f[k := v], k);
    assert f[k := v][..k] == f[..k] && f[k := v][k + 1..] == f[k + 1..];
  }

  lemma {:induction false} SpliceIds(t: Tree, p: Path, a: nat, b: nat, r: seq<Tree>)
    requires ValidPath(t, p) && a <= b <= |At(t, p).kids|
    ensures IdsT(Splice(t, p, a, b, r)) + IdsF(At(t, p).kids[a..b]) == IdsT(t) + IdsF(r)
    decreases |p|
  {
    if p == [] {
      var x, y, z := t.kids[..a], t.kids[a..b], t.kids[b..];
      assert t.kids == x + y + z;
      IdsThree(x, y, z);
      IdsThree(x, r, z);
    } else {
      var k := p[0];
      SpliceIds(t.kids[k], p[1..], a, b, r);
      IdsStep(t, k, Splice(t.kids[k], p[1..], a, b, r), IdsF(At(t, p).kids[a..b]), IdsF(r));
    }
  }

  lemma IdsStep(t: Tree, k: nat, v: Tree, c: multiset<nat>, d: multiset<nat>)
    requires k < |t.kids| && IdsT(v) + c == IdsT(t.kids[k]) + d
    ensures IdsT(t.(kids := t.kids[k := v])) + c == IdsT(t) + d
  {
    var u := t.(kids := t.kids[k := v]);
    assert IdsT(u) == multiset{t.id} + IdsF(u.kids) && IdsT(t) == multiset{t.id} + IdsF(t.kids);
    hide IdsT, IdsF;
    IdsReplace(t.kids, k, v);
    Cancel(IdsF(u.kids), IdsT(t.kids[k]), IdsF(t.kids), IdsT(v), c, d);
    assert IdsT(u) + c == multiset{t.id} + (IdsF(u.kids) + c);
    assert IdsT(t) + d == multiset{t.id} + (IdsF(t.kids) + d);
  }

  lemma Cancel(f': multiset<nat>, a: multiset<nat>, f: multiset<nat>, b: multiset<nat>, c: multiset<nat>,
               d: multiset<nat>)
    requires f' + a == f + b && b + c == a + d
    ensures f' + c == f + d
  {
    forall x ensures (f' + c)[x] == (f + d)[x] {
      assert (f' + a)[x] == (f + b)[x] && (b + c)[x] == (a + d)[x];
    }
  }

  lemma NeedReplace(f: seq<Tree>, k: nat, v: Tree)
    requires k < |f|
    ensures NeedF(f[k := v]) + NeedT(f[k]) == NeedF(f) + NeedT(v)
  {
    var x, z := f[..k], f[k + 1..];
    assert f == x + ([f[k]] + z) && f[k := v] == x + ([v] + z);
    NeedConcat(x, [f[k]] + z);
    NeedConcat(x, [v] + z);
    assert ([f[k]] + z)[1..] == z && ([v] + z)[1..] == z;
  }

  lemma {:induction false} SpliceNeed(t: Tree, p: Path, a: nat, b: nat, r: seq<Tree>)
    requires ValidPath(t, p) && a <= b <= |At(t, p).kids|
    ensures NeedT(Splice(t, p, a, b, r)) + NeedF(At(t, p).kids[a..b]) == NeedT(t) + NeedF(r)
    decreases |p|
  {
    if p == [] {
      var x, y, z := t.kids[..a], t.kids[a..b], t.kids[b..];
      assert t.kids == x + y + z;
      NeedConcat(x + y, z);
      NeedConcat(x, y);
      NeedConcat(x + r, z);
      NeedConcat(x, r);
    } else {
      var k := p[0];
      SpliceNeed(t.kids[k], p[1..], a, b, r);
      NeedReplace(t.kids, k, Splice(t.kids[k], p[1..], a, b, r));
    }
  }

  lemma PutIds(t: Tree, q: Path, r: seq<Tree>)
    requires q != [] && ValidPath(t, q)
    ensures IdsT(Put(t, q, r)) + IdsT(At(t, q)) == IdsT(t) + IdsF(r)
    ensures NeedT(Put(t, q, r)) + NeedT(At(t, q)) == NeedT(t) + NeedF(r)
  {
    UpValid(t, q);
    var l := At(t, q);
    SpliceIds(t, Up(q), Last(q), Last(q) + 1, r);
    SpliceNeed(t, Up(q), Last(q), Last(q) + 1, r);
    assert At(t, Up(q)).kids[Last(q)..Last(q) + 1] == [l];
    IdsOne(l);
    assert [l][1..] == [];
  }

  // ----- Every other node is no unit -----

  lemma {:induction false} NoUnitF(f: seq<Tree>, c: Class)
    requires IdsF(f)[c.g] == 0 && IdsF(f)[c.r] == 0
    ensures UnitsF(f, c)
    decreases SizeF(f), 1
  {
    if f != [] {
      assert SizeF(f[0].kids) < Size(f[0]);
      NoUnitF(f[0].kids, c);
      NoUnitF(f[1..], c);
    }
  }

  /** If ids are used once, the unit at `p` is the only one. */
  lemma {:induction false} OnlyUnit(t: Tree, p: Path, c: Class)
    requires ValidPath(t, p) && IdsT(t)[c.g] <= 1 && IdsT(t)[c.r] <= 1
    requires IdsT(At(t, p))[c.g] == 1 && IdsT(At(t, p))[c.r] == 1
    requires IsUnit(At(t, p), c) && GoodUnit(At(t, p), c)
    ensures UnitsT(t, c)
    decreases |p|
  {
    if p != [] {
      hide IdsT, IdsF, GoodUnit, IsUnit;
      var k, kid := p[0], t.kids[p[0]];
      IdsNode(t);
      IdsSplit(t.kids, k);
      IdsAt(kid, p[1..]);
      OneOfThree(IdsF(t.kids[..k]), IdsT(kid), IdsF(t.kids[k + 1..]), multiset{t.id}, IdsT(At(kid, p[1..])), c.g);
      OneOfThree(IdsF(t.kids[..k]), IdsT(kid), IdsF(t.kids[k + 1..]), multiset{t.id}, IdsT(At(kid, p[1..])), c.r);
      OnlyUnit(kid, p[1..], c);
      NoUnitF(t.kids[..k], c);
      NoUnitF(t.kids[k + 1..], c);
      UnitsAll(t.kids, k, c);
    }
  }

  lemma OneOfThree(x: multiset<nat>, y: multiset<nat>, z: multiset<nat>, r: multiset<nat>, a: multiset<nat>, i: nat)
    requires a <= y && a[i] == 1 && (r + (x + y + z))[i] <= 1
    ensures x[i] == 0 && z[i] == 0 && y[i] == 1 && r[i] == 0
  {
    assert (r + (x + y + z))[i] == r[i] + x[i] + y[i] + z[i];
  }

  lemma UnitsAll(f: seq<Tree>, k: nat, c: Class)
    requires k < |f| && UnitsF(f[..k], c) && UnitsT(f[k], c) && UnitsF(f[k + 1..], c)
    ensures UnitsF(f, c)
  {
    var y := f[k..];
    assert y[0] == f[k] && y[1..] == f[k + 1..] && f == f[..k] + y;
    UnitsJoin(f[..k], y, c);
  }

  lemma {:induction false} UnitsJoin(f: seq<Tree>, g: seq<Tree>, c: Class)
    requires UnitsF(f, c) && UnitsF(g, c)
    ensures UnitsF(f + g, c)
    decreases |f|
  {
    if f == [] {
      assert f + g == g;
    } else {
      assert (f + g)[1..] == f[1..] + g;
      UnitsJoin(f[1..], g, c);
    }
  }

  // ----- Edits of a unit already in place -----

  lemma PutAt(t: Tree, q: Path, r: seq<Tree>)
    requires q != [] && ValidPath(t, q) && r != []
    ensures var u := Put(t, q, r);
            && ValidPath(u, q) && At(u, q) == r[0] && Pos(u, q) == Pos(t, q)
            && ValidPath(u, Up(q)) && Last(q) < |At(u, Up(q)).kids| && At(u, Up(q)).kids[Last(q)] == r[0]
            && RangeStart(u, Up(q), Last(q)) == Pos(t, q)
  {
    UpValid(t, q);
    var p, a, u := Up(q), Last(q), Put(t, q, r);
    SpliceValid(t, p, a, a + 1, r);
    ExtendPath(u, p, a);
    assert p + [a] == q;
    UpValid(u, q);
    assert At(u, p).kids[..a] == At(t, p).kids[..a];
  }

  lemma {:induction false} SpliceSplice(t: Tree, p: Path, a: nat, h: Tree, rest: seq<Tree>, h': Tree)
    requires ValidPath(t, p) && a < |At(t, p).kids|
    ensures var u := Splice(t, p, a, a + 1, [h] + rest);
            ValidPath(u, p) && a < |At(u, p).kids|
              && Splice(u, p, a, a + 1, [h']) == Splice(t, p, a, a + 1, [h'] + rest)
    decreases |p|
  {
    var u := Splice(t, p, a, a + 1, [h] + rest);
    if p == [] {
      assert Splice(u, [], a, a + 1, [h']).kids == Splice(t, [], a, a + 1, [h'] + rest).kids;
    } else {
      SpliceSplice(t.kids[p[0]], p[1..], a, h, rest, h');
      assert Splice(u, p, a, a + 1, [h']).kids == Splice(t, p, a, a + 1, [h'] + rest).kids;
    }
  }

  lemma {:induction false} SpliceInside(t: Tree, p: Path, a: nat, h: Tree, rest: seq<Tree>, x: nat, y: nat,
                                        z: seq<Tree>)
    requires ValidPath(t, p) && a < |At(t, p).kids| && x <= y <= |h.kids|
    ensures var u := Splice(t, p, a, a + 1, [h] + rest);
            && ValidPath(u, p + [a]) && At(u, p + [a]) == h
            && Splice(u, p + [a], x, y, z)
               == Splice(t, p, a, a + 1, [h.(kids := h.kids[..x] + z + h.kids[y..])] + rest)
    decreases |p|
  {
    var u := Splice(t, p, a, a + 1, [h] + rest);
    var h' := h.(kids := h.kids[..x] + z + h.kids[y..]);
    if p == [] {
      assert [a][1..] == [] && u.kids[a] == h;
      assert Splice(u, [a], x, y, z).kids == Splice(t, [], a, a + 1, [h'] + rest).kids;
    } else {
      SpliceInside(t.kids[p[0]], p[1..], a, h, rest, x, y, z);
      assert (p + [a])[1..] == p[1..] + [a];
      assert Splice(u, p + [a], x, y, z).kids == Splice(t, p, a, a + 1, [h'] + rest).kids;
    }
  }

  // ----- One class -----

  lemma UnchosenEquiv(f: seq<Tree>)
    ensures Equiv(f, Unchosen(f), {}, {})
  {
    if |f| == 1 {
      assert f == [f[0]];
      DataEquiv(f[0], f[0].data.(choice := None));
    } else {
      EquivRefl(f);
    }
  }

  lemma FitsSilent(s: seq<Cell>, n: nat, g: nat, refs: set<nat>)
    requires All(s, Fits(refs, n)) && n <= g
    ensures Silent(s, {}, {g})
  {
    forall i | 0 <= i < |s| ensures SilentCell(s[i], {}, {g}) {
      assert Fits(refs, n)(s[i].id, s[i].data);
    }
  }

  /** Placing an equivalent unit at the first marked node keeps the output. */
  lemma PlaceUnit(t: Tree, q: Path, r: seq<Tree>, n: nat, g: nat, refs: set<nat>)
    requires WellMarked(t, n, refs) && FirstMarked(t, q) && n <= g
    requires Equiv([At(t, q)], r, {}, {g})
    ensures var u := Put(t, q, r); ExpandT(u, EMPTY).ok && ExpandT(u, EMPTY).out == ExpandT(t, EMPTY).out
  {
    FitsSilent(FlatT(t), n, g, refs);
    hide *;
    FirstParts(t, q, n, refs);
    AroundFirst(t, Up(q), Last(q), Last(q) + 1, {}, {g}, EMPTY);
    AgreeRefl(EMPTY, {}, {g});
    Context(t, Up(q), Last(q), Last(q) + 1, r, EMPTY, EMPTY, {}, {g});
    PlacedMatches(t, q, r, g);
  }

  lemma AgreeRefl(e: Env, kc: set<nat>, kg: set<nat>)
    ensures Agree(e, e, kc, kg)
  {
  }

  lemma FirstParts(t: Tree, q: Path, n: nat, refs: set<nat>)
    requires WellMarked(t, n, refs) && FirstMarked(t, q)
    ensures q != [] && ValidPath(t, q) && ValidPath(t, Up(q)) && Last(q) < |At(t, Up(q)).kids|
    ensures At(t, Up(q)).kids[Last(q)..Last(q) + 1] == [At(t, q)]
    ensures RangeStart(t, Up(q), Last(q)) <= Size(t) && NonePending(FlatT(t)[..RangeStart(t, Up(q), Last(q))])
    ensures ExpandT(t, EMPTY).ok
  {
    UpValid(t, q);
  }

  lemma PlacedMatches(t: Tree, q: Path, r: seq<Tree>, g: nat)
    requires q != [] && ValidPath(t, q) && ValidPath(t, Up(q)) && Last(q) < |At(t, Up(q)).kids|
    requires Matches(ExpandT(t, EMPTY), ExpandT(Splice(t, Up(q), Last(q), Last(q) + 1, r), EMPTY), {}, {g})
    requires ExpandT(t, EMPTY).ok
    ensures var u := Put(t, q, r); ExpandT(u, EMPTY).ok && ExpandT(u, EMPTY).out == ExpandT(t, EMPTY).out
  {
  }

  /** The first node of a class, as the well-formedness of the marks gives it. */
  ghost predicate ClassHead(l: Tree, c: Class, n: nat, refs: set<nat>) {
    && RoleOf(l.id, l.data) == Leader && c.r == l.id && c.r !in refs && c.r != 0 && c.g != c.r
    && NoMembers(FlatT(l), c) && Silent(FlatT(l), {}, {n}) && All(FlatT(l), Fits(refs, n))
  }

  lemma HeadOfClass(t: Tree, q: Path, c: Class, n: nat, refs: set<nat>)
    requires WellMarked(t, n, refs) && FirstMarked(t, q) && c.r == At(t, q).id && c.g != c.r
    ensures ClassHead(At(t, q), c, n, refs) && (Split(At(t, q).data) ==> InnerIndex(At(t, q).kids) < |At(t, q).kids|)
    ensures c.r < n
  {
    var l := At(t, q);
    FirstIsLeader(t, q, n, refs);
    UpValid(t, q);
    AllAt(t, q, Fits(refs, n));
    assert Fits(refs, n)(l.id, l.data) by { AllNode(l, Fits(refs, n)); }
    SilentNode(l, {l.id}, {});
    InClassFacts(FlatT(l), c, n, refs);
    FitsSilent(FlatT(l), n, n, refs);
  }

  lemma {:induction false} AllAt(t: Tree, q: Path, p: (nat, Data) -> bool)
    requires ValidPath(t, q) && All(FlatT(t), p)
    ensures All(FlatT(At(t, q)), p)
    decreases |q|
  {
    if q != [] {
      var k := q[0];
      AllNode(t, p);
      AllTwo(t.kids[..k], t.kids[k..], p);
      assert t.kids == t.kids[..k] + t.kids[k..];
      var y := t.kids[k..];
      assert y[0] == t.kids[k];
      AllConcat(FlatT(y[0]), FlatF(y[1..]), p);
      AllAt(t.kids[k], q[1..], p);
    }
  }

  /** What holds of the tree once a unit is placed, for either place of the first node within it. */
  ghost predicate Placed(t: Tree, q: Path, r: seq<Tree>, c: Class)
    requires q != [] && ValidPath(t, q)
  {
    var u, s := Put(t, q, r), Pos(t, q);
    && s + SizeF(r) <= Size(u)
    && NonePending(FlatT(u)[..s])
    && NoMembers(FlatT(u)[..s + SizeF(r)], c)
    && Marked(FlatT(u), c) && UnitsT(u, c) && ExpandT(u, EMPTY).ok
  }

  lemma PlaceReady(t: Tree, q: Path, r: seq<Tree>, c: Class, n: nat, n': nat, refs: set<nat>)
    requires WellMarked(t, n, refs) && FirstMarked(t, q) && n <= n' && r != []
    requires c.r == At(t, q).id && c.g != c.r
    requires All(FlatF(r), Fits(refs, n')) && NoMembers(FlatF(r), c)
    requires IsUnit(r[0], c) && GoodUnit(r[0], c) && IdsT(r[0])[c.g] == 1 && IdsT(r[0])[c.r] == 1
    requires Distinct(IdsT(Put(t, q, r))) && ExpandT(Put(t, q, r), EMPTY).ok
    ensures Placed(t, q, r, c)
  {
    var u, s := Put(t, q, r), Pos(t, q);
    HeadOfClass(t, q, c, n, refs);
    FitsLater(FlatT(t), refs, n, n');
    PutAll(t, q, r, Fits(refs, n'));
    PutFlat(t, q, r);
    InClassFacts(FlatT(u), c, n', refs);
    PlacePrefix(t, q, r, c, n', refs);
    PutAt(t, q, r);
    OnlyUnit(u, q, c);
  }

  lemma FitsLater(s: seq<Cell>, refs: set<nat>, n: nat, n': nat)
    requires All(s, Fits(refs, n)) && n <= n'
    ensures All(s, Fits(refs, n'))
  {
    forall i | 0 <= i < |s| ensures Fits(refs, n')(s[i].id, s[i].data) {
      assert Fits(refs, n)(s[i].id, s[i].data);
    }
  }

  lemma PlacePrefix(t: Tree, q: Path, r: seq<Tree>, c: Class, n: nat, refs: set<nat>)
    requires FirstMarked(t, q) && c.r != 0 && c.r !in refs
    requires var u, s := Put(t, q, r), Pos(t, q);
             && s + SizeF(r) <= Size(u) && SamePrefix(FlatT(t), FlatT(u), s) && FlatT(u)[s..s + SizeF(r)] == FlatF(r)
             && All(FlatT(u), Fits(refs, n))
    requires NoMembers(FlatF(r), c)
    ensures var u, s := Put(t, q, r), Pos(t, q);
            NonePending(FlatT(u)[..s]) && NoMembers(FlatT(u)[..s + SizeF(r)], c)
  {
    var u, s := Put(t, q, r), Pos(t, q);
    hide Put, FlatT, FlatF, Pos;
    SlicePlain(FlatT(t), FlatT(u), s, s + SizeF(r), FlatF(r), c, n, refs);
  }

  /** An ordinary prefix followed by nodes outside the class. */
  lemma SlicePlain(x: seq<Cell>, f: seq<Cell>, s: nat, e: nat, r: seq<Cell>, c: Class, n: nat, refs: set<nat>)
    requires c.r != 0 && c.r !in refs
    requires s <= e <= |f| && SamePrefix(x, f, s) && NonePending(x[..s]) && All(f, Fits(refs, n))
    requires f[s..e] == r && NoMembers(r, c)
    ensures NonePending(f[..s]) && NoMembers(f[..e], c)
  {
    var y := f[..s];
    forall i | 0 <= i < s ensures !Pending(y[i].data) {
      assert !Pending(x[..s][i].data);
    }
    forall i | 0 <= i < s ensures Fits(refs, n)(y[i].id, y[i].data) {
      assert y[i] == f[i];
    }
    InClassFacts(y, c, n, refs);
    JoinSlices(f, s, e);
    NoMembersConcat(y, r, c);
  }

  lemma JoinSlices<T>(f: seq<T>, s: nat, e: nat)
    requires s <= e <= |f|
    ensures f[..e] == f[..s] + f[s..e]
  {
  }

  /** The first node is the placed node itself. */
  lemma ReadyAtTop(t: Tree, q: Path, r: seq<Tree>, c: Class)
    requires q != [] && ValidPath(t, q) && r != [] && Placed(t, q, r, c) && c.r != 0 && c.r != c.g
    ensures var u := Put(t, q, r);
            && ValidPath(u, Up(q)) && Last(q) < |At(u, Up(q)).kids|
            && At(u, Up(q)).kids[Last(q)] == r[0] && UnitReady(u, Up(q), Last(q), c)
  {
    hide ExpandT, UnitsT, Put, FlatT, FlatF, Size, SizeF, RangeStart, Pos, At, NoMembers, NonePending, Marked, Up,
         Last, ValidPath;
    var u, s := Put(t, q, r), Pos(t, q);
    PutAt(t, q, r);
    KidRange(u, Up(q), Last(q));
    FirstSize(r);
    NoMembersTake(FlatT(u), s + Size(r[0]), s + SizeF(r), c);
  }

  lemma FirstSize(r: seq<Tree>)
    requires r != []
    ensures Size(r[0]) <= SizeF(r)
  {
  }

  lemma NoMembersTake(s: seq<Cell>, a: nat, b: nat, c: Class)
    requires a <= b <= |s| && NoMembers(s[..b], c)
    ensures NoMembers(s[..a], c)
  {
    var x, y := s[..a], s[..b];
    forall i | 0 <= i < a ensures !InClass(c, x[i].id, x[i].data) {
      assert x[i] == y[i];
    }
  }

  /** The first node is the only child of the placed grouping. */
  lemma ReadyBelow(t: Tree, q: Path, r: seq<Tree>, c: Class)
    requires q != [] && ValidPath(t, q) && r != [] && Placed(t, q, r, c) && c.r != 0 && c.r != c.g
    requires |r[0].kids| == 1 && r[0].data.typ == Grouping
    ensures var u := Put(t, q, r);
            && ValidPath(u, q) && At(u, q) == r[0] && UnitReady(u, q, 0, c)
  {
    hide ExpandT, UnitsT, Put, FlatT, FlatF, Size, SizeF, Pos, At, NoMembers, NonePending, Marked, Up, Last,
         ValidPath, RangeStart;
    var u, s := Put(t, q, r), Pos(t, q);
    PutAt(t, q, r);
    AllKids(u, q);
    KidRange(u, q, 0);
    FirstSize(r);
    OneKid(r[0]);
    NoMembersTake(FlatT(u), s + Size(r[0]), s + SizeF(r), c);
    NodeCell(u, q);
    PlainNext(FlatT(u), s);
  }

  lemma OneKid(t: Tree)
    requires |t.kids| == 1
    ensures Size(t) == 1 + SizeF(t.kids) == 1 + Size(t.kids[0])
  {
    assert t.kids[1..] == [];
  }

  lemma PlainNext(f: seq<Cell>, s: nat)
    requires s < |f| && NonePending(f[..s]) && !Pending(f[s].data)
    ensures NonePending(f[..s + 1])
  {
    var x, y := f[..s + 1], f[..s];
    forall i | 0 <= i < s + 1 ensures !Pending(x[i].data) {
      if i < s { assert x[i] == y[i]; }
    }
  }

  /** The definition of a whole node. */
  lemma WholeGood(l: Tree, c: Class, u: nat, snode: Option<nat>)
    requires RoleOf(l.id, l.data) == Leader && l.id == c.r && !Split(l.data) && NoMembers(FlatT(l), c) && c.r != c.g
    ensures var n := WholeUnit(l, c, u, snode)[0]; IsUnit(n, c) && GoodUnit(n, c)
  {
    var n := WholeUnit(l, c, u, snode)[0];
    var l' := Unchosen([l])[0];
    NoMembersNode(l, c);
    NoMembersNode(l', c);
    assert n.kids == [l'] && [l'][1..] == [] && FlatF([l']) == FlatT(l') + [];
    NoMembersNode(n, c);
    forall e ensures Paired(ExpandT(n, e).env, c) {
      ExpandOne(l', e);
    }
  }

  lemma UnchosenFlat(f: seq<Tree>, c: Class, p: (nat, Data) -> bool)
    requires NoMembers(FlatF(f), c) && All(FlatF(f), p)
    requires forall id, d :: p(id, d) ==> p(id, d.(choice := None))
    ensures NoMembers(FlatF(Unchosen(f)), c) && All(FlatF(Unchosen(f)), p)
    ensures IdsF(Unchosen(f)) == IdsF(f) && NeedF(Unchosen(f)) == NeedF(f) && SizeF(Unchosen(f)) == SizeF(f)
  {
    if |f| == 1 {
      var t, u := f[0], Unchosen(f)[0];
      assert f == [t] && Unchosen(f) == [u];
      OneFlat(t);
      OneFlat(u);
      NoMembersNode(t, c);
      NoMembersNode(u, c);
      AllNode(t, p);
      AllNode(u, p);
      assert RoleOf(t.id, t.data) == RoleOf(u.id, u.data);
    }
  }

  lemma OneFlat(t: Tree)
    ensures FlatF([t]) == FlatT(t) && SizeF([t]) == Size(t) && IdsF([t]) == IdsT(t) && NeedF([t]) == NeedT(t)
  {
    assert [t][1..] == [] && FlatF([t]) == FlatT(t) + [];
  }
}
