/** Local changes of a tree that keep what it means. */
module Rewriting {
  import opened YNodes
  import opened RoseTree
  import opened TreeLinks
  import opened TreeEdits
  import opened Expansion

  /** Two forests mean the same wherever they stand. */
  ghost predicate Equiv(f: seq<Tree>, g: seq<Tree>, kc: set<nat>, kg: set<nat>) {
    forall e, e' :: Agree(e, e', kc, kg) ==> Matches(ExpandF(f, e), ExpandF(g, e'), kc, kg)
  }

  /** Around children `a..b` of the node at `p` nothing looks at what may differ. */
  ghost predicate Around(t: Tree, p: Path, a: nat, b: nat, kc: set<nat>, kg: set<nat>)
    requires ValidPath(t, p) && a <= b <= |At(t, p).kids|
    decreases |p|
  {
    var r := RoleOf(t.id, t.data);
    && (r == Plain || r == Group)
    && if p == [] then
         Silent(FlatF(t.kids[..a]), kc, kg) && Silent(FlatF(t.kids[b..]), kc, kg)
       else
         && Silent(FlatF(t.kids[..p[0]]), kc, kg) && Silent(FlatF(t.kids[p[0] + 1..]), kc, kg)
         && Around(t.kids[p[0]], p[1..], a, b, kc, kg)
  }

  /** Equivalent children in equivalent surroundings. */
  lemma Middle(x: seq<Tree>, y: seq<Tree>, y': seq<Tree>, z: seq<Tree>, e: Env, e': Env, kc: set<nat>, kg: set<nat>)
    requires Agree(e, e', kc, kg)
    requires Silent(FlatF(x), kc, kg) && Silent(FlatF(z), kc, kg)
    requires Matches(ExpandF(y, ExpandF(x, e).env), ExpandF(y', ExpandF(x, e').env), kc, kg)
    ensures Matches(ExpandF(x + y + z, e), ExpandF(x + y' + z, e'), kc, kg)
  {
    ExpandThree(x, y, z, e);
    ExpandThree(x, y', z, e');
    var b, b' := ExpandF(x, e), ExpandF(x, e');
    var c, c' := ExpandF(y, b.env), ExpandF(y', b'.env);
    hide ExpandF;
    FrameF(x, e, e', kc, kg);
    FrameF(z, c.env, c'.env, kc, kg);
  }

  /** A node that is neither marked nor a reference, with other children. */
  lemma NodeMatches(t: Tree, u: Tree, e: Env, e': Env, kc: set<nat>, kg: set<nat>)
    requires u.id == t.id && u.data == t.data
    requires var r := RoleOf(t.id, t.data); r == Plain || r == Group
    requires Matches(ExpandF(t.kids, e), ExpandF(u.kids, e'), kc, kg)
    ensures Matches(ExpandT(t, e), ExpandT(u, e'), kc, kg)
  {
    hide ExpandF;
  }

  lemma {:induction false} Context(t: Tree, p: Path, a: nat, b: nat, r: seq<Tree>, e: Env, e': Env, kc: set<nat>,
                                   kg: set<nat>)
    requires ValidPath(t, p) && a <= b <= |At(t, p).kids|
    requires Around(t, p, a, b, kc, kg)
    requires Equiv(At(t, p).kids[a..b], r, kc, kg) && Agree(e, e', kc, kg)
    ensures Matches(ExpandT(t, e), ExpandT(Splice(t, p, a, b, r), e'), kc, kg)
    decreases |p|
  {
    if p == [] {
      ContextHere(t, a, b, r, e, e', kc, kg);
    } else {
      ContextBelow(t, p, a, b, r, e, e', kc, kg);
    }
  }

  lemma SpliceHere(t: Tree, a: nat, b: nat, r: seq<Tree>)
    requires a <= b <= |t.kids|
    ensures t.kids == t.kids[..a] + t.kids[a..b] + t.kids[b..]
    ensures Splice(t, [], a, b, r) == t.(kids := t.kids[..a] + r + t.kids[b..])
  {
  }

  lemma ContextHere(t: Tree, a: nat, b: nat, r: seq<Tree>, e: Env, e': Env, kc: set<nat>, kg: set<nat>)
    requires a <= b <= |t.kids| && Around(t, [], a, b, kc, kg)
    requires Equiv(t.kids[a..b], r, kc, kg) && Agree(e, e', kc, kg)
    ensures Matches(ExpandT(t, e), ExpandT(Splice(t, [], a, b, r), e'), kc, kg)
  {
    SpliceHere(t, a, b, r);
    hide ExpandF, ExpandT, FlatF, Silent, Splice;
    var x, y, z := t.kids[..a], t.kids[a..b], t.kids[b..];
    FrameF(x, e, e', kc, kg);
    Middle(x, y, r, z, e, e', kc, kg);
    NodeMatches(t, t.(kids := x + r + z), e, e', kc, kg);
  }

  lemma SpliceBelow(t: Tree, p: Path, a: nat, b: nat, r: seq<Tree>)
    requires p != [] && ValidPath(t, p) && a <= b <= |At(t, p).kids|
    ensures var k := p[0];
            && At(t, p) == At(t.kids[k], p[1..])
            && t.kids == t.kids[..k] + [t.kids[k]] + t.kids[k + 1..]
            && Splice(t, p, a, b, r)
               == t.(kids := t.kids[..k] + [Splice(t.kids[k], p[1..], a, b, r)] + t.kids[k + 1..])
  {
  }

  lemma {:induction false} ContextBelow(t: Tree, p: Path, a: nat, b: nat, r: seq<Tree>, e: Env, e': Env, kc: set<nat>,
                                        kg: set<nat>)
    requires p != [] && ValidPath(t, p) && a <= b <= |At(t, p).kids|
    requires Around(t, p, a, b, kc, kg)
    requires Equiv(At(t, p).kids[a..b], r, kc, kg) && Agree(e, e', kc, kg)
    ensures Matches(ExpandT(t, e), ExpandT(Splice(t, p, a, b, r), e'), kc, kg)
    decreases |p|, 0
  {
    SpliceBelow(t, p, a, b, r);
    hide ExpandF, ExpandT, FlatF, Silent, Splice, At, Equiv;
    var k := p[0];
    var x, z, kid := t.kids[..k], t.kids[k + 1..], t.kids[k];
    var kid' := Splice(kid, p[1..], a, b, r);
    FrameF(x, e, e', kc, kg);
    var f, f' := ExpandF(x, e).env, ExpandF(x, e').env;
    Context(kid, p[1..], a, b, r, f, f', kc, kg);
    ExpandOne(kid, f);
    ExpandOne(kid', f');
    Middle(x, [kid], [kid'], z, e, e', kc, kg);
    NodeMatches(t, t.(kids := x + [kid'] + z), e, e', kc, kg);
  }

  // ----- The local changes made when a grouping is created -----

  /** A forest, and a grouping of it with its uses. */
  lemma WrapEquiv(f: seq<Tree>, f': seq<Tree>, g: nat, d: Data, u: Tree)
    requires d.typ == Grouping && d.ref == 0 && u.data.typ == Uses && u.data.ref == g && u.kids == []
    requires Silent(FlatF(f), {}, {g}) && Equiv(f, f', {}, {})
    ensures Equiv(f, [Node(g, d, f'), u], {}, {g})
  {
    var n := Node(g, d, f');
    assert [n, u][1..] == [u];
    forall e, e' | Agree(e, e', {}, {g})
      ensures Matches(ExpandF(f, e), ExpandF([n, u], e'), {}, {g})
    {
      WrapAt(f, f', g, d, u, e, e');
    }
  }

  lemma WrapAt(f: seq<Tree>, f': seq<Tree>, g: nat, d: Data, u: Tree, e: Env, e': Env)
    requires d.typ == Grouping && d.ref == 0 && u.data.typ == Uses && u.data.ref == g && u.kids == []
    requires Silent(FlatF(f), {}, {g}) && Equiv(f, f', {}, {}) && Agree(e, e', {}, {g})
    ensures Matches(ExpandF(f, e), ExpandF([Node(g, d, f'), u], e'), {}, {g})
  {
    FrameF(f, e, e', {}, {g});
    AtSame(f, f', e');
    PairExpand(g, d, f', u, e');
    hide *;
    GroupMatches(ExpandF(f, e), ExpandF(f, e'), ExpandF(f', e'), g);
  }

  lemma AtSame(f: seq<Tree>, f': seq<Tree>, e: Env)
    requires Equiv(f, f', {}, {})
    ensures Matches(ExpandF(f, e), ExpandF(f', e), {}, {})
  {
    assert Agree(e, e, {}, {});
  }

  /** A grouping and its uses give the content once, and remember it. */
  lemma PairExpand(g: nat, d: Data, f: seq<Tree>, u: Tree, e: Env)
    requires d.typ == Grouping && d.ref == 0 && u.data.typ == Uses && u.data.ref == g && u.kids == []
    ensures var x := ExpandF(f, e);
            ExpandF([Node(g, d, f), u], e) == Res(x.out, x.env.(groups := x.env.groups[g := x.out]), x.ok)
  {
    var n := Node(g, d, f);
    assert [n, u][1..] == [u];
    ExpandOne(u, ExpandT(n, e).env);
    assert [] + ExpandF(f, e).out == ExpandF(f, e).out;
  }

  lemma GroupMatches(a: Res, b: Res, x: Res, g: nat)
    requires Matches(a, b, {}, {g}) && Matches(b, x, {}, {})
    ensures Matches(a, Res(x.out, x.env.(groups := x.env.groups[g := x.out]), x.ok), {}, {g})
  {
  }

  function LeaderRes(id: nat, d: Data, a: Res, b: Res): Res {
    Res([Sem(PayloadOf(d), a.out + b.out)], b.env.(classes := b.env.classes[id := b.out]), a.ok && b.ok && !IsKeyVal(d))
  }

  lemma LeaderResMatches(id: nat, d: Data, a: Res, b: Res, a': Res, b': Res, kc: set<nat>, kg: set<nat>)
    requires Matches(a, a', kc, kg) && Matches(b, b', kc, kg)
    ensures Matches(LeaderRes(id, d, a, b), LeaderRes(id, d, a', b'), kc, kg)
  {
  }

  lemma MatchesAgree(a: Res, b: Res, kc: set<nat>, kg: set<nat>)
    requires Matches(a, b, kc, kg)
    ensures Agree(a.env, b.env, kc, kg)
  {
  }

  /** A marked node read in two parts. */
  lemma LeaderParts(l: Tree, x: seq<Tree>, y: seq<Tree>, e: Env)
    requires RoleOf(l.id, l.data) == Leader && Split(l.data) && l.kids == x + y && y != []
    requires InnerIndex(l.kids) == |x|
    ensures var a := ExpandF(x, e);
            var b := ExpandF(y, a.env);
            ExpandT(l, e) == LeaderRes(l.id, l.data, a, b)
  {
    assert l.kids[..|x|] == x && l.kids[|x|..] == y;
  }

  lemma InnerOfParts(x: seq<Tree>, y: seq<Tree>, y': seq<Tree>)
    requires y != [] && InnerIndex(x + y) == |x| && y' != [] && !IsKeyVal(y'[0].data)
    ensures InnerIndex(x + y') == |x|
  {
    assert forall i :: 0 <= i < |x| ==> (x + y)[i] == x[i] == (x + y')[i];
    assert (x + y')[|x|] == y'[0];
  }

  /** The same below a marked node whose inner nodes alone are grouped. */
  lemma WrapInnerEquiv(l: Tree, x: seq<Tree>, y: seq<Tree>, y': seq<Tree>, g: nat, d: Data, u: Tree)
    requires d.typ == Grouping && d.ref == 0 && u.data.typ == Uses && u.data.ref == g && u.kids == []
    requires RoleOf(l.id, l.data) == Leader && Split(l.data) && l.kids == x + y && y != [] && InnerIndex(l.kids) == |x|
    requires Silent(FlatF(x), {}, {g}) && Silent(FlatF(y), {}, {g}) && Equiv(y, y', {}, {})
    ensures Equiv([l], [l.(kids := x + [Node(g, d, y'), u])], {}, {g})
  {
    var l' := l.(kids := x + [Node(g, d, y'), u]);
    forall e, e' | Agree(e, e', {}, {g})
      ensures Matches(ExpandF([l], e), ExpandF([l'], e'), {}, {g})
    {
      WrapInnerAt(l, x, y, y', g, d, u, e, e');
      ExpandOne(l, e);
      ExpandOne(l', e');
    }
  }

  lemma WrapInnerAt(l: Tree, x: seq<Tree>, y: seq<Tree>, y': seq<Tree>, g: nat, d: Data, u: Tree, e: Env, e': Env)
    requires d.typ == Grouping && d.ref == 0 && u.data.typ == Uses && u.data.ref == g && u.kids == []
    requires RoleOf(l.id, l.data) == Leader && Split(l.data) && l.kids == x + y && y != [] && InnerIndex(l.kids) == |x|
    requires Silent(FlatF(x), {}, {g}) && Silent(FlatF(y), {}, {g}) && Equiv(y, y', {}, {})
    requires Agree(e, e', {}, {g})
    ensures Matches(ExpandT(l, e), ExpandT(l.(kids := x + [Node(g, d, y'), u]), e'), {}, {g})
  {
    var z := [Node(g, d, y'), u];
    var l' := l.(kids := x + z);
    InnerOfParts(x, y, z);
    hide ExpandF, ExpandT, FlatF, Silent, InnerIndex, LeaderRes, Matches;
    LeaderParts(l, x, y, e);
    LeaderParts(l', x, z, e');
    FrameF(x, e, e', {}, {g});
    WrapEquiv(y, y', g, d, u);
    var a, a' := ExpandF(x, e), ExpandF(x, e');
    MatchesAgree(a, a', {}, {g});
    LeaderResMatches(l.id, l.data, a, ExpandF(y, a.env), a', ExpandF(z, a'.env), {}, {g});
  }

  /** A class nobody refers to any more need not be marked. */
  lemma ClearEquiv(l: Tree, d: Data)
    requires RoleOf(l.id, l.data) == Leader && PayloadOf(d) == PayloadOf(l.data)
    requires d.ref == 0 && RoleOf(l.id, d) == Plain
    requires Silent(FlatF(l.kids), {l.id}, {})
    ensures Equiv([l], [l.(data := d)], {l.id}, {})
  {
    var l' := l.(data := d);
    forall e, e' | Agree(e, e', {l.id}, {})
      ensures Matches(ExpandF([l], e), ExpandF([l'], e'), {l.id}, {})
    {
      ClearAt(l, d, e, e');
      ExpandOne(l, e);
      ExpandOne(l', e');
    }
  }

  lemma ClearAt(l: Tree, d: Data, e: Env, e': Env)
    requires RoleOf(l.id, l.data) == Leader && PayloadOf(d) == PayloadOf(l.data)
    requires d.ref == 0 && RoleOf(l.id, d) == Plain
    requires Silent(FlatF(l.kids), {l.id}, {}) && Agree(e, e', {l.id}, {})
    ensures Matches(ExpandT(l, e), ExpandT(l.(data := d), e'), {l.id}, {})
  {
    LeaderRead(l, e);
    FrameF(l.kids, e, e', {l.id}, {});
    assert ExpandT(l.(data := d), e') == Res([Sem(PayloadOf(d), ExpandF(l.kids, e').out)], ExpandF(l.kids, e').env,
           ExpandF(l.kids, e').ok);
    hide ExpandT, ExpandF, FlatF, Silent, PayloadOf, RoleOf;
  }

  /** A marked node is read like a plain one, and its content is remembered. */
  lemma LeaderRead(l: Tree, e: Env)
    requires RoleOf(l.id, l.data) == Leader
    ensures var z, x := ExpandF(l.kids, e), ExpandT(l, e);
            && x.out == [Sem(PayloadOf(l.data), z.out)] && (x.ok ==> z.ok) && x.env.groups == z.env.groups
            && l.id in x.env.classes && x.env.classes == z.env.classes[l.id := x.env.classes[l.id]]
  {
    var k := InnerIndex(l.kids);
    SizeTake(l.kids, k);
    assert l.kids == l.kids[..k] + l.kids[k..];
    ExpandConcat(l.kids[..k], l.kids[k..], e);
    var c := ExpandT(l, e).env.classes[l.id];
    assert ExpandT(l, e).env.classes == ExpandF(l.kids, e).env.classes[l.id := c];
  }

  /** Data that is no part of the meaning. */
  lemma DataEquiv(n: Tree, d: Data)
    requires PayloadOf(d) == PayloadOf(n.data) && d.ref == n.data.ref && Split(d) == Split(n.data)
    ensures Equiv([n], [n.(data := d)], {}, {})
  {
    var n' := n.(data := d);
    forall e, e' | Agree(e, e', {}, {})
      ensures Matches(ExpandF([n], e), ExpandF([n'], e'), {}, {})
    {
      ExpandOne(n, e);
      ExpandOne(n', e');
      AgreeEqual(e, e');
    }
  }

  lemma AgreeEqual(e: Env, e': Env)
    requires Agree(e, e', {}, {})
    ensures e == e'
  {
    assert e.classes == e'.classes && e.groups == e'.groups;
  }

  lemma EquivRefl(f: seq<Tree>)
    ensures Equiv(f, f, {}, {})
  {
    forall e, e' | Agree(e, e', {}, {}) ensures Matches(ExpandF(f, e), ExpandF(f, e'), {}, {}) {
      AgreeEqual(e, e');
    }
  }

  // ----- Reading a tree up to one node -----

  ghost predicate NonePending(s: seq<Cell>) {
    forall i :: 0 <= i < |s| ==> !Pending(s[i].data)
  }

  /** The contents known when the node at `q` is reached. */
  ghost function EnvAt(t: Tree, q: Path, e: Env): Env
    requires ValidPath(t, q)
    decreases |q|
  {
    if q == [] then e else EnvAt(t.kids[q[0]], q[1..], ExpandF(t.kids[..q[0]], e).env)
  }

  lemma {:induction false} OkKid(f: seq<Tree>, e: Env, k: nat)
    requires k < |f| && ExpandF(f, e).ok
    ensures ExpandF(f[..k], e).ok && ExpandT(f[k], ExpandF(f[..k], e).env).ok
  {
    assert f == f[..k] + f[k..];
    ExpandConcat(f[..k], f[k..], e);
  }

  lemma NonePendingConcat(x: seq<Cell>, y: seq<Cell>)
    ensures NonePending(x + y) <==> NonePending(x) && NonePending(y)
  {
    if NonePending(x + y) {
      forall i | 0 <= i < |x| ensures !Pending(x[i].data) { assert (x + y)[i] == x[i]; }
      forall i | 0 <= i < |y| ensures !Pending(y[i].data) { assert (x + y)[|x| + i] == y[i]; }
    }
  }

  /** Forests without marked nodes define no class. */
  lemma {:induction false} ClassesSameF(f: seq<Tree>, e: Env)
    requires NonePending(FlatF(f))
    ensures ExpandF(f, e).env.classes == e.classes
    decreases SizeF(f), 1
  {
    if f != [] {
      NonePendingConcat(FlatT(f[0]), FlatF(f[1..]));
      ClassesSameT(f[0], e);
      ClassesSameF(f[1..], ExpandT(f[0], e).env);
    }
  }

  lemma {:induction false} ClassesSameT(t: Tree, e: Env)
    requires NonePending(FlatT(t))
    ensures ExpandT(t, e).env.classes == e.classes
    decreases Size(t), 0
  {
    var c := Cell(t.id, t.data, SizeF(t.kids));
    NonePendingConcat([c], FlatF(t.kids));
    assert [c][0] == c;
    ClassesSameF(t.kids, e);
  }

  /** The part of the array before index `m`, seen from child `k`. */
  lemma PendingParts(t: Tree, k: nat, m: nat)
    requires k < |t.kids| && Off(t, k) <= m <= Off(t, k) + Size(t.kids[k])
    ensures m <= Size(t)
    ensures NonePending(FlatT(t)[..m]) ==>
              !Pending(t.data) && NonePending(FlatF(t.kids[..k])) && NonePending(FlatT(t.kids[k])[..m - Off(t, k)])
  {
    KidCells(t, k);
    if NonePending(FlatT(t)[..m]) {
      var s := FlatT(t)[..m];
      assert s[0] == FlatT(t)[0];
      forall i | 0 <= i < SizeF(t.kids[..k]) ensures !Pending(FlatF(t.kids[..k])[i].data) {
        assert s[i + 1] == FlatT(t)[i + 1];
      }
      forall i | 0 <= i < m - Off(t, k) ensures !Pending(FlatT(t.kids[k])[i].data) {
        assert s[i + Off(t, k)] == FlatT(t)[i + Off(t, k)];
      }
    }
  }

  /** Up to the first marked node everything is read in the ordinary way. */
  lemma {:induction false} ReachFirst(t: Tree, q: Path, e: Env)
    requires ValidPath(t, q) && Pos(t, q) <= Size(t) && NonePending(FlatT(t)[..Pos(t, q)]) && ExpandT(t, e).ok
    ensures ExpandT(At(t, q), EnvAt(t, q, e)).ok && EnvAt(t, q, e).classes == e.classes
    decreases |q|
  {
    if q != [] {
      var k, kid := q[0], t.kids[q[0]];
      PosBound(kid, q[1..]);
      PendingParts(t, k, Pos(t, q));
      OkKid(t.kids, e, k);
      ClassesSameF(t.kids[..k], e);
      ReachFirst(kid, q[1..], ExpandF(t.kids[..k], e).env);
    }
  }

  lemma SilentSlices(t: Tree, k: nat, kc: set<nat>, kg: set<nat>)
    requires k < |t.kids| && Silent(FlatT(t), kc, kg)
    ensures Silent(FlatF(t.kids[..k]), kc, kg) && Silent(FlatT(t.kids[k]), kc, kg)
            && Silent(FlatF(t.kids[k + 1..]), kc, kg)
  {
    SilentParts(t, k, kc, kg);
    var y := t.kids[k..];
    assert y[0] == t.kids[k] && y[1..] == t.kids[k + 1..];
    SilentConcat(FlatT(y[0]), FlatF(y[1..]), kc, kg);
  }

  /** Around the first marked node, or a node just above it, everything is ordinary. */
  lemma {:induction false} AroundFirst(t: Tree, p: Path, a: nat, b: nat, kc: set<nat>, kg: set<nat>, e: Env)
    requires ValidPath(t, p) && a < b <= |At(t, p).kids| && Silent(FlatT(t), kc, kg)
    requires RangeStart(t, p, a) <= Size(t) && NonePending(FlatT(t)[..RangeStart(t, p, a)]) && ExpandT(t, e).ok
    ensures Around(t, p, a, b, kc, kg)
    decreases |p|
  {
    RangeBound(t, p, a);
    PlainRoot(t, RangeStart(t, p, a), e);
    if p == [] {
      hide FlatT, FlatF, Silent, ExpandT, ExpandF, NonePending, Pos;
      SilentParts(t, a, kc, kg);
      SilentParts(t, b, kc, kg);
    } else {
      AroundBelow(t, p, a, b, kc, kg, e);
    }
  }

  lemma {:induction false} AroundBelow(t: Tree, p: Path, a: nat, b: nat, kc: set<nat>, kg: set<nat>, e: Env)
    requires p != [] && ValidPath(t, p) && a < b <= |At(t, p).kids| && Silent(FlatT(t), kc, kg)
    requires RangeStart(t, p, a) <= Size(t) && NonePending(FlatT(t)[..RangeStart(t, p, a)])
    requires (RoleOf(t.id, t.data) == Plain || RoleOf(t.id, t.data) == Group) && ExpandF(t.kids, e).ok
    ensures Around(t, p, a, b, kc, kg)
    decreases |p|, 0
  {
    hide FlatT, FlatF, Silent, ExpandT, ExpandF, NonePending, RoleOf;
    var k, kid := p[0], t.kids[p[0]];
    RangeBound(kid, p[1..], a);
    PendingParts(t, k, RangeStart(t, p, a));
    SilentSlices(t, k, kc, kg);
    OkKid(t.kids, e, k);
    AroundFirst(kid, p[1..], a, b, kc, kg, ExpandF(t.kids[..k], e).env);
  }

  /** A node with children that is no marked node. */
  lemma PlainRoot(t: Tree, m: nat, e: Env)
    requires 0 < m <= Size(t) && NonePending(FlatT(t)[..m]) && ExpandT(t, e).ok
    ensures t.kids != [] ==> RoleOf(t.id, t.data) == Plain || RoleOf(t.id, t.data) == Group
    ensures t.kids != [] ==> ExpandF(t.kids, e).ok
  {
    assert FlatT(t)[..m][0] == FlatT(t)[0];
  }

  lemma RangeBound(t: Tree, p: Path, a: nat)
    requires ValidPath(t, p) && a <= |At(t, p).kids|
    ensures 0 < RangeStart(t, p, a) <= Size(t)
  {
    RangeCells(t, p, a, |At(t, p).kids|);
    RangeCells(t, p, 0, a);
    AllKids(t, p);
  }
}
