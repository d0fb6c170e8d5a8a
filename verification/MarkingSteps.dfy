/** Marking the first node of a class, and then each later one. */
module MarkingSteps {
  import opened YNodes
  import opened RoseTree
  import opened TreeEdits
  import opened Expansion
  import opened Rewriting
  import opened Conversion
  import opened ConversionFacts
  import opened Groupings
  import opened GroupingSteps
  import opened GroupingEdits
  import opened SameContent
  import opened MarkingMeaning

  // ----- What is known when a later node is reached -----

  /** The node at `p` comes before the one at `q`, and neither is above the other. */
  predicate Before(p: Path, q: Path)
    decreases |p|
  {
    p != [] && q != [] && (p[0] < q[0] || (p[0] == q[0] && Before(p[1..], q[1..])))
  }

  lemma ExtendsTrans(a: Env, b: Env, c: Env)
    requires Extends(a, b) && Extends(b, c)
    ensures Extends(a, c)
  {
  }

  lemma FreshKids(t: Tree, e: Env)
    requires Fresh(IdsT(t), e)
    ensures Fresh(IdsF(t.kids), e)
  {
    FreshSplit(e, e, multiset{t.id}, IdsF(t.kids));
  }

  lemma WithinExtends(e: Env, f: Env, a: multiset<nat>)
    requires Within(e, f, a)
    ensures Extends(e, f)
  {
  }

  lemma TakeOne<T>(f: seq<T>, k: nat)
    requires k < |f|
    ensures f[..k + 1] == f[..k] + [f[k]] && f == f[..k + 1] + f[k + 1..]
  {
  }

  lemma FreshKid(t: Tree, k: nat, e: Env)
    requires k < |t.kids| && Fresh(IdsT(t), e)
    ensures var x := ExpandF(t.kids[..k], e).env;
            && Extends(e, x) && Fresh(IdsT(t.kids[k]), x)
            && Extends(x, ExpandT(t.kids[k], x).env)
            && ExpandT(t.kids[k], x).env == ExpandF(t.kids[..k + 1], e).env
            && Extends(ExpandF(t.kids[..k + 1], e).env, ExpandF(t.kids, e).env)
  {
    FreshKids(t, e);
    hide *;
    var x, y, z := t.kids[..k], t.kids[k], t.kids[k + 1..];
    var a := ExpandF(x, e).env;
    var i, j, m := IdsF(x), IdsT(y), IdsF(z);
    IdsSplit(t.kids, k);
    TakeOne(t.kids, k);
    FreshSplit(e, e, i + j, m);
    FreshSplit(e, a, i, j);
    ExtendsF(x, e);
    ExtendsT(y, a);
    ExpandConcat(x, [y], e);
    ExpandOne(y, a);
    ExpandConcat(t.kids[..k + 1], z, e);
    ThenEnv(ExpandF(x, e), ExpandT(y, a));
    ThenEnv(ExpandF(t.kids[..k + 1], e), ExpandF(z, ExpandF(t.kids[..k + 1], e).env));
    var b := ExpandF(t.kids[..k + 1], e).env;
    WithinThen(e, a, b, i, j);
    FreshSplit(e, b, i + j, m);
    ExtendsF(z, b);
    WithinExtends(e, a, i);
    WithinExtends(a, b, j);
    WithinExtends(b, ExpandF(t.kids, e).env, m);
  }

  lemma ThenEnv(a: Res, b: Res)
    ensures Then(a, b).env == b.env
  {
  }

  /** Everything known below an open node is known behind it. */
  lemma OpenEnv(t: Tree, e: Env)
    requires Fresh(IdsT(t), e) && (RoleOf(t.id, t.data) == Plain || RoleOf(t.id, t.data) == Leader)
    ensures Extends(ExpandF(t.kids, e).env, ExpandT(t, e).env)
  {
    var k := InnerIndex(t.kids);
    assert t.kids == t.kids[..k] + t.kids[k..];
    ExpandConcat(t.kids[..k], t.kids[k..], e);
    FreshSplit(e, e, multiset{t.id}, IdsF(t.kids));
    ExtendsF(t.kids, e);
    NotOwn(t.id, IdsF(t.kids), e, ExpandF(t.kids, e).env);
  }

  lemma NotOwn(id: nat, a: multiset<nat>, e: Env, z: Env)
    requires Fresh(multiset{id} + a, e) && Within(e, z, a)
    ensures id !in z.classes
  {
    assert (multiset{id} + a)[id] == 1 + a[id];
  }

  lemma {:induction false} EnvGrows(t: Tree, q: Path, e: Env)
    requires ValidPath(t, q) && Fresh(IdsT(t), e)
    ensures Extends(e, EnvAt(t, q, e)) && Fresh(IdsT(At(t, q)), EnvAt(t, q, e))
    decreases |q|
  {
    if q != [] {
      FreshKid(t, q[0], e);
      EnvGrows(t.kids[q[0]], q[1..], ExpandF(t.kids[..q[0]], e).env);
    }
  }

  lemma {:induction false} EnvInside(t: Tree, q: Path, e: Env)
    requires ValidPath(t, q) && Open(t, q) && Fresh(IdsT(t), e)
    ensures Extends(ExpandT(At(t, q), EnvAt(t, q, e)).env, ExpandT(t, e).env)
    decreases |q|
  {
    if q != [] {
      var k := q[0];
      var x := ExpandF(t.kids[..k], e).env;
      FreshKid(t, k, e);
      EnvInside(t.kids[k], q[1..], x);
      OpenEnv(t, e);
      ExtendsTrans(ExpandT(At(t, q), EnvAt(t, q, e)).env, ExpandF(t.kids[..k + 1], e).env, ExpandF(t.kids, e).env);
    }
  }

  lemma PrefixGrows(t: Tree, j: nat, k: nat, e: Env)
    requires j <= k < |t.kids| && Fresh(IdsT(t), e)
    ensures Extends(ExpandF(t.kids[..j], e).env, ExpandF(t.kids[..k], e).env)
  {
    var x, y := t.kids[..j], t.kids[j..k];
    assert t.kids[..k] == x + y && t.kids == x + y + t.kids[k..];
    IdsThree(x, y, t.kids[k..]);
    FreshSplit(e, e, multiset{t.id}, IdsF(t.kids));
    FreshSplit(e, e, IdsF(x) + IdsF(y), IdsF(t.kids[k..]));
    FreshSplit(e, ExpandF(x, e).env, IdsF(x), IdsF(y));
    ExtendsF(x, e);
    ExtendsF(y, ExpandF(x, e).env);
    ExpandConcat(x, y, e);
  }

  lemma {:induction false} EnvLater(t: Tree, p: Path, q: Path, e: Env)
    requires ValidPath(t, p) && ValidPath(t, q) && Open(t, p) && Open(t, q) && Before(p, q) && Fresh(IdsT(t), e)
    ensures Extends(ExpandT(At(t, p), EnvAt(t, p, e)).env, EnvAt(t, q, e))
    decreases |p|
  {
    hide ExpandF, ExpandT, IdsT, IdsF, Extends, Fresh;
    var j, k := p[0], q[0];
    var x, y := ExpandF(t.kids[..j], e).env, ExpandF(t.kids[..k], e).env;
    FreshKid(t, j, e);
    FreshKid(t, k, e);
    if j == k {
      EnvLater(t.kids[j], p[1..], q[1..], x);
    } else {
      var a := ExpandT(At(t, p), EnvAt(t, p, e)).env;
      EnvInside(t.kids[j], p[1..], x);
      PrefixGrows(t, j + 1, k, e);
      EnvGrows(t.kids[k], q[1..], y);
      ExtendsTrans(a, ExpandF(t.kids[..j + 1], e).env, y);
      ExtendsTrans(a, y, EnvAt(t, q, e));
    }
  }

  lemma {:induction false} OpenOk(t: Tree, q: Path, e: Env)
    requires ValidPath(t, q) && Open(t, q) && ExpandT(t, e).ok
    ensures ExpandT(At(t, q), EnvAt(t, q, e)).ok
    decreases |q|
  {
    if q != [] {
      var k := InnerIndex(t.kids);
      assert t.kids == t.kids[..k] + t.kids[k..];
      ExpandConcat(t.kids[..k], t.kids[k..], e);
      OkKid(t.kids, e, q[0]);
      OpenOk(t.kids[q[0]], q[1..], ExpandF(t.kids[..q[0]], e).env);
    }
  }

  // ----- The first node -----

  /** A node is marked for class `r`, whole or without itself. */
  function Mark(d: Data, r: nat, split: bool): Data {
    d.(ref := r, flags := if split then d.flags + {GroupingChildren} else d.flags)
  }

  lemma MarkPayload(d: Data, r: nat, split: bool)
    ensures PayloadOf(Mark(d, r, split)) == PayloadOf(d)
  {
    assert (d.flags + {GroupingChildren}) * KEPT_FLAGS == d.flags * KEPT_FLAGS;
  }

  /** A node that may be marked. */
  predicate Markable(d: Data) {
    d.ref == 0 && d.typ != Uses && d.typ != Leafref && d.typ != Grouping && !IsKeyVal(d) && GroupingChildren !in d.flags
  }

  lemma MarkRole(id: nat, d: Data, r: nat, split: bool)
    requires Markable(d) && r != 0
    ensures RoleOf(id, d) == Plain && RoleOf(id, Mark(d, r, split)) == (if r == id then Leader else Member)
    ensures Split(Mark(d, r, split)) == split
  {
  }

  lemma LeaderMatch(l: Tree, split: bool, e: Env)
    requires Markable(l.data) && l.id != 0 && (split ==> InnerIndex(l.kids) < |l.kids|)
    ensures Matches(ExpandT(l, e), ExpandT(l.(data := Mark(l.data, l.id, split)), e), {l.id}, {})
  {
    MarkPayload(l.data, l.id, split);
    MarkRole(l.id, l.data, l.id, split);
    var k := InnerIndex(l.kids);
    assert l.kids == l.kids[..k] + l.kids[k..];
    ExpandConcat(l.kids[..k], l.kids[k..], e);
    var u := l.(data := Mark(l.data, l.id, split));
    if split { SplitLeader(u, e); }
  }

  /** Marking the first node of a class that nobody refers to yet changes nothing. */
  lemma LeaderStep(t: Tree, q: Path, split: bool)
    requires ValidPath(t, q) && Open(t, q) && ExpandT(t, EMPTY).ok && Silent(FlatT(t), {At(t, q).id}, {})
    requires var l := At(t, q); Markable(l.data) && l.id != 0 && (split ==> InnerIndex(l.kids) < |l.kids|)
    ensures var l := At(t, q); SameMeaning(t, SetData(t, q, Mark(l.data, l.id, split)))
  {
    hide ExpandT, ExpandF, FlatT, Silent, InnerIndex, Mark, Open;
    var l := At(t, q);
    var u := l.(data := Mark(l.data, l.id, split));
    LeaderMatch(l, split, EnvAt(t, q, EMPTY));
    MarkTyp(l.data, l.id, split);
    ReplaceAgree(t, q, u, EMPTY, {l.id});
    SetAt(t, q, u.data);
  }

  lemma MarkTyp(d: Data, r: nat, split: bool)
    ensures Mark(d, r, split).typ == d.typ
  {
  }

  // ----- A later node -----

  /** The node at `q` may join the class whose first node is at `p`. */
  ghost predicate Joins(t: Tree, p: Path, q: Path) {
    && ValidPath(t, p) && ValidPath(t, q) && Open(t, p) && Open(t, q) && Before(p, q)
    && ExpandT(t, EMPTY).ok && Distinct(IdsT(t))
    && RoleOf(At(t, p).id, At(t, p).data) == Leader && Markable(At(t, q).data) && At(t, q).id != At(t, p).id
    && Quiet(FlatF(At(t, p).kids)) && Quiet(FlatF(At(t, q).kids))
  }

  /** What is known of the class where the later node is reached. */
  ghost predicate Known(l: Tree, m: Tree, eL: Env, em: Env) {
    && ExpandT(l, eL).ok && ExpandT(m, em).ok && Extends(eL, em)
    && l.id in em.classes && l.id in ExpandT(l, eL).env.classes
    && em.classes[l.id] == ExpandT(l, eL).env.classes[l.id]
  }

  lemma JoinKnown(t: Tree, p: Path, q: Path)
    requires Joins(t, p, q)
    ensures Known(At(t, p), At(t, q), EnvAt(t, p, EMPTY), EnvAt(t, q, EMPTY))
  {
    assert Fresh(IdsT(t), EMPTY);
    var l, eL, em := At(t, p), EnvAt(t, p, EMPTY), EnvAt(t, q, EMPTY);
    OpenOk(t, p, EMPTY);
    OpenOk(t, q, EMPTY);
    EnvLater(t, p, q, EMPTY);
    EnvGrows(t, p, EMPTY);
    ExtendsT(l, eL);
    WithinExtends(eL, ExpandT(l, eL).env, IdsT(l));
    ExtendsTrans(eL, ExpandT(l, eL).env, em);
    LeaderDefines(l, eL);
  }

  lemma LeaderDefines(l: Tree, e: Env)
    requires RoleOf(l.id, l.data) == Leader
    ensures l.id in ExpandT(l, e).env.classes
  {
  }

  /** The inner nodes of a forest in an environment that knows more. */
  lemma SameOut(f: seq<Tree>, g: seq<Tree>, e: Env, e': Env)
    requires SimilarF(f, g) && Quiet(FlatF(f)) && Quiet(FlatF(g)) && Extends(e, e')
    requires ExpandF(f, e).ok && ExpandF(g, e').ok
    ensures ExpandF(f, e).out == ExpandF(g, e').out && ExpandF(g, e').env == e' && ExpandF(f, e).env == e
    ensures Discardable(FlatF(g), e'.classes.Keys)
  {
    QuietF(f, e, e');
    assert Extends(e', e');
    QuietF(g, e', e');
    SimilarSameF(f, g, e');
  }

  lemma WholeMatch(l: Tree, m: Tree, eL: Env, em: Env)
    requires RoleOf(l.id, l.data) == Leader && !Split(l.data) && Markable(m.data) && l.id != m.id
    requires SimilarF(l.kids, m.kids) && PayloadOf(l.data) == PayloadOf(m.data)
    requires Quiet(FlatF(l.kids)) && Quiet(FlatF(m.kids)) && Known(l, m, eL, em)
    ensures Matches(ExpandT(m, em), ExpandT(m.(data := Mark(m.data, l.id, false)), em), {}, {})
  {
    MarkRole(m.id, m.data, l.id, false);
    hide ExpandF, SimilarF, Quiet, Discardable, FlatF, PayloadOf;
    SameOut(l.kids, m.kids, eL, em);
  }

  /** Members of a class read without themselves. */
  lemma SplitMatch(l: Tree, m: Tree, eL: Env, em: Env)
    requires RoleOf(l.id, l.data) == Leader && Split(l.data) && Markable(m.data) && l.id != m.id
    requires SimilarF(l.kids[InnerIndex(l.kids)..], m.kids[InnerIndex(m.kids)..])
    requires Quiet(FlatF(l.kids)) && Quiet(FlatF(m.kids)) && Known(l, m, eL, em)
    ensures Matches(ExpandT(m, em), ExpandT(m.(data := Mark(m.data, l.id, true)), em), {}, {})
  {
    MarkRole(m.id, m.data, l.id, true);
    var u := m.(data := Mark(m.data, l.id, true));
    PlainParts(m, em);
    SplitLeader(l, eL);
    MemberParts(u, em);
    hide *;
    SplitContents(l, m, eL, em);
    MarkPayload(m.data, l.id, true);
    MarkedSame(m, u, l.id, em, ExpandF(m.kids[..InnerIndex(m.kids)], em), ExpandF(m.kids[InnerIndex(m.kids)..], em));
  }

  /** A plain node read in two parts. */
  lemma PlainParts(m: Tree, e: Env)
    requires RoleOf(m.id, m.data) == Plain
    ensures var k := InnerIndex(m.kids);
            var x := ExpandF(m.kids[..k], e);
            var y := ExpandF(m.kids[k..], x.env);
            ExpandT(m, e) == Res([Sem(PayloadOf(m.data), x.out + y.out)], y.env, x.ok && y.ok)
  {
    var k := InnerIndex(m.kids);
    assert m.kids == m.kids[..k] + m.kids[k..];
    ExpandConcat(m.kids[..k], m.kids[k..], e);
  }

  lemma MemberParts(m: Tree, e: Env)
    requires RoleOf(m.id, m.data) == Member && Split(m.data)
    ensures var x := ExpandF(m.kids[..InnerIndex(m.kids)], e);
            ExpandT(m, e) == Res([Sem(PayloadOf(m.data), x.out + Lookup(x.env.classes, m.data.ref))], x.env,
                                 x.ok && m.data.ref in x.env.classes && Discardable(FlatF(m.kids), e.classes.Keys))
  {
  }

  /** The inner nodes of a later node say what the class holds. */
  lemma SplitContents(l: Tree, m: Tree, eL: Env, em: Env)
    requires RoleOf(l.id, l.data) == Leader && Split(l.data) && RoleOf(m.id, m.data) == Plain
    requires SimilarF(l.kids[InnerIndex(l.kids)..], m.kids[InnerIndex(m.kids)..])
    requires Quiet(FlatF(l.kids)) && Quiet(FlatF(m.kids)) && Known(l, m, eL, em)
    ensures var x := ExpandF(m.kids[..InnerIndex(m.kids)], em);
            var y := ExpandF(m.kids[InnerIndex(m.kids)..], em);
            && x.env == em && y.env == em && x.ok && y.ok && l.id in em.classes && em.classes[l.id] == y.out
            && Discardable(FlatF(m.kids), em.classes.Keys)
  {
    PlainParts(m, em);
    SplitLeader(l, eL);
    var i, k := InnerIndex(l.kids), InnerIndex(m.kids);
    QuietSlices(l.kids, i);
    QuietSlices(m.kids, k);
    hide ExpandF, SimilarF, Quiet, Discardable, FlatF, PayloadOf, InnerIndex, ExpandT, RoleOf;
    ExtendsRefl(eL);
    ExtendsRefl(em);
    QuietF(m.kids[..k], em, em);
    QuietF(l.kids[..i], eL, eL);
    SameOut(l.kids[i..], m.kids[k..], eL, em);
    DiscardTwo(m.kids, k, em.classes.Keys);
  }

  lemma ExtendsRefl(e: Env)
    ensures Extends(e, e)
  {
  }

  lemma DiscardTwo(f: seq<Tree>, k: nat, s: set<nat>)
    requires k <= |f| && Discardable(FlatF(f[..k]), s) && Discardable(FlatF(f[k..]), s)
    ensures Discardable(FlatF(f), s)
  {
    assert f == f[..k] + f[k..];
    FlatConcat(f[..k], f[k..]);
    DiscardConcat(FlatF(f[..k]), FlatF(f[k..]), s);
  }

  lemma MarkedSame(m: Tree, u: Tree, r: nat, e: Env, x: Res, y: Res)
    requires x.env == e && y.env == e && x.ok && y.ok && r in e.classes && e.classes[r] == y.out
    requires Discardable(FlatF(m.kids), e.classes.Keys) && u == m.(data := Mark(m.data, r, true))
    requires PayloadOf(u.data) == PayloadOf(m.data)
    requires ExpandT(m, e) == Res([Sem(PayloadOf(m.data), x.out + y.out)], y.env, x.ok && y.ok)
    requires ExpandT(u, e) == Res([Sem(PayloadOf(u.data), x.out + Lookup(x.env.classes, u.data.ref))], x.env,
                                  x.ok && u.data.ref in x.env.classes && Discardable(FlatF(u.kids), e.classes.Keys))
    ensures Matches(ExpandT(m, e), ExpandT(u, e), {}, {})
  {
    hide ExpandT, ExpandF, FlatF, Discardable;
  }

  lemma QuietSlices(f: seq<Tree>, k: nat)
    requires k <= |f| && Quiet(FlatF(f))
    ensures Quiet(FlatF(f[..k])) && Quiet(FlatF(f[k..]))
  {
    assert f == f[..k] + f[k..];
    FlatConcat(f[..k], f[k..]);
    QuietConcat(FlatF(f[..k]), FlatF(f[k..]));
  }

  /** A whole member of a class read without its nodes loses its own node. */
  lemma MixedMatch(l: Tree, m: Tree, eL: Env, em: Env)
    requires RoleOf(l.id, l.data) == Leader && Split(l.data) && Markable(m.data) && l.id != m.id
    requires SimilarF(l.kids, m.kids)
    requires Quiet(FlatF(l.kids)) && Quiet(FlatF(m.kids)) && Known(l, m, eL, em)
    ensures Less(ExpandT(m, em), ExpandT(m.(data := Mark(m.data, l.id, false)), em))
  {
    MarkRole(m.id, m.data, l.id, false);
    var u := m.(data := Mark(m.data, l.id, false));
    assert u.data.ref == l.id && !IsKeyVal(u.data);
    PlainWhole(m, em);
    MemberWhole(u, em);
    SplitLeader(l, eL);
    var i := InnerIndex(l.kids);
    QuietSlices(l.kids, i);
    hide *;
    KnownParts(l, m, eL, em);
    TakeDrop(l.kids, i);
    ExpandConcat(l.kids[..i], l.kids[i..], eL);
    ThenParts(ExpandF(l.kids[..i], eL), ExpandF(l.kids[i..], ExpandF(l.kids[..i], eL).env));
    ExtendsRefl(eL);
    QuietF(l.kids[..i], eL, eL);
    SameOut(l.kids, m.kids, eL, em);
    LookupKnown(em.classes, l.id);
    ResLess(ExpandT(m, em), ExpandT(u, em), PayloadOf(m.data), ExpandF(l.kids[..i], eL).out,
      ExpandF(l.kids[i..], eL).out, em);
  }

  lemma ThenParts(a: Res, b: Res)
    ensures Then(a, b) == Res(a.out + b.out, b.env, a.ok && b.ok)
  {
  }

  lemma LookupKnown(m: map<nat, seq<Sem>>, k: nat)
    requires k in m
    ensures Lookup(m, k) == m[k]
  {
  }

  lemma KnownParts(l: Tree, m: Tree, eL: Env, em: Env)
    requires Known(l, m, eL, em)
    ensures ExpandT(l, eL).ok && ExpandT(m, em).ok && Extends(eL, em)
    ensures l.id in em.classes && l.id in ExpandT(l, eL).env.classes
    ensures em.classes[l.id] == ExpandT(l, eL).env.classes[l.id]
  {
  }

  lemma PlainWhole(m: Tree, e: Env)
    requires RoleOf(m.id, m.data) == Plain
    ensures var z := ExpandF(m.kids, e); ExpandT(m, e) == Res([Sem(PayloadOf(m.data), z.out)], z.env, z.ok)
  {
  }

  lemma MemberWhole(m: Tree, e: Env)
    requires RoleOf(m.id, m.data) == Member && !Split(m.data)
    ensures ExpandT(m, e) == Res(Lookup(e.classes, m.data.ref), e,
                                 m.data.ref in e.classes && Discardable(FlatF(m.kids), e.classes.Keys)
                                   && !IsKeyVal(m.data))
  {
  }

  lemma ResLess(a: Res, b: Res, p: Payload, x: seq<Sem>, y: seq<Sem>, e: Env)
    requires a.out == [Sem(p, x + y)] && a.env == e && b == Res(y, e, true)
    ensures Less(a, b)
  {
    SemSizeConcat(x, y);
    SemSizeOne(p, x + y);
  }

  lemma TakeDrop<T>(f: seq<T>, i: nat)
    requires i <= |f|
    ensures f == f[..i] + f[i..]
  {
  }

  ghost predicate Shrunk(t: Tree, u: Tree) {
    ExpandT(u, EMPTY).ok && SemSizeF(ExpandT(u, EMPTY).out) < SemSizeF(ExpandT(t, EMPTY).out)
  }

  lemma MemberReplace(t: Tree, q: Path, d: Data)
    requires ValidPath(t, q) && Open(t, q) && d.typ == At(t, q).data.typ && ExpandT(t, EMPTY).ok
    ensures var m, e := At(t, q), EnvAt(t, q, EMPTY);
            var u := m.(data := d);
            && (Matches(ExpandT(m, e), ExpandT(u, e), {}, {}) ==> SameMeaning(t, SetData(t, q, d)))
            && (Less(ExpandT(m, e), ExpandT(u, e)) ==> Shrunk(t, SetData(t, q, d)))
  {
    var m, e := At(t, q), EnvAt(t, q, EMPTY);
    var u := m.(data := d);
    SetAt(t, q, d);
    assert Silent(FlatT(t), {}, {});
    if Matches(ExpandT(m, e), ExpandT(u, e), {}, {}) {
      ReplaceAgree(t, q, u, EMPTY, {});
    }
    if Less(ExpandT(m, e), ExpandT(u, e)) {
      ReplaceLess(t, q, u, EMPTY);
    }
  }

  /** A node equal to the first one joins a class of whole nodes. */
  lemma WholeStep(t: Tree, p: Path, q: Path)
    requires Joins(t, p, q)
    requires var l, m := At(t, p), At(t, q);
             !Split(l.data) && SimilarF(l.kids, m.kids) && PayloadOf(l.data) == PayloadOf(m.data)
    ensures SameMeaning(t, SetData(t, q, Mark(At(t, q).data, At(t, p).id, false)))
  {
    hide ExpandT, ExpandF, FlatF, FlatT, SimilarF, Quiet, Open, Distinct, PayloadOf, Mark, Matches, Known;
    var l, m := At(t, p), At(t, q);
    JoinKnown(t, p, q);
    WholeMatch(l, m, EnvAt(t, p, EMPTY), EnvAt(t, q, EMPTY));
    MarkTyp(m.data, l.id, false);
    MemberReplace(t, q, Mark(m.data, l.id, false));
  }

  /** A node with the same inner nodes joins a class of inner nodes. */
  lemma InnerStep(t: Tree, p: Path, q: Path)
    requires Joins(t, p, q)
    requires var l, m := At(t, p), At(t, q);
             Split(l.data) && SimilarF(l.kids[InnerIndex(l.kids)..], m.kids[InnerIndex(m.kids)..])
    ensures SameMeaning(t, SetData(t, q, Mark(At(t, q).data, At(t, p).id, true)))
  {
    hide ExpandT, ExpandF, FlatF, FlatT, SimilarF, Quiet, Open, Distinct, PayloadOf, Mark, Matches, Known, InnerIndex;
    var l, m := At(t, p), At(t, q);
    JoinKnown(t, p, q);
    SplitMatch(l, m, EnvAt(t, p, EMPTY), EnvAt(t, q, EMPTY));
    MarkTyp(m.data, l.id, true);
    MemberReplace(t, q, Mark(m.data, l.id, true));
  }

  /** A node equal to the first one joins a class of inner nodes: its own node gets lost. */
  lemma MixedStep(t: Tree, p: Path, q: Path)
    requires Joins(t, p, q)
    requires var l, m := At(t, p), At(t, q); Split(l.data) && SimilarF(l.kids, m.kids)
    ensures Shrunk(t, SetData(t, q, Mark(At(t, q).data, At(t, p).id, false)))
  {
    hide ExpandT, ExpandF, FlatF, FlatT, SimilarF, Quiet, Open, Distinct, PayloadOf, Mark, Matches, Known, Less;
    var l, m := At(t, p), At(t, q);
    JoinKnown(t, p, q);
    MixedMatch(l, m, EnvAt(t, p, EMPTY), EnvAt(t, q, EMPTY));
    MarkTyp(m.data, l.id, false);
    MemberReplace(t, q, Mark(m.data, l.id, false));
  }
}
