/** What marking one node of a class does to the meaning of the tree. */
module MarkingMeaning {
  import opened YNodes
  import opened RoseTree
  import opened TreeEdits
  import opened Expansion
  import opened Rewriting
  import opened Conversion
  import opened ConversionFacts
  import opened Groupings
  import opened GroupingSteps
  import opened GroupingEdits
  import opened SameContent

  // ----- A change under plain nodes and first nodes of classes -----

  /** Every node above the one at `q` is read with its children. */
  predicate Open(t: Tree, q: Path)
    requires ValidPath(t, q)
    decreases |q|
  {
    q == [] || ((RoleOf(t.id, t.data) == Plain || RoleOf(t.id, t.data) == Leader) && Open(t.kids[q[0]], q[1..]))
  }

  lemma AroundKid(f: seq<Tree>, k: nat, v: Tree, e: Env, e': Env, kc: set<nat>)
    requires k < |f| && Agree(e, e', kc, {}) && Silent(FlatF(f), kc, {})
    requires Matches(ExpandT(f[k], ExpandF(f[..k], e).env), ExpandT(v, ExpandF(f[..k], e').env), kc, {})
    ensures Matches(ExpandF(f, e), ExpandF(f[k := v], e'), kc, {})
  {
    var x, z := f[..k], f[k + 1..];
    assert f == x + [f[k]] + z && f[k := v] == x + [v] + z;
    FlatConcat(x + [f[k]], z);
    FlatConcat(x, [f[k]]);
    SilentConcat(FlatF(x + [f[k]]), FlatF(z), kc, {});
    SilentConcat(FlatF(x), FlatF([f[k]]), kc, {});
    hide ExpandF, ExpandT, FlatF, Silent;
    ExpandOne(f[k], ExpandF(x, e).env);
    ExpandOne(v, ExpandF(x, e').env);
    Middle(x, [f[k]], [v], z, e, e', kc, {});
  }

  lemma InnerUpdate(f: seq<Tree>, k: nat, v: Tree)
    requires k < |f| && v.data.typ == f[k].data.typ
    ensures InnerIndex(f[k := v]) == InnerIndex(f)
  {
  }

  lemma UpdateSlices<T>(f: seq<T>, k: nat, v: T, i: nat)
    requires k < |f| && i <= |f|
    ensures k < i ==>
            f[k := v][..i] == f[..i][k := v] && f[k := v][i..] == f[i..] && f[..i][k] == f[k] && f[..i][..k] == f[..k]
    ensures i <= k ==> f[k := v][..i] == f[..i] && f[k := v][i..] == f[i..][k - i := v] && f[i..][k - i] == f[k]
    ensures i <= k ==> f[..i] + f[i..][..k - i] == f[..k]
  {
  }

  /** The same for a first node of a class whose inner nodes are its content. */
  lemma SplitKid(t: Tree, k: nat, v: Tree, e: Env, e': Env, kc: set<nat>)
    requires k < |t.kids| && Agree(e, e', kc, {}) && Silent(FlatT(t), kc, {}) && v.data.typ == t.kids[k].data.typ
    requires RoleOf(t.id, t.data) == Leader && Split(t.data)
    requires Matches(ExpandT(t.kids[k], ExpandF(t.kids[..k], e).env), ExpandT(v, ExpandF(t.kids[..k], e').env), kc, {})
    ensures Matches(ExpandT(t, e), ExpandT(t.(kids := t.kids[k := v]), e'), kc, {})
  {
    var i, f, g := InnerIndex(t.kids), t.kids, t.kids[k := v];
    InnerUpdate(f, k, v);
    SilentParts(t, i, kc, {});
    SplitLeader(t, e);
    SplitLeader(t.(kids := g), e');
    hide ExpandF, ExpandT, FlatF, FlatT, Silent, InnerIndex;
    if k < i {
      KidInFront(f, k, v, i, e, e', kc);
    } else {
      KidInRest(f, k, v, i, e, e', kc);
    }
    LeaderMatches(t.id, t.data, ExpandF(f[..i], e), ExpandF(f[i..], ExpandF(f[..i], e).env),
                  ExpandF(g[..i], e'), ExpandF(g[i..], ExpandF(g[..i], e').env), i < |f|, kc);
  }

  ghost predicate BothMatch(f: seq<Tree>, g: seq<Tree>, i: nat, e: Env, e': Env, kc: set<nat>)
    requires i <= |f| && i <= |g|
  {
    var x, x' := ExpandF(f[..i], e), ExpandF(g[..i], e');
    Matches(x, x', kc, {}) && Matches(ExpandF(f[i..], x.env), ExpandF(g[i..], x'.env), kc, {})
  }

  lemma KidInFront(f: seq<Tree>, k: nat, v: Tree, i: nat, e: Env, e': Env, kc: set<nat>)
    requires k < i <= |f| && Agree(e, e', kc, {}) && Silent(FlatF(f[..i]), kc, {}) && Silent(FlatF(f[i..]), kc, {})
    requires Matches(ExpandT(f[k], ExpandF(f[..k], e).env), ExpandT(v, ExpandF(f[..k], e').env), kc, {})
    ensures BothMatch(f, f[k := v], i, e, e', kc)
  {
    UpdateSlices(f, k, v, i);
    hide ExpandF, ExpandT, FlatF, Silent;
    AroundKid(f[..i], k, v, e, e', kc);
    FrameF(f[i..], ExpandF(f[..i], e).env, ExpandF(f[..i][k := v], e').env, kc, {});
  }

  lemma KidInRest(f: seq<Tree>, k: nat, v: Tree, i: nat, e: Env, e': Env, kc: set<nat>)
    requires i <= k < |f| && Agree(e, e', kc, {}) && Silent(FlatF(f[..i]), kc, {}) && Silent(FlatF(f[i..]), kc, {})
    requires Matches(ExpandT(f[k], ExpandF(f[..k], e).env), ExpandT(v, ExpandF(f[..k], e').env), kc, {})
    ensures BothMatch(f, f[k := v], i, e, e', kc)
  {
    hide ExpandF, ExpandT, FlatF, Silent, Agree;
    UpdateSlices(f, k, v, i);
    FrameF(f[..i], e, e', kc, {});
    ExpandConcat(f[..i], f[i..][..k - i], e);
    ExpandConcat(f[..i], f[i..][..k - i], e');
    AroundKid(f[i..], k - i, v, ExpandF(f[..i], e).env, ExpandF(f[..i], e').env, kc);
  }

  lemma LeaderMatches(id: nat, d: Data, x: Res, a: Res, x': Res, b: Res, ok: bool, kc: set<nat>)
    requires Matches(x, x', kc, {}) && Matches(a, b, kc, {})
    ensures Matches(Res([Sem(PayloadOf(d), x.out + a.out)], a.env.(classes := a.env.classes[id := a.out]),
                        x.ok && a.ok && ok && !IsKeyVal(d)),
                    Res([Sem(PayloadOf(d), x'.out + b.out)], b.env.(classes := b.env.classes[id := b.out]),
                        x'.ok && b.ok && ok && !IsKeyVal(d)),
                    kc, {})
  {
  }

  lemma SplitLeader(t: Tree, e: Env)
    requires RoleOf(t.id, t.data) == Leader && Split(t.data)
    ensures var k := InnerIndex(t.kids);
            var x := ExpandF(t.kids[..k], e);
            var y := ExpandF(t.kids[k..], x.env);
            ExpandT(t, e) == Res([Sem(PayloadOf(t.data), x.out + y.out)],
                                 y.env.(classes := y.env.classes[t.id := y.out]), x.ok && y.ok && k < |t.kids|
                                   && !IsKeyVal(t.data))
  {
  }

  lemma OpenKid(t: Tree, k: nat, v: Tree, e: Env, e': Env, kc: set<nat>)
    requires k < |t.kids| && Agree(e, e', kc, {}) && Silent(FlatT(t), kc, {}) && v.data.typ == t.kids[k].data.typ
    requires RoleOf(t.id, t.data) == Plain || RoleOf(t.id, t.data) == Leader
    requires Matches(ExpandT(t.kids[k], ExpandF(t.kids[..k], e).env), ExpandT(v, ExpandF(t.kids[..k], e').env), kc, {})
    ensures Matches(ExpandT(t, e), ExpandT(t.(kids := t.kids[k := v]), e'), kc, {})
  {
    if RoleOf(t.id, t.data) == Leader && Split(t.data) {
      SplitKid(t, k, v, e, e', kc);
    } else {
      WholeKid(t, k, v, e, e', kc);
    }
  }

  lemma WholeKid(t: Tree, k: nat, v: Tree, e: Env, e': Env, kc: set<nat>)
    requires k < |t.kids| && Agree(e, e', kc, {}) && Silent(FlatT(t), kc, {})
    requires RoleOf(t.id, t.data) == Plain || (RoleOf(t.id, t.data) == Leader && !Split(t.data))
    requires Matches(ExpandT(t.kids[k], ExpandF(t.kids[..k], e).env), ExpandT(v, ExpandF(t.kids[..k], e').env), kc, {})
    ensures Matches(ExpandT(t, e), ExpandT(t.(kids := t.kids[k := v]), e'), kc, {})
  {
    hide ExpandF, FlatT, FlatF, Silent, PayloadOf, InnerIndex, Discardable, IsKeyVal;
    SilentNode(t, kc, {});
    AroundKid(t.kids, k, v, e, e', kc);
  }

  lemma {:induction false} ReplaceAgree(t: Tree, q: Path, u: Tree, e: Env, kc: set<nat>)
    requires ValidPath(t, q) && Open(t, q) && Silent(FlatT(t), kc, {}) && u.data.typ == At(t, q).data.typ
    requires Matches(ExpandT(At(t, q), EnvAt(t, q, e)), ExpandT(u, EnvAt(t, q, e)), kc, {})
    ensures Matches(ExpandT(t, e), ExpandT(ReplaceAt(t, q, u), e), kc, {})
    decreases |q|
  {
    if q != [] {
      var k := q[0];
      SilentSlices(t, k, kc, {});
      ReplaceAgree(t.kids[k], q[1..], u, ExpandF(t.kids[..k], e).env, kc);
      OpenKid(t, k, ReplaceAt(t.kids[k], q[1..], u), e, e, kc);
    }
  }

  // ----- The size of what a tree means -----

  function SemSize(s: Sem): nat {
    match s
    case Dangling => 1
    case Sem(_, kids) => 1 + SemSizeF(kids)
  }

  function SemSizeF(f: seq<Sem>): nat {
    if f == [] then 0 else SemSize(f[0]) + SemSizeF(f[1..])
  }

  lemma {:induction false} SemSizeConcat(f: seq<Sem>, g: seq<Sem>)
    ensures SemSizeF(f + g) == SemSizeF(f) + SemSizeF(g)
    decreases |f|
  {
    if f == [] {
      assert f + g == g;
    } else {
      assert (f + g)[1..] == f[1..] + g;
      SemSizeConcat(f[1..], g);
    }
  }

  lemma SemSizeOne(p: Payload, kids: seq<Sem>)
    ensures SemSizeF([Sem(p, kids)]) == 1 + SemSizeF(kids)
  {
  }

  /** The same contents are known, and none got larger. */
  ghost predicate SmallerMap(m: map<nat, seq<Sem>>, m': map<nat, seq<Sem>>) {
    forall k :: (k in m <==> k in m') && (k in m ==> SemSizeF(m'[k]) <= SemSizeF(m[k]))
  }

  ghost predicate Smaller(e: Env, e': Env) {
    SmallerMap(e.classes, e'.classes) && SmallerMap(e.groups, e'.groups)
  }

  ghost predicate NoMore(a: Res, b: Res) {
    SemSizeF(b.out) <= SemSizeF(a.out) && (a.ok ==> b.ok) && Smaller(a.env, b.env)
  }

  lemma SmallerKeys(m: map<nat, seq<Sem>>, m': map<nat, seq<Sem>>, k: nat)
    requires SmallerMap(m, m')
    ensures m.Keys == m'.Keys
    ensures SemSizeF(Lookup(m', k)) <= SemSizeF(Lookup(m, k))
  {
  }

  lemma SmallerPut(m: map<nat, seq<Sem>>, m': map<nat, seq<Sem>>, k: nat, c: seq<Sem>, c': seq<Sem>)
    requires SmallerMap(m, m') && SemSizeF(c') <= SemSizeF(c)
    ensures SmallerMap(m[k := c], m'[k := c'])
  {
    hide SemSizeF;
  }

  lemma {:induction false} NoMoreF(f: seq<Tree>, e: Env, e': Env)
    requires Smaller(e, e')
    ensures NoMore(ExpandF(f, e), ExpandF(f, e'))
    decreases SizeF(f), 1
  {
    if f != [] {
      NoMoreT(f[0], e, e');
      var a, a' := ExpandT(f[0], e), ExpandT(f[0], e');
      NoMoreF(f[1..], a.env, a'.env);
      SemSizeConcat(a.out, ExpandF(f[1..], a.env).out);
      SemSizeConcat(a'.out, ExpandF(f[1..], a'.env).out);
    }
  }

  lemma {:induction false} NoMoreT(t: Tree, e: Env, e': Env)
    requires Smaller(e, e')
    ensures NoMore(ExpandT(t, e), ExpandT(t, e'))
    decreases Size(t), 0
  {
    var k := InnerIndex(t.kids);
    SizeTake(t.kids, k);
    NoMoreF(t.kids, e, e');
    NoMoreF(t.kids[..k], e, e');
    NoMoreF(t.kids[k..], ExpandF(t.kids[..k], e).env, ExpandF(t.kids[..k], e').env);
    NoMoreNode(t, e, e');
  }

  lemma NoMoreNode(t: Tree, e: Env, e': Env)
    requires Smaller(e, e') && NoMore(ExpandF(t.kids, e), ExpandF(t.kids, e'))
    requires var k := InnerIndex(t.kids);
             var x, x' := ExpandF(t.kids[..k], e), ExpandF(t.kids[..k], e');
             NoMore(x, x') && NoMore(ExpandF(t.kids[k..], x.env), ExpandF(t.kids[k..], x'.env))
    ensures NoMore(ExpandT(t, e), ExpandT(t, e'))
  {
    var r := RoleOf(t.id, t.data);
    hide ExpandF, ExpandT, SemSizeF, SmallerMap, InnerIndex, RoleOf;
    if r == Leader && Split(t.data) {
      NoMoreSplit(t, e, e');
    } else if r == Member {
      NoMoreMember(t, e, e');
    } else {
      NoMoreOther(t, e, e');
    }
  }

  lemma NoMoreSplit(t: Tree, e: Env, e': Env)
    requires RoleOf(t.id, t.data) == Leader && Split(t.data)
    requires var k := InnerIndex(t.kids);
             var x, x' := ExpandF(t.kids[..k], e), ExpandF(t.kids[..k], e');
             NoMore(x, x') && NoMore(ExpandF(t.kids[k..], x.env), ExpandF(t.kids[k..], x'.env))
    ensures NoMore(ExpandT(t, e), ExpandT(t, e'))
  {
    SplitLeader(t, e);
    SplitLeader(t, e');
    hide ExpandF, ExpandT, SemSizeF, SmallerMap, InnerIndex, PayloadOf;
    var k := InnerIndex(t.kids);
    var x, x' := ExpandF(t.kids[..k], e), ExpandF(t.kids[..k], e');
    SplitLess(t.id, t.data, x, ExpandF(t.kids[k..], x.env), x', ExpandF(t.kids[k..], x'.env));
  }

  lemma NoMoreMember(t: Tree, e: Env, e': Env)
    requires RoleOf(t.id, t.data) == Member && Smaller(e, e')
    requires var k := InnerIndex(t.kids); NoMore(ExpandF(t.kids[..k], e), ExpandF(t.kids[..k], e'))
    ensures NoMore(ExpandT(t, e), ExpandT(t, e'))
  {
    hide ExpandF, SemSizeF, SmallerMap, PayloadOf, Lookup, Discardable, FlatF, InnerIndex, RoleOf, IsKeyVal;
    var k := InnerIndex(t.kids);
    SmallerKeys(e.classes, e'.classes, t.data.ref);
    if Split(t.data) { MemberLess(t.data, ExpandF(t.kids[..k], e), ExpandF(t.kids[..k], e')); }
  }

  lemma NoMoreOther(t: Tree, e: Env, e': Env)
    requires Smaller(e, e') && NoMore(ExpandF(t.kids, e), ExpandF(t.kids, e'))
    requires var r := RoleOf(t.id, t.data); r != Member && (r == Leader ==> !Split(t.data))
    ensures NoMore(ExpandT(t, e), ExpandT(t, e'))
  {
    hide ExpandF, SemSizeF, SmallerMap, PayloadOf, Lookup, Discardable, FlatF, InnerIndex, RoleOf, IsKeyVal;
    var d, z, z' := t.data, ExpandF(t.kids, e), ExpandF(t.kids, e');
    SmallerKeys(e.groups, e'.groups, d.ref);
    OneLess(d, z.out, z'.out);
    SmallerPut(z.env.groups, z'.env.groups, t.id, z.out, z'.out);
    SmallerPut(z.env.classes, z'.env.classes, t.id, [Sem(PayloadOf(d), z.out)], [Sem(PayloadOf(d), z'.out)]);
  }

  lemma MemberLess(d: Data, x: Res, x': Res)
    requires NoMore(x, x')
    ensures var c, c' := x.out + Lookup(x.env.classes, d.ref), x'.out + Lookup(x'.env.classes, d.ref);
            SemSizeF([Sem(PayloadOf(d), c')]) <= SemSizeF([Sem(PayloadOf(d), c)])
    ensures x.env.classes.Keys == x'.env.classes.Keys
  {
    SmallerKeys(x.env.classes, x'.env.classes, d.ref);
    SemSizeConcat(x.out, Lookup(x.env.classes, d.ref));
    SemSizeConcat(x'.out, Lookup(x'.env.classes, d.ref));
    OneLess(d, x.out + Lookup(x.env.classes, d.ref), x'.out + Lookup(x'.env.classes, d.ref));
  }

  lemma OneLess(d: Data, c: seq<Sem>, c': seq<Sem>)
    requires SemSizeF(c') <= SemSizeF(c)
    ensures SemSizeF([Sem(PayloadOf(d), c')]) <= SemSizeF([Sem(PayloadOf(d), c)])
    ensures SemSizeF(c') < SemSizeF(c) ==> SemSizeF([Sem(PayloadOf(d), c')]) < SemSizeF([Sem(PayloadOf(d), c)])
  {
    SemSizeOne(PayloadOf(d), c);
    SemSizeOne(PayloadOf(d), c');
  }

  lemma SplitLess(id: nat, d: Data, x: Res, y: Res, x': Res, y': Res)
    requires NoMore(x, x') && NoMore(y, y')
    ensures SemSizeF([Sem(PayloadOf(d), x'.out + y'.out)]) <= SemSizeF([Sem(PayloadOf(d), x.out + y.out)])
    ensures Smaller(y.env.(classes := y.env.classes[id := y.out]), y'.env.(classes := y'.env.classes[id := y'.out]))
  {
    SemSizeConcat(x.out, y.out);
    SemSizeConcat(x'.out, y'.out);
    OneLess(d, x.out + y.out, x'.out + y'.out);
    SmallerPut(y.env.classes, y'.env.classes, id, y.out, y'.out);
  }

  // ----- A change that makes the expansion smaller -----

  ghost predicate Less(a: Res, b: Res) {
    NoMore(a, b) && SemSizeF(b.out) < SemSizeF(a.out)
  }

  lemma LessKid(f: seq<Tree>, k: nat, v: Tree, e: Env)
    requires k < |f| && Less(ExpandT(f[k], ExpandF(f[..k], e).env), ExpandT(v, ExpandF(f[..k], e).env))
    ensures Less(ExpandF(f, e), ExpandF(f[k := v], e))
  {
    var x, z := f[..k], f[k + 1..];
    var a := ExpandF(x, e);
    var b, b' := ExpandT(f[k], a.env), ExpandT(v, a.env);
    assert f == x + [f[k]] + z && f[k := v] == x + [v] + z;
    ExpandThree(x, [f[k]], z, e);
    ExpandThree(x, [v], z, e);
    ExpandOne(f[k], a.env);
    ExpandOne(v, a.env);
    hide ExpandF, ExpandT, SemSizeF;
    NoMoreF(z, b.env, b'.env);
    var c, c' := ExpandF(z, b.env), ExpandF(z, b'.env);
    SemSizeConcat(a.out + b.out, c.out);
    SemSizeConcat(a.out, b.out);
    SemSizeConcat(a.out + b'.out, c'.out);
    SemSizeConcat(a.out, b'.out);
  }

  lemma LessOpen(t: Tree, k: nat, v: Tree, e: Env)
    requires k < |t.kids| && v.data.typ == t.kids[k].data.typ
    requires RoleOf(t.id, t.data) == Plain || RoleOf(t.id, t.data) == Leader
    requires Less(ExpandT(t.kids[k], ExpandF(t.kids[..k], e).env), ExpandT(v, ExpandF(t.kids[..k], e).env))
    ensures Less(ExpandT(t, e), ExpandT(t.(kids := t.kids[k := v]), e))
  {
    if RoleOf(t.id, t.data) == Leader && Split(t.data) {
      LessSplit(t, k, v, e);
    } else {
      LessKid(t.kids, k, v, e);
      var a, b := ExpandF(t.kids, e), ExpandF(t.kids[k := v], e);
      OneLess(t.data, a.out, b.out);
      SmallerPut(a.env.classes, b.env.classes, t.id, [Sem(PayloadOf(t.data), a.out)], [Sem(PayloadOf(t.data), b.out)]);
    }
  }

  lemma LessSplit(t: Tree, k: nat, v: Tree, e: Env)
    requires k < |t.kids| && v.data.typ == t.kids[k].data.typ
    requires RoleOf(t.id, t.data) == Leader && Split(t.data)
    requires Less(ExpandT(t.kids[k], ExpandF(t.kids[..k], e).env), ExpandT(v, ExpandF(t.kids[..k], e).env))
    ensures Less(ExpandT(t, e), ExpandT(t.(kids := t.kids[k := v]), e))
  {
    var i, f, g := InnerIndex(t.kids), t.kids, t.kids[k := v];
    InnerUpdate(f, k, v);
    SplitLeader(t, e);
    SplitLeader(t.(kids := g), e);
    hide ExpandF, ExpandT, SemSizeF, InnerIndex;
    LessParts(f, k, v, i, e);
    var x, x' := ExpandF(f[..i], e), ExpandF(g[..i], e);
    var y, y' := ExpandF(f[i..], x.env), ExpandF(g[i..], x'.env);
    SplitLess(t.id, t.data, x, y, x', y');
    SemSizeConcat(x.out, y.out);
    SemSizeConcat(x'.out, y'.out);
    OneLess(t.data, x.out + y.out, x'.out + y'.out);
  }

  lemma LessParts(f: seq<Tree>, k: nat, v: Tree, i: nat, e: Env)
    requires k < |f| && i <= |f|
    requires Less(ExpandT(f[k], ExpandF(f[..k], e).env), ExpandT(v, ExpandF(f[..k], e).env))
    ensures var g := f[k := v];
            var x, x' := ExpandF(f[..i], e), ExpandF(g[..i], e);
            var y, y' := ExpandF(f[i..], x.env), ExpandF(g[i..], x'.env);
            NoMore(x, x') && NoMore(y, y') && (Less(x, x') || Less(y, y'))
  {
    UpdateSlices(f, k, v, i);
    hide ExpandF, ExpandT, SemSizeF;
    if k < i {
      LessKid(f[..i], k, v, e);
      NoMoreF(f[i..], ExpandF(f[..i], e).env, ExpandF(f[k := v][..i], e).env);
    } else {
      ExpandConcat(f[..i], f[i..][..k - i], e);
      LessKid(f[i..], k - i, v, ExpandF(f[..i], e).env);
    }
  }

  lemma {:induction false} ReplaceLess(t: Tree, q: Path, u: Tree, e: Env)
    requires ValidPath(t, q) && Open(t, q) && u.data.typ == At(t, q).data.typ
    requires Less(ExpandT(At(t, q), EnvAt(t, q, e)), ExpandT(u, EnvAt(t, q, e)))
    ensures Less(ExpandT(t, e), ExpandT(ReplaceAt(t, q, u), e))
    decreases |q|
  {
    if q != [] {
      var k := q[0];
      ReplaceLess(t.kids[k], q[1..], u, ExpandF(t.kids[..k], e).env);
      LessOpen(t, k, ReplaceAt(t.kids[k], q[1..], u), e);
    }
  }
}
