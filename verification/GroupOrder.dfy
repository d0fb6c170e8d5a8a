/** Groupings in front of the main list, each behind those it uses, with the same meaning. */
module GroupOrder {
  import opened YNodes
  import opened RoseTree
  import opened TreeEdits
  import opened TreeMoves
  import opened Expansion
  import opened Rewriting
  import opened Conversion
  import opened ConversionFacts
  import opened Groupings
  import opened GroupingSteps
  import opened SameContent

  // ----- Reading a tree when all contents are known -----

  function ReadT(t: Tree, m: map<nat, seq<Sem>>): seq<Sem>
    decreases Size(t), 0
  {
    if t.data.typ == Grouping then []
    else if t.data.typ == Uses then Lookup(m, t.data.ref)
    else [Sem(PayloadOf(t.data), ReadF(t.kids, m))]
  }

  function ReadF(f: seq<Tree>, m: map<nat, seq<Sem>>): seq<Sem>
    decreases SizeF(f), 1
  {
    if f == [] then [] else ReadT(f[0], m) + ReadF(f[1..], m)
  }

  /** Every grouping stands for what it holds. */
  ghost predicate HoldsT(t: Tree, m: map<nat, seq<Sem>>)
    decreases Size(t), 0
  {
    (t.data.typ == Grouping ==> t.id in m && m[t.id] == ReadF(t.kids, m)) && HoldsF(t.kids, m)
  }

  ghost predicate HoldsF(f: seq<Tree>, m: map<nat, seq<Sem>>)
    decreases SizeF(f), 1
  {
    f == [] || (HoldsT(f[0], m) && HoldsF(f[1..], m))
  }

  ghost predicate PartOf(m: map<nat, seq<Sem>>, n: map<nat, seq<Sem>>) {
    forall k :: k in m ==> k in n && n[k] == m[k]
  }

  /** The expansion reads every uses by the contents known in the end. */
  lemma {:induction false} ExpandReadsF(f: seq<Tree>, e: Env, m: map<nat, seq<Sem>>)
    requires NonePending(FlatF(f)) && Fresh(IdsF(f), e) && ExpandF(f, e).ok && PartOf(ExpandF(f, e).env.groups, m)
    ensures ExpandF(f, e).out == ReadF(f, m) && HoldsF(f, m)
    decreases SizeF(f), 1
  {
    if f != [] {
      var a := ExpandT(f[0], e).env;
      NonePendingConcat(FlatT(f[0]), FlatF(f[1..]));
      FreshSplit(e, a, IdsT(f[0]), IdsF(f[1..]));
      ExtendsT(f[0], e);
      ExtendsF(f[1..], a);
      ExpandReadsT(f[0], e, m);
      ExpandReadsF(f[1..], a, m);
    }
  }

  lemma {:induction false} ExpandReadsT(t: Tree, e: Env, m: map<nat, seq<Sem>>)
    requires NonePending(FlatT(t)) && Fresh(IdsT(t), e) && ExpandT(t, e).ok && PartOf(ExpandT(t, e).env.groups, m)
    ensures ExpandT(t, e).out == ReadT(t, m) && HoldsT(t, m)
    decreases Size(t), 0
  {
    PendingNode(t);
    FreshSplit(e, e, multiset{t.id}, IdsF(t.kids));
    if t.data.typ == Uses {
      assert t.kids == [];
    } else {
      KidsPart(t, e, m);
      ExpandReadsF(t.kids, e, m);
    }
  }

  lemma KidsPart(t: Tree, e: Env, m: map<nat, seq<Sem>>)
    requires !Pending(t.data) && t.data.typ != Uses && Fresh(IdsT(t), e) && PartOf(ExpandT(t, e).env.groups, m)
    ensures PartOf(ExpandF(t.kids, e).env.groups, m)
  {
    FreshSplit(e, e, multiset{t.id}, IdsF(t.kids));
    ExtendsF(t.kids, e);
    var g := ExpandF(t.kids, e).env.groups;
    assert IdsT(t) == multiset{t.id} + IdsF(t.kids);
    NotOwnGroup(t.id, IdsF(t.kids), e, ExpandF(t.kids, e).env);
    hide ExpandF, IdsF, IdsT;
    forall k | k in g ensures k in m && m[k] == g[k] {
      assert k in ExpandT(t, e).env.groups;
    }
  }

  lemma NotOwnGroup(id: nat, a: multiset<nat>, e: Env, z: Env)
    requires Fresh(multiset{id} + a, e) && Within(e, z, a)
    ensures id !in z.groups
  {
    assert (multiset{id} + a)[id] == 1 + a[id];
  }

  lemma PendingNode(t: Tree)
    requires NonePending(FlatT(t))
    ensures !Pending(t.data) && NonePending(FlatF(t.kids))
  {
    var c := Cell(t.id, t.data, SizeF(t.kids));
    NonePendingConcat([c], FlatF(t.kids));
    assert [c][0] == c;
  }

  /** And the other way: known contents that are right give the same expansion. */
  lemma {:induction false} ReadsExpandF(f: seq<Tree>, e: Env, m: map<nat, seq<Sem>>)
    requires NonePending(FlatF(f)) && ExpandF(f, e).ok && HoldsF(f, m) && PartOf(e.groups, m)
    ensures ExpandF(f, e).out == ReadF(f, m) && PartOf(ExpandF(f, e).env.groups, m)
    decreases SizeF(f), 1
  {
    if f != [] {
      NonePendingConcat(FlatT(f[0]), FlatF(f[1..]));
      ReadsExpandT(f[0], e, m);
      ReadsExpandF(f[1..], ExpandT(f[0], e).env, m);
    }
  }

  lemma {:induction false} ReadsExpandT(t: Tree, e: Env, m: map<nat, seq<Sem>>)
    requires NonePending(FlatT(t)) && ExpandT(t, e).ok && HoldsT(t, m) && PartOf(e.groups, m)
    ensures ExpandT(t, e).out == ReadT(t, m) && PartOf(ExpandT(t, e).env.groups, m)
    decreases Size(t), 0
  {
    PendingNode(t);
    if t.data.typ != Uses {
      ReadsExpandF(t.kids, e, m);
    }
  }

  // ----- Groupings and what they use -----

  /** A grouping and the uses in it that are in no inner grouping. */
  datatype GroupKey = GroupKey(gr: nat, uses: seq<nat>)

  function DirectT(t: Tree): seq<nat>
    decreases Size(t), 0
  {
    if t.data.typ == Grouping then []
    else (if t.data.typ == Uses then [t.data.ref] else []) + DirectF(t.kids)
  }

  function DirectF(f: seq<Tree>): seq<nat>
    decreases SizeF(f), 1
  {
    if f == [] then [] else DirectT(f[0]) + DirectF(f[1..])
  }

  /** All groupings, in preorder. */
  function KeysT(t: Tree): seq<GroupKey>
    decreases Size(t), 0
  {
    (if t.data.typ == Grouping then [GroupKey(t.id, DirectF(t.kids))] else []) + KeysF(t.kids)
  }

  function KeysF(f: seq<Tree>): seq<GroupKey>
    decreases SizeF(f), 1
  {
    if f == [] then [] else KeysT(f[0]) + KeysF(f[1..])
  }

  /** `u` comes before `g`. */
  ghost predicate Precedes(u: nat, g: nat, order: seq<nat>) {
    exists i, j :: 0 <= i < j < |order| && order[i] == u && order[j] == g
  }

  ghost predicate NoTwice(order: seq<nat>) {
    forall i, j :: 0 <= i < j < |order| ==> order[i] != order[j]
  }

  /** Each grouping once, and behind all it uses. */
  ghost predicate Topological(dict: seq<GroupKey>, order: seq<nat>) {
    && |order| == |dict| && NoTwice(order)
    && (forall i :: 0 <= i < |dict| ==> dict[i].gr in order)
    && (forall i, u :: 0 <= i < |dict| && u in dict[i].uses ==> Precedes(u, dict[i].gr, order))
  }

  // ----- The order in which groupings are complete is such an order -----

  function PostT(t: Tree): seq<nat>
    decreases Size(t), 0
  {
    PostF(t.kids) + if t.data.typ == Grouping then [t.id] else []
  }

  function PostF(f: seq<Tree>): seq<nat>
    decreases SizeF(f), 1
  {
    if f == [] then [] else PostT(f[0]) + PostF(f[1..])
  }

  function Elems(s: seq<nat>): set<nat> {
    set x | x in s
  }

  /** Every uses of the groupings `ks` refers to something known before, or to an earlier one of `post`. */
  ghost predicate Ordered(ks: seq<GroupKey>, known: set<nat>, post: seq<nat>) {
    forall i, u :: 0 <= i < |ks| && u in ks[i].uses ==> (u in known && ks[i].gr in post) || Precedes(u, ks[i].gr, post)
  }

  ghost predicate Names(ks: seq<GroupKey>, post: seq<nat>) {
    |ks| == |post| && forall i :: 0 <= i < |ks| ==> ks[i].gr in post
  }

  lemma PrecedesMore(u: nat, g: nat, a: seq<nat>, b: seq<nat>)
    ensures Precedes(u, g, a) ==> Precedes(u, g, a + b)
    ensures Precedes(u, g, b) ==> Precedes(u, g, a + b)
    ensures u in a && g in b ==> Precedes(u, g, a + b)
  {
    var c := a + b;
    if Precedes(u, g, a) {
      var i, j :| 0 <= i < j < |a| && a[i] == u && a[j] == g;
      assert c[i] == u && c[j] == g;
    }
    if Precedes(u, g, b) {
      var i, j :| 0 <= i < j < |b| && b[i] == u && b[j] == g;
      assert c[|a| + i] == u && c[|a| + j] == g;
    }
    if u in a && g in b {
      var i, j :| 0 <= i < |a| && a[i] == u && 0 <= j < |b| && b[j] == g;
      assert c[i] == u && c[|a| + j] == g;
    }
  }

  lemma OrderedJoin(ks: seq<GroupKey>, ls: seq<GroupKey>, known: set<nat>, a: seq<nat>, b: seq<nat>)
    requires Ordered(ks, known, a) && Ordered(ls, known + Elems(a), b)
    requires Names(ks, a) && Names(ls, b)
    ensures Ordered(ks + ls, known, a + b) && Names(ks + ls, a + b)
  {
    var ms := ks + ls;
    forall i, u | 0 <= i < |ms| && u in ms[i].uses
      ensures (u in known && ms[i].gr in a + b) || Precedes(u, ms[i].gr, a + b)
    {
      PrecedesMore(u, ms[i].gr, a, b);
      if i < |ks| {
        assert ms[i] == ks[i];
      } else {
        var l := ls[i - |ks|];
        assert ms[i] == l;
        assert (u in known + Elems(a) && l.gr in b) || Precedes(u, l.gr, b);
        assert u in known + Elems(a) ==> u in known || u in a;
      }
    }
    forall i | 0 <= i < |ms| ensures ms[i].gr in a + b {
      if i < |ks| { assert ms[i] == ks[i]; } else { assert ms[i] == ls[i - |ks|]; }
    }
  }

  /** What is known after a forest, and what its direct uses refer to. */
  ghost predicate OrderF(f: seq<Tree>, e: Env) {
    && Ordered(KeysF(f), e.groups.Keys, PostF(f)) && Names(KeysF(f), PostF(f))
    && ExpandF(f, e).env.groups.Keys == e.groups.Keys + Elems(PostF(f))
    && (forall u :: u in DirectF(f) ==> u in e.groups.Keys || u in PostF(f))
  }

  ghost predicate OrderT(t: Tree, e: Env) {
    && Ordered(KeysT(t), e.groups.Keys, PostT(t)) && Names(KeysT(t), PostT(t))
    && ExpandT(t, e).env.groups.Keys == e.groups.Keys + Elems(PostT(t))
    && (forall u :: u in DirectT(t) ==> u in e.groups.Keys || u in PostT(t))
  }

  lemma {:induction false} OkOrderedF(f: seq<Tree>, e: Env)
    requires NonePending(FlatF(f)) && ExpandF(f, e).ok
    ensures OrderF(f, e)
    decreases SizeF(f), 1
  {
    if f != [] {
      var a := ExpandT(f[0], e).env;
      NonePendingConcat(FlatT(f[0]), FlatF(f[1..]));
      OkOrderedT(f[0], e);
      OkOrderedF(f[1..], a);
      OrderedJoin(KeysT(f[0]), KeysF(f[1..]), e.groups.Keys, PostT(f[0]), PostF(f[1..]));
      forall u | u in DirectF(f) ensures u in e.groups.Keys || u in PostF(f) {
        assert u in DirectT(f[0]) || u in DirectF(f[1..]);
      }
    }
  }

  lemma {:induction false} OkOrderedT(t: Tree, e: Env)
    requires NonePending(FlatT(t)) && ExpandT(t, e).ok
    ensures OrderT(t, e)
    decreases Size(t), 0
  {
    PendingNode(t);
    if t.data.typ != Grouping { assert KeysT(t) == KeysF(t.kids) && PostT(t) == PostF(t.kids); }
    if t.data.typ == Uses {
      assert t.kids == [] && KeysF(t.kids) == [] && PostF(t.kids) == [];
    } else {
      OkOrderedF(t.kids, e);
      if t.data.typ == Grouping { OwnOrdered(t, e); }
    }
  }

  lemma OwnOrdered(t: Tree, e: Env)
    requires t.data.typ == Grouping && OrderF(t.kids, e)
    ensures OrderT(t, e)
  {
    var own, ks, p, q := GroupKey(t.id, DirectF(t.kids)), KeysF(t.kids), PostF(t.kids), [t.id];
    assert KeysT(t) == [own] + ks && PostT(t) == p + q;
    hide KeysF, PostF, DirectF, ExpandF;
    forall i, u | 0 <= i < |[own] + ks| && u in ([own] + ks)[i].uses
      ensures (u in e.groups.Keys && ([own] + ks)[i].gr in p + q) || Precedes(u, ([own] + ks)[i].gr, p + q)
    {
      PrecedesMore(u, ([own] + ks)[i].gr, p, q);
      if i == 0 { assert t.id in q; } else { assert ([own] + ks)[i] == ks[i - 1]; }
    }
    forall i | 0 <= i < |[own] + ks| ensures ([own] + ks)[i].gr in p + q {
      if i == 0 { assert t.id in q; } else { assert ([own] + ks)[i] == ks[i - 1]; }
    }
  }
}
