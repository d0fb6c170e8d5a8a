/** The tree with all groupings ahead, in order, is complete and means the same. */
module GroupsAhead {
  import opened YNodes
  import opened RoseTree
  import opened TreeEdits
  import opened TreeMoves
  import opened Expansion
  import opened Rewriting
  import opened ConversionFacts
  import opened Groupings
  import opened GroupingSteps
  import opened SameContent
  import opened GroupOrder
  import opened GroupMoves

  // ----- A topological order exists -----

  lemma {:induction false} PostInKeysF(f: seq<Tree>, x: nat)
    requires x in PostF(f)
    ensures exists k :: k in KeysF(f) && k.gr == x
    decreases SizeF(f), 1
  {
    if x in PostT(f[0]) {
      PostInKeysT(f[0], x);
    } else {
      PostInKeysF(f[1..], x);
    }
  }

  lemma {:induction false} PostInKeysT(t: Tree, x: nat)
    requires x in PostT(t)
    ensures exists k :: k in KeysT(t) && k.gr == x
    decreases Size(t), 0
  {
    if x in PostF(t.kids) {
      PostInKeysF(t.kids, x);
    } else {
      var k := GroupKey(t.id, DirectF(t.kids));
      assert KeysT(t)[0] == k;
    }
  }

  lemma {:induction false} PostIdsF(f: seq<Tree>)
    ensures multiset(PostF(f)) <= IdsF(f)
    decreases SizeF(f), 1
  {
    if f != [] {
      PostIdsT(f[0]);
      PostIdsF(f[1..]);
    }
  }

  lemma {:induction false} PostIdsT(t: Tree)
    ensures multiset(PostT(t)) <= IdsT(t)
    decreases Size(t), 0
  {
    PostIdsF(t.kids);
  }

  lemma OnceInSeq(s: seq<nat>)
    requires Distinct(multiset(s))
    ensures NoTwice(s)
  {
    forall i, j | 0 <= i < j < |s| ensures s[i] != s[j] {
      if s[i] == s[j] { TwiceInSeq(s, i, j); }
    }
  }

  lemma TwiceInSeq(s: seq<nat>, i: nat, j: nat)
    requires i < j < |s| && s[i] == s[j]
    ensures multiset(s)[s[i]] >= 2
  {
    assert s == s[..j] + s[j..];
    assert s[..j][i] == s[i] && s[j..][0] == s[j];
    assert s[i] in multiset(s[..j]) && s[i] in multiset(s[j..]);
  }

  /** In a tree in which every uses refers to an earlier grouping, the groupings can be sorted. */
  lemma OkTopological(t: Tree)
    requires NonePending(FlatT(t)) && ExpandT(t, EMPTY).ok && Distinct(IdsT(t))
    ensures Topological(KeysT(t), PostT(t))
  {
    OkOrderedT(t, EMPTY);
    PostIdsT(t);
    assert Distinct(multiset(PostT(t)));
    OnceInSeq(PostT(t));
    var ks, post := KeysT(t), PostT(t);
    forall i, u | 0 <= i < |ks| && u in ks[i].uses ensures Precedes(u, ks[i].gr, post) {
      assert u !in EMPTY.groups.Keys;
    }
  }

  // ----- Nothing is nested any more -----

  lemma {:induction false} CountGroups(f: seq<Tree>)
    requires forall i :: 0 <= i < |f| ==> f[i].data.typ == Grouping
    ensures |KeysF(f)| >= |f|
    ensures |KeysF(f)| == |f| ==> forall i :: 0 <= i < |f| ==> KeysF(f[i].kids) == []
    decreases |f|
  {
    if f != [] {
      CountGroups(f[1..]);
      assert forall i :: 0 < i < |f| ==> f[i] == f[1..][i - 1];
    }
  }

  lemma AllMoved(f: seq<Tree>, sort: seq<nat>)
    requires Tail(f, sort, |sort|) && |KeysF(f)| == |sort|
    ensures |f| == |sort| + 1 && KeysT(f[0]) == []
    ensures forall i :: 0 < i < |f| ==> KeysF(f[i].kids) == [] && f[i].id == sort[i - 1]
  {
    var c := |f| - |sort|;
    var x, y := f[1..c], f[c..];
    assert f == [f[0]] + x + y;
    TwoForests([f[0]] + x, y, map[]);
    TwoForests([f[0]], x, map[]);
    OneTree(f[0], map[]);
    CountGroups(x);
    CountGroups(y);
    forall i | 0 < i < |f| ensures KeysF(f[i].kids) == [] && f[i].id == sort[i - 1] {
      assert f[i] == y[i - 1];
      assert f[|f| - |sort| + (i - 1)].id == sort[i - 1];
    }
  }

  // ----- Every uses refers to an earlier grouping -----

  lemma {:induction false} OkFlatF(f: seq<Tree>, e: Env)
    requires NonePending(FlatF(f)) && KeysF(f) == [] && LeafUsesF(f)
    requires forall u :: u in DirectF(f) ==> u in e.groups
    ensures ExpandF(f, e).ok && ExpandF(f, e).env == e
    decreases SizeF(f), 1
  {
    if f != [] {
      NonePendingConcat(FlatT(f[0]), FlatF(f[1..]));
      OkFlatT(f[0], e);
      OkFlatF(f[1..], e);
    }
  }

  lemma {:induction false} OkFlatT(t: Tree, e: Env)
    requires NonePending(FlatT(t)) && KeysT(t) == [] && LeafUsesT(t)
    requires forall u :: u in DirectT(t) ==> u in e.groups
    ensures ExpandT(t, e).ok && ExpandT(t, e).env == e
    decreases Size(t), 0
  {
    PendingNode(t);
    if t.data.typ == Uses {
      assert DirectT(t)[0] == t.data.ref;
    } else {
      OkFlatF(t.kids, e);
    }
  }

  /** A grouping without groupings in it, all of whose uses are known. */
  ghost predicate Complete(g: Tree, known: set<nat>) {
    && g.data.typ == Grouping && g.data.ref == 0 && KeysF(g.kids) == [] && LeafUsesT(g) && NonePending(FlatT(g))
    && forall u :: u in DirectF(g.kids) ==> u in known
  }

  lemma CompleteOk(g: Tree, e: Env)
    requires Complete(g, e.groups.Keys)
    ensures ExpandT(g, e).ok && ExpandT(g, e).env.groups.Keys == e.groups.Keys + {g.id}
  {
    PendingNode(g);
    OkFlatF(g.kids, e);
  }

  /** The groupings `f` are the ones from place `i` on. */
  ghost predicate CompleteFrom(f: seq<Tree>, sort: seq<nat>, i: nat) {
    && i + |f| == |sort|
    && forall j :: 0 <= j < |f| ==> Complete(f[j], Elems(sort[..i + j])) && f[j].id == sort[i + j]
  }

  lemma CompleteFirst(f: seq<Tree>, sort: seq<nat>, i: nat)
    requires CompleteFrom(f, sort, i) && f != []
    ensures Complete(f[0], Elems(sort[..i])) && i < |sort| && f[0].id == sort[i]
    ensures Elems(sort[..i + 1]) == Elems(sort[..i]) + {sort[i]}
    ensures CompleteFrom(f[1..], sort, i + 1)
  {
    hide Complete;
    assert i + 0 == i;
    assert sort[..i + 1] == sort[..i] + [sort[i]];
    var g := f[1..];
    forall j | 0 <= j < |g| ensures Complete(g[j], Elems(sort[..i + 1 + j])) && g[j].id == sort[i + 1 + j] {
      assert g[j] == f[j + 1] && i + 1 + j == i + (j + 1);
    }
  }

  lemma {:induction false} CompleteAll(f: seq<Tree>, e: Env, sort: seq<nat>, i: nat, main: Tree)
    requires CompleteFrom(f, sort, i) && e.groups.Keys == Elems(sort[..i])
    requires NonePending(FlatT(main)) && KeysT(main) == [] && LeafUsesT(main)
    requires forall u :: u in DirectT(main) ==> u in sort
    ensures ExpandF(f + [main], e).ok
    decreases |f|
  {
    hide Complete, ExpandT, KeysT, LeafUsesT, DirectT, FlatT, NonePending;
    if f == [] {
      assert f + [main] == [main];
      assert sort[..i] == sort;
      OkFlatT(main, e);
      ExpandOne(main, e);
    } else {
      CompleteFirst(f, sort, i);
      CompleteOk(f[0], e);
      hide CompleteFrom, Elems;
      CompleteAll(f[1..], ExpandT(f[0], e).env, sort, i + 1, main);
      assert (f + [main])[1..] == f[1..] + [main];
    }
  }

  // ----- The whole reordering -----

  /** All groupings first, in the order `sort`, none in another, each behind those it uses; the main list is last. */
  ghost predicate Ahead(t: Tree, sort: seq<nat>) {
    && |t.kids| == |sort| + 1
    && (forall i :: 0 <= i < |sort| ==> t.kids[i].id == sort[i] && Complete(t.kids[i], Elems(sort[..i])))
    && KeysT(t.kids[|sort|]) == []
    && forall u :: u in DirectT(t.kids[|sort|]) ==> u in sort
  }

  /** What every node of a complete tree is like. */
  function Settled(id: nat, d: Data): bool {
    !Pending(d) && (d.typ == Grouping ==> d.ref == 0)
  }

  /** A tree as the earlier passes leave it: nothing is marked, ids are distinct, and beside the main list are
      only groupings. */
  ghost predicate Readable(t: Tree) {
    && All(FlatT(t), Settled) && LeafUsesT(t) && Distinct(IdsT(t)) && t.data.typ != Grouping && t.data.typ != Uses
    && t.kids != [] && t.kids[0].data.typ == List
    && forall i :: 0 < i < |t.kids| ==> t.kids[i].data.typ == Grouping
  }

  /** Every uses in no grouping refers to a grouping there is, perhaps to a later one. */
  ghost predicate Resolved(t: Tree) {
    forall u :: u in DirectT(t) ==> exists k :: k in KeysT(t) && k.gr == u
  }

  lemma {:induction false} OkSettledF(f: seq<Tree>, e: Env)
    requires NonePending(FlatF(f)) && ExpandF(f, e).ok
    ensures All(FlatF(f), Settled) && LeafUsesF(f)
    decreases SizeF(f), 1
  {
    if f != [] {
      NonePendingConcat(FlatT(f[0]), FlatF(f[1..]));
      OkSettledT(f[0], e);
      OkSettledF(f[1..], ExpandT(f[0], e).env);
      AllConcat(FlatT(f[0]), FlatF(f[1..]), Settled);
    }
  }

  lemma {:induction false} OkSettledT(t: Tree, e: Env)
    requires NonePending(FlatT(t)) && ExpandT(t, e).ok
    ensures All(FlatT(t), Settled) && LeafUsesT(t)
    decreases Size(t), 0
  {
    PendingNode(t);
    AllNode(t, Settled);
    if t.data.typ == Uses {
      assert t.kids == [];
    } else {
      OkSettledF(t.kids, e);
    }
  }

  lemma SettledPlain(s: seq<Cell>)
    requires All(s, Settled)
    ensures NonePending(s)
  {
    forall i | 0 <= i < |s| ensures !Pending(s[i].data) {
      assert Settled(s[i].id, s[i].data);
    }
  }

  /** The contents of all groupings of a tree. */
  ghost function Contents(t: Tree): map<nat, seq<Sem>> {
    ExpandT(t, EMPTY).env.groups
  }

  lemma StartArranged(t: Tree, sort: seq<nat>)
    requires Readable(t)
    ensures Arranged(t, t, sort, 0, Settled)
  {
  }

  /** A tree in which every uses refers to an earlier grouping is one of these. */
  lemma OkReadable(t: Tree)
    requires NonePending(FlatT(t)) && ExpandT(t, EMPTY).ok && Distinct(IdsT(t)) && t.data.typ != Grouping
             && t.data.typ != Uses
    requires t.kids != [] && t.kids[0].data.typ == List
             && forall i :: 0 < i < |t.kids| ==> t.kids[i].data.typ == Grouping
    ensures Readable(t) && Resolved(t) && Topological(KeysT(t), PostT(t))
  {
    OkSettledT(t, EMPTY);
    OkTopological(t);
    OkOrderedT(t, EMPTY);
    forall u | u in DirectT(t) ensures exists k :: k in KeysT(t) && k.gr == u {
      assert u !in EMPTY.groups.Keys;
      PostInKeysT(t, u);
    }
  }

  /** The key of a grouping among all keys. */
  lemma KidKey(f: seq<Tree>, i: nat)
    requires i < |f| && f[i].data.typ == Grouping
    ensures GroupKey(f[i].id, DirectF(f[i].kids)) in KeysF(f)
  {
    assert f == f[..i] + [f[i]] + f[i + 1..];
    Parts(f[..i], f[i], f[i + 1..], map[]);
    assert KeysT(f[i])[0] == GroupKey(f[i].id, DirectF(f[i].kids));
  }

  lemma EarlierUses(dict: seq<GroupKey>, sort: seq<nat>, k: GroupKey, i: nat)
    requires Topological(dict, sort) && k in dict && i < |sort| && k.gr == sort[i]
    ensures forall u :: u in k.uses ==> u in Elems(sort[..i])
  {
    var j :| 0 <= j < |dict| && dict[j] == k;
    forall u | u in k.uses ensures u in Elems(sort[..i]) {
      assert u in dict[j].uses;
      var a, b :| 0 <= a < b < |sort| && sort[a] == u && sort[b] == k.gr;
      assert b == i;
      assert sort[..i][a] == u;
    }
  }

  lemma DirectKnown(t: Tree, sort: seq<nat>)
    requires Resolved(t) && Topological(KeysT(t), sort)
    ensures forall u :: u in DirectT(t) ==> u in sort
  {
    forall u | u in DirectT(t) ensures u in sort {
      var k :| k in KeysT(t) && k.gr == u;
      var i :| 0 <= i < |KeysT(t)| && KeysT(t)[i] == k;
      assert KeysT(t)[i].gr in sort;
    }
  }

  lemma KidParts(f: seq<Tree>, i: nat, p: (nat, Data) -> bool)
    requires i < |f| && All(FlatF(f), p) && LeafUsesF(f)
    ensures All(FlatT(f[i]), p) && LeafUsesT(f[i]) && p(f[i].id, f[i].data)
  {
    hide *;
    assert f == f[..i] + [f[i]] + f[i + 1..];
    Parts(f[..i], f[i], f[i + 1..], map[]);
    AllTwo(f[..i] + [f[i]], f[i + 1..], p);
    AllTwo(f[..i], [f[i]], p);
    OneFlat(f[i]);
    AllNode(f[i], p);
  }

  /** When all groupings are moved, each is complete. */
  lemma MovedComplete(t: Tree, t0: Tree, sort: seq<nat>, i: nat)
    requires Readable(t0) && Arranged(t, t0, sort, |sort|, Settled) && Topological(KeysT(t0), sort)
    requires 0 < i < |t.kids| && KeysF(t.kids[i].kids) == [] && i <= |sort| && t.kids[i].id == sort[i - 1]
    requires KeysT(t) == KeysF(t.kids)
    ensures Complete(t.kids[i], Elems(sort[..i - 1]))
  {
    var g := t.kids[i];
    AllNode(t, Settled);
    KidParts(t.kids, i, Settled);
    SettledPlain(FlatT(g));
    KidKey(t.kids, i);
    var k := GroupKey(g.id, DirectF(g.kids));
    assert k in multiset(KeysT(t));
    assert k in KeysT(t0);
    EarlierUses(KeysT(t0), sort, k, i - 1);
  }

  lemma NoNesting(t: Tree, t0: Tree, sort: seq<nat>)
    requires Readable(t0) && Arranged(t, t0, sort, |sort|, Settled) && Topological(KeysT(t0), sort)
    ensures KeysT(t) == KeysF(t.kids) && |t.kids| == |sort| + 1 && KeysT(t.kids[0]) == []
    ensures forall i :: 0 < i < |t.kids| ==> KeysF(t.kids[i].kids) == [] && t.kids[i].id == sort[i - 1]
  {
    hide ReadT, HoldsT, DirectT, LeafUsesT, KeysT, KeysF, FlatT, All, IdsT, Distinct, Tail, ExpandT, NonePending,
         Precedes;
    PlainKeys(t);
    assert |multiset(KeysT(t))| == |multiset(KeysT(t0))|;
    AllMoved(t.kids, sort);
  }

  lemma PlainKeys(t: Tree)
    requires t.data.typ != Grouping
    ensures KeysT(t) == KeysF(t.kids)
  {
  }

  lemma MainKnown(t: Tree, t0: Tree, sort: seq<nat>)
    requires Resolved(t0) && Readable(t0) && Arranged(t, t0, sort, |sort|, Settled) && Topological(KeysT(t0), sort)
    ensures forall u :: u in DirectT(t.kids[0]) ==> u in sort
  {
    DirectKnown(t0, sort);
    var f := t.kids;
    assert f == [f[0]] + f[1..];
    TwoForests([f[0]], f[1..], map[]);
    OneTree(f[0], map[]);
    assert t.data.typ != Uses;
    assert DirectT(t) == DirectF(f) by { assert [] + DirectF(f) == DirectF(f); }
    forall u | u in DirectT(f[0]) ensures u in sort {
      assert u in DirectT(t0);
    }
  }

  /** The main list behind the groupings. */
  function MainLast(t: Tree): Tree
    requires t.kids != []
  {
    t.(kids := t.kids[1..] + [t.kids[0]])
  }

  lemma LastAhead(t: Tree, t0: Tree, sort: seq<nat>)
    requires Resolved(t0) && Readable(t0) && Arranged(t, t0, sort, |sort|, Settled) && Topological(KeysT(t0), sort)
    ensures Ahead(MainLast(t), sort)
  {
    NoNesting(t, t0, sort);
    MainKnown(t, t0, sort);
    var u := MainLast(t);
    forall i | 0 <= i < |sort| ensures u.kids[i].id == sort[i] && Complete(u.kids[i], Elems(sort[..i])) {
      assert u.kids[i] == t.kids[i + 1];
      MovedComplete(t, t0, sort, i + 1);
      assert i + 1 - 1 == i;
    }
  }

  lemma {:induction false} GroupsReadNothing(f: seq<Tree>, m: map<nat, seq<Sem>>)
    requires forall i :: 0 <= i < |f| ==> f[i].data.typ == Grouping
    ensures ReadF(f, m) == []
    decreases |f|
  {
    if f != [] {
      assert forall i :: 0 < i < |f| ==> f[i] == f[1..][i - 1];
      GroupsReadNothing(f[1..], m);
    }
  }

  lemma LastReads(t: Tree, t0: Tree, sort: seq<nat>, m: map<nat, seq<Sem>>)
    requires Readable(t0) && Arranged(t, t0, sort, |sort|, Settled)
    ensures var u := MainLast(t); ReadT(u, m) == ReadT(t0, m) && (HoldsT(u, m) <==> HoldsT(t0, m))
  {
    var f := t.kids;
    var x, z := [f[0]], f[1..];
    assert f == x + z;
    assert ReadT(t, m) == ReadT(t0, m);
    TwoRead(x, z, m);
    TwoRead(z, x, m);
    OneTree(f[0], m);
    GroupsReadNothing(z, m);
    assert ReadT(f[0], m) + [] == ReadT(f[0], m) && [] + ReadT(f[0], m) == ReadT(f[0], m);
    hide ReadF, HoldsF, KeysT, LeafUsesT, IdsT, FlatT, Tail, Distinct, DirectT;
  }

  lemma ArrangedPlain(t: Tree, t0: Tree, sort: seq<nat>, k: nat, p: (nat, Data) -> bool)
    requires Arranged(t, t0, sort, k, p)
    ensures t.kids != [] && All(FlatT(t), p) && LeafUsesF(t.kids) && Distinct(IdsT(t))
  {
    hide SameReading;
  }

  lemma LastPlain(t: Tree, t0: Tree, sort: seq<nat>)
    requires Arranged(t, t0, sort, |sort|, Settled)
    ensures t.kids != []
    ensures var u := MainLast(t);
            && NonePending(FlatT(u)) && NonePending(FlatT(t.kids[0])) && LeafUsesT(t.kids[0]) && Distinct(IdsT(u))
  {
    hide *;
    ArrangedPlain(t, t0, sort, |sort|, Settled);
    var x, z, u := [t.kids[0]], t.kids[1..], MainLast(t);
    assert t.kids == x + z;
    MainLastIs(t);
    AllNode(t, Settled);
    AllTwo(x, z, Settled);
    AllTwo(z, x, Settled);
    AllNode(u, Settled);
    SettledPlain(FlatT(u));
    KidParts(t.kids, 0, Settled);
    SettledPlain(FlatT(t.kids[0]));
    IdsConcat(x, z);
    IdsConcat(z, x);
    IdsNode(t);
    IdsNode(u);
    assert IdsT(u) == IdsT(t);
  }

  lemma MainLastIs(t: Tree)
    requires t.kids != []
    ensures var u := MainLast(t); u.id == t.id && u.data == t.data && u.kids == t.kids[1..] + [t.kids[0]]
  {
  }

  /** What a complete tree means, whatever order its groupings had before. */
  ghost predicate MeansSame(u: Tree, t: Tree) {
    && ExpandT(u, EMPTY).ok && HoldsT(t, Contents(u))
    && forall m :: HoldsT(t, m) ==> Meaning(u) == ReadT(t, m)
  }

  /** The reordered tree is complete and means what the tree meant before. */
  lemma AheadKeepsMeaning(t: Tree, t0: Tree, sort: seq<nat>)
    requires Readable(t0) && Resolved(t0) && Arranged(t, t0, sort, |sort|, Settled) && Topological(KeysT(t0), sort)
    ensures var u := MainLast(t); Ahead(u, sort) && u.kids[|sort|].data.typ == List && MeansSame(u, t0)
  {
    hide *;
    RootIsPlain(t, t0, sort);
    var u := MainLast(t);
    LastAhead(t, t0, sort);
    LastPlain(t, t0, sort);
    NoNesting(t, t0, sort);
    AheadParts(t, sort);
    MainKnown(t, t0, sort);
    CompleteAll(t.kids[1..], EMPTY, sort, 0, t.kids[0]);
    RootOk(u);
    MeaningIs(u);
    FreshEmpty(IdsT(u));
    SelfPart(u);
    ExpandReadsT(u, EMPTY, Contents(u));
    LastReads(t, t0, sort, Contents(u));
    forall m | HoldsT(t0, m) ensures Meaning(u) == ReadT(t0, m) {
      LastReads(t, t0, sort, m);
      NothingKnown(m);
      ReadsExpandT(u, EMPTY, m);
    }
    MeansThus(u, t0);
  }

  lemma MeansThus(u: Tree, t: Tree)
    requires ExpandT(u, EMPTY).ok && HoldsT(t, Contents(u)) && forall m :: HoldsT(t, m) ==> Meaning(u) == ReadT(t, m)
    ensures MeansSame(u, t)
  {
  }

  lemma FreshEmpty(ids: multiset<nat>)
    requires Distinct(ids)
    ensures Fresh(ids, EMPTY)
  {
  }

  lemma SelfPart(t: Tree)
    ensures PartOf(ExpandT(t, EMPTY).env.groups, Contents(t))
  {
  }

  /** Where every uses referred to an earlier grouping before, this is the same expansion. */
  lemma MeansExpansion(u: Tree, t: Tree)
    requires MeansSame(u, t) && NonePending(FlatT(t)) && ExpandT(t, EMPTY).ok && Distinct(IdsT(t))
    ensures Meaning(u) == Meaning(t)
  {
    FreshEmpty(IdsT(t));
    SelfPart(t);
    ExpandReadsT(t, EMPTY, Contents(t));
  }

  lemma NothingKnown(m: map<nat, seq<Sem>>)
    ensures PartOf(EMPTY.groups, m)
  {
  }

  lemma MeaningIs(t: Tree)
    ensures Meaning(t) == ExpandT(t, EMPTY).out
  {
  }

  lemma RootIsPlain(t: Tree, t0: Tree, sort: seq<nat>)
    requires Readable(t0) && Arranged(t, t0, sort, |sort|, Settled)
    ensures t.kids != [] && t.kids[0].data.typ == List && !Pending(MainLast(t).data)
    ensures MainLast(t).data.typ != Uses && MainLast(t).data.typ != Grouping
  {
    assert FlatT(t0)[0].data == t0.data;
  }

  lemma AheadParts(t: Tree, sort: seq<nat>)
    requires t.kids != [] && Ahead(MainLast(t), sort)
    ensures CompleteFrom(t.kids[1..], sort, 0) && EMPTY.groups.Keys == Elems(sort[..0])
    ensures MainLast(t).kids == t.kids[1..] + [t.kids[0]] && |t.kids| == |sort| + 1
            && MainLast(t).kids[|sort|] == t.kids[0]
  {
    hide Complete;
    var u, f := MainLast(t), t.kids[1..];
    forall j | 0 <= j < |f| ensures Complete(f[j], Elems(sort[..0 + j])) && f[j].id == sort[0 + j] {
      assert f[j] == u.kids[j] && 0 + j == j;
    }
    assert sort[..0] == [];
  }

  lemma RootOk(t: Tree)
    requires !Pending(t.data) && t.data.typ != Uses && t.data.typ != Grouping && ExpandF(t.kids, EMPTY).ok
    ensures ExpandT(t, EMPTY).ok
  {
  }
}
