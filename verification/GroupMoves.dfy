/** Moving groupings to the end of the root keeps what the tree says. */
module GroupMoves {
  import opened YNodes
  import opened RoseTree
  import opened TreeEdits
  import opened TreeMoves
  import opened Expansion
  import opened Rewriting
  import opened Conversion
  import opened ConversionFacts
  import opened Groupings
  import opened GroupingSteps
  import opened SameContent
  import opened GroupOrder

  // ----- Sequences of trees -----

  ghost predicate LeafUsesT(t: Tree)
    decreases Size(t), 0
  {
    (t.data.typ == Uses ==> t.kids == []) && LeafUsesF(t.kids)
  }

  ghost predicate LeafUsesF(f: seq<Tree>)
    decreases SizeF(f), 1
  {
    f == [] || (LeafUsesT(f[0]) && LeafUsesF(f[1..]))
  }

  lemma {:induction false} TwoRead(f: seq<Tree>, g: seq<Tree>, m: map<nat, seq<Sem>>)
    ensures ReadF(f + g, m) == ReadF(f, m) + ReadF(g, m)
    ensures HoldsF(f + g, m) <==> HoldsF(f, m) && HoldsF(g, m)
    decreases |f|
  {
    hide ReadT, HoldsT, SizeF;
    if f == [] {
      assert f + g == g;
    } else {
      assert (f + g)[1..] == f[1..] + g;
      TwoRead(f[1..], g, m);
    }
  }

  lemma {:induction false} TwoKeys(f: seq<Tree>, g: seq<Tree>)
    ensures DirectF(f + g) == DirectF(f) + DirectF(g)
    ensures KeysF(f + g) == KeysF(f) + KeysF(g)
    decreases |f|
  {
    hide DirectT, KeysT, SizeF;
    if f == [] {
      assert f + g == g;
    } else {
      assert (f + g)[1..] == f[1..] + g;
      TwoKeys(f[1..], g);
    }
  }

  lemma {:induction false} TwoLeafUses(f: seq<Tree>, g: seq<Tree>)
    ensures LeafUsesF(f + g) <==> LeafUsesF(f) && LeafUsesF(g)
    decreases |f|
  {
    hide LeafUsesT, SizeF;
    if f == [] {
      assert f + g == g;
    } else {
      assert (f + g)[1..] == f[1..] + g;
      TwoLeafUses(f[1..], g);
    }
  }

  lemma TwoForests(f: seq<Tree>, g: seq<Tree>, m: map<nat, seq<Sem>>)
    ensures ReadF(f + g, m) == ReadF(f, m) + ReadF(g, m)
    ensures HoldsF(f + g, m) <==> HoldsF(f, m) && HoldsF(g, m)
    ensures DirectF(f + g) == DirectF(f) + DirectF(g)
    ensures KeysF(f + g) == KeysF(f) + KeysF(g)
    ensures LeafUsesF(f + g) <==> LeafUsesF(f) && LeafUsesF(g)
  {
    hide *;
    TwoRead(f, g, m);
    TwoKeys(f, g);
    TwoLeafUses(f, g);
  }

  lemma OneTree(t: Tree, m: map<nat, seq<Sem>>)
    ensures ReadF([t], m) == ReadT(t, m) && (HoldsF([t], m) <==> HoldsT(t, m)) && DirectF([t]) == DirectT(t)
    ensures KeysF([t]) == KeysT(t) && (LeafUsesF([t]) <==> LeafUsesT(t))
  {
    hide ReadT, HoldsT, DirectT, KeysT, LeafUsesT;
    assert [t][1..] == [];
  }

  lemma Parts(x: seq<Tree>, t: Tree, z: seq<Tree>, m: map<nat, seq<Sem>>)
    ensures var f := x + [t] + z;
            && ReadF(f, m) == ReadF(x, m) + ReadT(t, m) + ReadF(z, m)
            && (HoldsF(f, m) <==> HoldsF(x, m) && HoldsT(t, m) && HoldsF(z, m))
            && DirectF(f) == DirectF(x) + DirectT(t) + DirectF(z)
            && KeysF(f) == KeysF(x) + KeysT(t) + KeysF(z)
            && (LeafUsesF(f) <==> LeafUsesF(x) && LeafUsesT(t) && LeafUsesF(z))
  {
    hide ReadF, HoldsF, DirectF, KeysF, LeafUsesF, ReadT, HoldsT, DirectT, KeysT, LeafUsesT;
    TwoForests(x + [t], z, m);
    TwoForests(x, [t], m);
    OneTree(t, m);
  }

  // ----- A grouping cut out -----

  lemma CutHere(t: Tree, j: nat)
    requires j < |t.kids|
    ensures ValidPath(t, [j]) && At(t, [j]) == t.kids[j]
    ensures DeleteSubtree(t, [j]) == t.(kids := t.kids[..j] + t.kids[j + 1..])
    ensures t.kids == t.kids[..j] + [t.kids[j]] + t.kids[j + 1..]
  {
    hide Size, SizeF, FlatT;
  }

  lemma CutInside(t: Tree, q: Path)
    requires |q| > 1 && ValidPath(t, q)
    ensures var j := q[0];
            && ValidPath(t.kids[j], q[1..]) && At(t.kids[j], q[1..]) == At(t, q)
            && DeleteSubtree(t, q) == t.(kids := t.kids[..j] + [DeleteSubtree(t.kids[j], q[1..])] + t.kids[j + 1..])
            && t.kids == t.kids[..j] + [t.kids[j]] + t.kids[j + 1..]
  {
    var j, p := q[0], q[1..];
    assert ValidPath(t.kids[j], p) && At(t.kids[j], p) == At(t, q) && p != [];
    hide *;
    CutBelow(t, q);
    UpdateMiddle(t.kids, j, DeleteSubtree(t.kids[j], p));
  }

  lemma UpdateMiddle<T>(f: seq<T>, j: nat, v: T)
    requires j < |f|
    ensures f[j := v] == f[..j] + [v] + f[j + 1..] && f == f[..j] + [f[j]] + f[j + 1..]
  {
  }

  /** The tree without the grouping says the same. */
  ghost predicate SaysSame(t: Tree, u: Tree, g: Tree, m: map<nat, seq<Sem>>) {
    && u.id == t.id && u.data == t.data && ReadT(u, m) == ReadT(t, m) && DirectT(u) == DirectT(t)
    && (HoldsT(t, m) <==> HoldsT(u, m) && HoldsT(g, m))
    && (LeafUsesT(t) ==> LeafUsesT(u) && LeafUsesT(g))
    && multiset(KeysT(u)) + multiset(KeysT(g)) == multiset(KeysT(t))
  }

  lemma {:induction false} CutSays(t: Tree, q: Path, m: map<nat, seq<Sem>>)
    requires q != [] && ValidPath(t, q) && At(t, q).data.typ == Grouping
    ensures SaysSame(t, DeleteSubtree(t, q), At(t, q), m)
    decreases |q|
  {
    var j := q[0];
    var x, k, z := t.kids[..j], t.kids[j], t.kids[j + 1..];
    if |q| == 1 {
      assert q == [j];
      CutHere(t, j);
      Parts(x, k, z, m);
      TwoForests(x, z, m);
      SaysRemove(t, x, k, z, m);
    } else {
      CutInside(t, q);
      CutSays(k, q[1..], m);
      var v := DeleteSubtree(k, q[1..]);
      Parts(x, k, z, m);
      Parts(x, v, z, m);
      SaysReplace(t, x, k, v, z, At(t, q), m);
    }
  }

  ghost predicate SaysSameF(f: seq<Tree>, h: seq<Tree>, g: Tree, m: map<nat, seq<Sem>>) {
    && ReadF(h, m) == ReadF(f, m) && DirectF(h) == DirectF(f)
    && (HoldsF(f, m) <==> HoldsF(h, m) && HoldsT(g, m))
    && (LeafUsesF(f) ==> LeafUsesF(h) && LeafUsesT(g))
    && multiset(KeysF(h)) + multiset(KeysT(g)) == multiset(KeysF(f))
  }

  lemma SaysNode(t: Tree, h: seq<Tree>, g: Tree, m: map<nat, seq<Sem>>)
    requires SaysSameF(t.kids, h, g, m) && t.kids != []
    ensures SaysSame(t, t.(kids := h), g, m)
  {
    KeysNode(t);
    KeysNode(t.(kids := h));
    hide ReadF, HoldsF, DirectF, KeysF, LeafUsesF, KeysT;
  }

  lemma KeysNode(t: Tree)
    ensures multiset(KeysT(t)) ==
            (if t.data.typ == Grouping then multiset{GroupKey(t.id, DirectF(t.kids))} else multiset{})
            + multiset(KeysF(t.kids))
  {
  }

  lemma GroupSays(g: Tree, m: map<nat, seq<Sem>>)
    requires g.data.typ == Grouping
    ensures ReadT(g, m) == [] && DirectT(g) == []
  {
  }

  lemma SaysRemove(t: Tree, x: seq<Tree>, g: Tree, z: seq<Tree>, m: map<nat, seq<Sem>>)
    requires t.kids == x + [g] + z && g.data.typ == Grouping
    ensures SaysSame(t, t.(kids := x + z), g, m)
  {
    hide ReadF, HoldsF, DirectF, KeysF, LeafUsesF, ReadT, HoldsT, DirectT, KeysT, LeafUsesT, SaysSame;
    Parts(x, g, z, m);
    TwoForests(x, z, m);
    GroupSays(g, m);
    assert ReadF(x, m) + [] == ReadF(x, m) && DirectF(x) + [] == DirectF(x);
    SaysNode(t, x + z, g, m);
  }

  lemma SaysReplace(t: Tree, x: seq<Tree>, k: Tree, v: Tree, z: seq<Tree>, g: Tree, m: map<nat, seq<Sem>>)
    requires t.kids == x + [k] + z && SaysSame(k, v, g, m)
    ensures SaysSame(t, t.(kids := x + [v] + z), g, m)
  {
    hide ReadF, HoldsF, DirectF, KeysF, LeafUsesF, ReadT, HoldsT, DirectT, KeysT, LeafUsesT;
    Parts(x, k, z, m);
    Parts(x, v, z, m);
    var h := x + [v] + z;
    MiddleSum(multiset(KeysF(x)), multiset(KeysT(k)), multiset(KeysT(v)), multiset(KeysF(z)), multiset(KeysT(g)));
    assert SaysSameF(t.kids, h, g, m);
    SaysNode(t, h, g, m);
  }

  lemma MiddleSum(x: multiset<GroupKey>, k: multiset<GroupKey>, v: multiset<GroupKey>, z: multiset<GroupKey>,
                  g: multiset<GroupKey>)
    requires v + g == k
    ensures x + v + z + g == x + k + z
  {
  }

  // ----- To the end of the root -----

  lemma RootMove(t: Tree, q: Path)
    requires q != [] && ValidPath(t, q)
    ensures !(q <= [])
    ensures var cut := DeleteSubtree(t, q);
            MoveTo(t, q, [], |t.kids|) == cut.(kids := cut.kids + [At(t, q)])
  {
    var cut := DeleteSubtree(t, q);
    if |q| == 1 {
      assert q == [q[0]];
      CutHere(t, q[0]);
      assert Up(q) == [] && Last(q) == q[0];
    } else {
      CutInside(t, q);
      assert Up(q) != [];
    }
    assert cut.kids[..|cut.kids|] + [At(t, q)] + cut.kids[|cut.kids|..] == cut.kids + [At(t, q)];
  }

  lemma MoveSays(t: Tree, q: Path, m: map<nat, seq<Sem>>)
    requires q != [] && ValidPath(t, q) && At(t, q).data.typ == Grouping && LeafUsesT(t)
    ensures !(q <= [])
    ensures var u := MoveTo(t, q, [], |t.kids|);
            && u.id == t.id && u.data == t.data && ReadT(u, m) == ReadT(t, m) && DirectT(u) == DirectT(t)
            && (HoldsT(t, m) <==> HoldsT(u, m)) && LeafUsesT(u) && multiset(KeysT(u)) == multiset(KeysT(t))
  {
    RootMove(t, q);
    CutSays(t, q, m);
    var cut, g := DeleteSubtree(t, q), At(t, q);
    GroupSays(g, m);
    RootKids(t, q);
    AppendSays(cut, g, m);
  }

  lemma RootKids(t: Tree, q: Path)
    requires q != [] && ValidPath(t, q) && LeafUsesT(t)
    ensures t.data.typ != Uses
  {
  }

  lemma AppendSays(t: Tree, g: Tree, m: map<nat, seq<Sem>>)
    requires g.data.typ == Grouping && t.data.typ != Uses
    ensures var u := t.(kids := t.kids + [g]);
            && ReadT(u, m) == ReadT(t, m) && DirectT(u) == DirectT(t)
            && (HoldsT(t, m) && HoldsT(g, m) <==> HoldsT(u, m)) && (LeafUsesT(t) && LeafUsesT(g) ==> LeafUsesT(u))
            && multiset(KeysT(u)) == multiset(KeysT(t)) + multiset(KeysT(g))
  {
    TwoForests(t.kids, [g], m);
    OneTree(g, m);
    GroupSays(g, m);
    KeysNode(t);
    KeysNode(t.(kids := t.kids + [g]));
    assert ReadF(t.kids, m) + [] == ReadF(t.kids, m) && DirectF(t.kids) + [] == DirectF(t.kids);
    hide ReadF, HoldsF, DirectF, KeysF, LeafUsesF, KeysT;
  }

  /** Node properties and ids are the same after the move. */
  lemma MoveIds(t: Tree, q: Path, p: (nat, Data) -> bool)
    requires q != [] && ValidPath(t, q) && All(FlatT(t), p)
    ensures !(q <= [])
    ensures var u := MoveTo(t, q, [], |t.kids|); IdsT(u) == IdsT(t) && All(FlatT(u), p)
  {
    hide *;
    RootMove(t, q);
    RootValid(t);
    var cut, g := DeleteSubtree(t, q), At(t, q);
    var u := MoveTo(t, q, [], |t.kids|);
    CutIsPut(t, q, p);
    PutAll(t, q, [], p);
    PutIds(t, q, []);
    AllAt(t, q, p);
    OneFlat(g);
    IdsConcat(cut.kids, [g]);
    AllNode(cut, p);
    AllNode(u, p);
    AllTwo(cut.kids, [g], p);
    IdsNode(cut);
    IdsNode(u);
    assert IdsT(u) == IdsT(cut) + IdsT(g);
    assert IdsT(t) == IdsT(t) + multiset{};
  }

  lemma RootValid(t: Tree)
    ensures ValidPath(t, []) && At(t, []) == t
  {
  }

  lemma CutIsPut(t: Tree, q: Path, p: (nat, Data) -> bool)
    requires q != [] && ValidPath(t, q)
    ensures Put(t, q, []) == DeleteSubtree(t, q) && All(FlatF([]), p) && IdsF([]) == multiset{}
  {
  }

  // ----- The move phase -----

  /** Both trees say the same, whatever the groupings hold, and give groupings the same contents. */
  ghost predicate SameReading(t: Tree, u: Tree) {
    forall m :: ReadT(t, m) == ReadT(u, m) && (HoldsT(t, m) <==> HoldsT(u, m))
  }

  /** The first `k` of `sort` stand in this order at the end of the root, and all else says the same. */
  ghost predicate Arranged(t: Tree, t0: Tree, sort: seq<nat>, k: nat, p: (nat, Data) -> bool) {
    && SameReading(t, t0) && DirectT(t) == DirectT(t0) && LeafUsesT(t)
    && multiset(KeysT(t)) == multiset(KeysT(t0)) && IdsT(t) == IdsT(t0) && Distinct(IdsT(t)) && All(FlatT(t), p)
    && t.data == t0.data && Tail(t.kids, sort, k)
  }

  /** The main list first, then groupings, of which the last `k` are sorted. */
  ghost predicate Tail(f: seq<Tree>, sort: seq<nat>, k: nat) {
    && k <= |sort| && k < |f| && f[0].data.typ == List
    && (forall i :: 0 < i < |f| ==> f[i].data.typ == Grouping)
    && (forall i :: 0 <= i < k ==> f[|f| - k + i].id == sort[i])
  }

  lemma TailAppend(f: seq<Tree>, sort: seq<nat>, k: nat, g: Tree)
    requires Tail(f, sort, k) && k < |sort| && g.id == sort[k] && g.data.typ == Grouping
    ensures Tail(f + [g], sort, k + 1)
  {
    var h := f + [g];
    forall i | 0 <= i < k + 1 ensures h[|h| - (k + 1) + i].id == sort[i] {
      if i < k { assert h[|h| - (k + 1) + i] == f[|f| - k + i]; }
    }
  }

  lemma TailDiffers(f: seq<Tree>, sort: seq<nat>, k: nat, j: nat)
    requires Tail(f, sort, k) && k < |sort| && NoTwice(sort) && j < |f|
    ensures j >= |f| - k ==> f[j].id != sort[k]
  {
    if j >= |f| - k {
      var i := j - (|f| - k);
      assert f[|f| - k + i].id == sort[i] != sort[k];
    }
  }

  lemma TailRemove(f: seq<Tree>, sort: seq<nat>, k: nat, j: nat)
    requires Tail(f, sort, k) && k < |sort| && NoTwice(sort) && j < |f| && f[j].id == sort[k]
             && f[j].data.typ == Grouping
    ensures Tail(f[..j] + f[j + 1..], sort, k)
  {
    var h := f[..j] + f[j + 1..];
    TailDiffers(f, sort, k, j);
    forall i | 0 <= i < k ensures h[|h| - k + i].id == sort[i] {
      assert h[|h| - k + i] == f[|f| - k + i];
    }
  }

  lemma TailUpdate(f: seq<Tree>, sort: seq<nat>, k: nat, j: nat, v: Tree)
    requires Tail(f, sort, k) && j < |f| && v.id == f[j].id && v.data == f[j].data
    ensures Tail(f[..j] + [v] + f[j + 1..], sort, k)
  {
    var h := f[..j] + [v] + f[j + 1..];
    assert forall i :: 0 <= i < |f| ==> h[i].id == f[i].id && h[i].data == f[i].data;
  }

  lemma CutTail(t: Tree, q: Path, sort: seq<nat>, k: nat)
    requires q != [] && ValidPath(t, q) && At(t, q).data.typ == Grouping
    requires Tail(t.kids, sort, k) && k < |sort| && NoTwice(sort) && At(t, q).id == sort[k]
    ensures Tail(DeleteSubtree(t, q).kids, sort, k)
  {
    var j := q[0];
    if |q| == 1 {
      assert q == [j];
      CutHere(t, j);
      TailRemove(t.kids, sort, k, j);
    } else {
      CutInside(t, q);
      CutSays(t.kids[j], q[1..], map[]);
      TailUpdate(t.kids, sort, k, j, DeleteSubtree(t.kids[j], q[1..]));
    }
  }

  lemma MoveReading(t: Tree, t0: Tree, q: Path)
    requires q != [] && ValidPath(t, q) && At(t, q).data.typ == Grouping && LeafUsesT(t) && SameReading(t, t0)
    ensures !(q <= []) && SameReading(MoveTo(t, q, [], |t.kids|), t0)
  {
    hide ReadT, DirectT, HoldsT, LeafUsesT, KeysT, MoveTo, At;
    MoveSays(t, q, map[]);
    RootValid(t);
    var u := MoveTo(t, q, [], |t.kids|);
    forall m ensures ReadT(u, m) == ReadT(t0, m) && (HoldsT(u, m) <==> HoldsT(t0, m)) {
      MoveSays(t, q, m);
      assert ReadT(t, m) == ReadT(t0, m);
    }
  }

  /** One grouping is moved. */
  lemma ArrangeStep(t: Tree, t0: Tree, sort: seq<nat>, k: nat, p: (nat, Data) -> bool, q: Path)
    requires Arranged(t, t0, sort, k, p) && k < |sort| && NoTwice(sort)
    requires q != [] && ValidPath(t, q) && At(t, q).data.typ == Grouping && At(t, q).id == sort[k]
    ensures !(q <= []) && Arranged(MoveTo(t, q, [], |t.kids|), t0, sort, k + 1, p)
  {
    hide ReadT, DirectT, HoldsT, LeafUsesT, KeysT, IdsT, FlatT, All, MoveTo, DeleteSubtree, At, Distinct, Tail,
         SameReading;
    MoveSays(t, q, map[]);
    MoveReading(t, t0, q);
    MoveIds(t, q, p);
    RootMove(t, q);
    CutTail(t, q, sort, k);
    TailAppend(DeleteSubtree(t, q).kids, sort, k, At(t, q));
  }
}
