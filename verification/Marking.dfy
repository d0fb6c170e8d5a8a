/** ay_ynode_set_ref as a function: which nodes are marked for which class. */
module Marking {
  import opened YNodes
  import opened RoseTree
  import opened TreeLinks
  import opened TreeEdits
  import opened Expansion
  import opened MarkingSteps

  /** What the pass asks about single nodes, named by id: whether the when paths allow a grouping, the lens
      of a recursion, and whether the node is split into several nodes later. */
  datatype Rules = Rules(fit: nat -> bool, body: nat -> nat, splittable: nat -> bool)

  // ----- Equality of nodes -----

  /** ay_ynode_equal with ignore_when; `lone` tells that one of the two has no siblings. */
  predicate SameNode(x: Cell, y: Cell, lone: bool, ignoreChoice: bool) {
    var a, b := x.data, y.data;
    var mask := if ignoreChoice then CMP_MASK - {ChoiceMandFalse} else CMP_MASK;
    && x.desc == y.desc && a.typ == b.typ && a.labelLens == b.labelLens && a.valueLens == b.valueLens
    && a.snode.None? == b.snode.None?
    && (ignoreChoice || lone || a.choice.None? == b.choice.None?)
    && (a.typ == Leafref || a.ref == b.ref)
    && a.flags * mask == b.flags * mask
    && (a.typ == List ==> a.minElems == b.minElems)
  }

  /** The node at index `i` is the only child. */
  predicate Lone(t: Tree, i: nat)
    requires i < Size(t)
  {
    var l := LinkT(t, 0, NULL, NULL);
    l[i].next == NULL && 0 <= l[i].parent < Size(t) && l[l[i].parent].child == i
  }

  predicate EqualAt(t: Tree, i: nat, j: nat, ignoreChoice: bool)
    requires i < Size(t) && j < Size(t)
  {
    SameNode(FlatT(t)[i], FlatT(t)[j], Lone(t, i) || Lone(t, j), ignoreChoice)
  }

  predicate EqualPair(t: Tree, i: nat, j: nat, k: nat)
    requires i + k < Size(t) && j + k < Size(t)
  {
    EqualAt(t, i + k, j + k, false)
  }

  /** `n` nodes from index `i` equal those from index `j`. */
  predicate RunEqual(t: Tree, i: nat, j: nat, n: nat)
    requires i + n <= Size(t) && j + n <= Size(t)
  {
    forall k: nat :: k < n ==> EqualPair(t, i, j, k)
  }

  /** ay_ynode_subtree_equal with compare_roots. */
  predicate TreesEqual(t: Tree, i: nat, j: nat)
    requires i < Size(t) && j < Size(t)
  {
    var n := Size(At(t, PathTo(t, i))) - 1;
    PosBound(t, PathTo(t, i));
    PosBound(t, PathTo(t, j));
    i == j || (Size(At(t, PathTo(t, j))) == n + 1 && EqualAt(t, i, j, true) && RunEqual(t, i + 1, j + 1, n))
  }

  /** ay_ynode_inner_nodes_descendants */
  function InnerCount(t: Tree, i: nat): nat
    requires i < Size(t)
  {
    var f := At(t, PathTo(t, i)).kids;
    SizeF(f[InnerIndex(f)..])
  }

  function InnerStart(t: Tree, i: nat): nat
    requires i < Size(t)
  {
    RangeStart(t, PathTo(t, i), InnerIndex(At(t, PathTo(t, i)).kids))
  }

  lemma InnerBound(t: Tree, i: nat)
    requires i < Size(t)
    ensures i < InnerStart(t, i) && InnerStart(t, i) + InnerCount(t, i) == i + Size(At(t, PathTo(t, i))) <= Size(t)
  {
    var p := PathTo(t, i);
    var f := At(t, p).kids;
    var k := InnerIndex(f);
    AllKids(t, p);
    assert f == f[..k] + f[k..];
    SizeConcat(f[..k], f[k..]);
  }

  /** ay_ynode_subtree_equal without compare_roots. */
  predicate InnersEqual(t: Tree, i: nat, j: nat)
    requires i < Size(t) && j < Size(t)
  {
    InnerBound(t, i);
    InnerBound(t, j);
    i == j || (InnerCount(t, i) != 0 && InnerCount(t, i) == InnerCount(t, j)
               && RunEqual(t, InnerStart(t, i), InnerStart(t, j), InnerCount(t, i)))
  }

  /** ay_ynode_inner_node_alone */
  predicate InnerAlone(t: Tree, i: nat)
    requires 0 < i < Size(t)
  {
    var q := PathTo(t, i);
    UpValid(t, q);
    var f := At(t, Up(q)).kids;
    InnerIndex(f) == Last(q) == |f| - 1
  }

  // ----- One class -----

  datatype Match = Whole | Inner | No

  /** How the node at index `j` matches the one at `i`. */
  function MatchOf(t: Tree, i: nat, j: nat): Match
    requires 0 < i < Size(t) && 0 < j < Size(t)
  {
    var m := At(t, PathTo(t, j));
    if m.data.typ == List && TreesEqual(t, i, j) then Whole
    else if m.data.typ == Container
            && ((InnerAlone(t, i) && InnerAlone(t, j)) || InnerCount(t, j) == 0) && TreesEqual(t, i, j) then Whole
    else if InnerCount(t, i) != 0 && InnersEqual(t, i, j) then Inner
    else No
  }

  /** A single inner node is not worth a grouping, unless a matching node is split later. */
  predicate Poor(t: Tree, i: nat)
    requires i < Size(t)
  {
    var f := At(t, PathTo(t, i)).kids;
    |f| == InnerIndex(f) + 1
  }

  /** The tree so far, whether whole and inner matches were found, and whether one of them is splittable. */
  datatype Found = Found(tree: Tree, whole: bool, inner: bool, splittable: bool)

  lemma MarkSize(t: Tree, j: nat, d: Data)
    requires j < Size(t)
    ensures Size(SetData(t, PathTo(t, j), d)) == Size(t) && j + Size(At(t, PathTo(t, j))) <= Size(t)
  {
    SetDataFlat(t, PathTo(t, j), d);
    PosBound(t, PathTo(t, j));
  }

  /** One round of the inner loop at index `j`, for the class of the node at index `i`, whose id is `r`. */
  function Step(f: Found, i: nat, r: nat, j: nat, rules: Rules): (s: (Found, nat))
    requires 0 < i < j < Size(f.tree)
    ensures Size(s.0.tree) == Size(f.tree) && j < s.1 <= Size(f.tree)
  {
    var t := f.tree;
    var q := PathTo(t, j);
    var m := At(t, q);
    MarkSize(t, j, Mark(m.data, r, false));
    MarkSize(t, j, Mark(m.data, r, true));
    if m.data.ref != 0 then (f, j + Size(m))
    else if !rules.fit(m.id) then (f, j + 1)
    else
      match MatchOf(t, i, j)
      case Whole => (f.(tree := SetData(t, q, Mark(m.data, r, false)), whole := true), j + Size(m))
      case Inner =>
        var splittable := f.splittable || rules.splittable(m.id);
        if !splittable && Poor(t, i) then (f.(splittable := splittable), j + 1)
        else (Found(SetData(t, q, Mark(m.data, r, true)), f.whole, true, splittable), j + Size(m))
      case No => (f, j + 1)
  }

  /** The inner loop from index `j` on. */
  function Seek(f: Found, i: nat, r: nat, j: nat, rules: Rules): (g: Found)
    requires 0 < i < j <= Size(f.tree)
    ensures Size(g.tree) == Size(f.tree)
    decreases Size(f.tree) - j
  {
    if j == Size(f.tree) then f
    else
      var s := Step(f, i, r, j, rules);
      Seek(s.0, i, r, s.1, rules)
  }

  /** The recursion a node is in: the nearest one at `q` or above. */
  function RecAbove(t: Tree, q: Path): Option<nat>
    requires ValidPath(t, q)
    decreases |q|
  {
    if At(t, q).data.typ == Rec then Some(At(t, q).id)
    else if q == [] then None
    else
      UpValid(t, q);
      RecAbove(t, Up(q))
  }

  predicate Recursive(t: Tree, b: nat, rec: nat, rules: Rules)
    requires b < Size(t)
  {
    FlatT(t)[b].data.typ == Leafref && rules.body(FlatT(t)[b].id) == rules.body(rec)
  }

  /** ay_ynode_set_ref_leafref_restriction: a leafref below `q` leads back to the recursion that `q` is in. */
  predicate Restricted(t: Tree, q: Path, rules: Rules)
    requires q != [] && ValidPath(t, q)
  {
    UpValid(t, q);
    PosBound(t, q);
    var rec := RecAbove(t, Up(q));
    rec.Some? && exists b: nat :: Pos(t, q) < b < Pos(t, q) + Size(At(t, q)) && Recursive(t, b, rec.value, rules)
  }

  /** Whether the node at `q` may be the first node of a class. */
  predicate Candidate(t: Tree, q: Path, rules: Rules)
    requires q != [] && ValidPath(t, q)
  {
    UpValid(t, q);
    var d := At(t, q).data;
    && !(d.typ == List && At(t, Up(q)).data.typ == Root)
    && (d.typ == Container || d.typ == List) && !Restricted(t, q, rules) && rules.fit(At(t, q).id)
  }

  predicate BelowRec(t: Tree, q: Path)
    requires q != [] && ValidPath(t, q)
  {
    UpValid(t, q);
    At(t, Up(q)).data.typ == Rec
  }

  /** The search for the class of the node at index `i`. */
  function ClassSeek(t: Tree, i: nat, rules: Rules): (f: Found)
    requires 0 < i < Size(t)
    ensures Size(f.tree) == Size(t) && ValidPath(f.tree, PathTo(t, i)) && i + Size(At(t, PathTo(t, i))) <= Size(t)
  {
    var q := PathTo(t, i);
    var l := At(t, q);
    PosBound(t, q);
    SeekShape(Found(t, false, false, false), i, l.id, i + Size(l), rules, q);
    Seek(Found(t, false, false, false), i, l.id, i + Size(l), rules)
  }

  /** The class of the node at index `i`; also tells whether whole and inner matches were mixed in it. */
  function MarkClass(t: Tree, i: nat, rules: Rules): (r: (Tree, bool))
    requires 0 < i < Size(t)
    ensures Size(r.0) == Size(t)
  {
    var q := PathTo(t, i);
    var l := At(t, q);
    var f := ClassSeek(t, i, rules);
    MarkAtSize(f.tree, q, Mark(l.data, l.id, f.inner));
    (if f.inner || f.whole then SetData(f.tree, q, Mark(l.data, l.id, f.inner)) else f.tree, f.inner && f.whole)
  }

  lemma MarkAtSize(t: Tree, q: Path, d: Data)
    requires ValidPath(t, q)
    ensures Size(SetData(t, q, d)) == Size(t)
  {
    SetDataFlat(t, q, d);
  }

  /** What one round does to the tree. */
  lemma StepTree(f: Found, i: nat, r: nat, j: nat, rules: Rules)
    requires 0 < i < j < Size(f.tree)
    ensures var s := Step(f, i, r, j, rules).0;
            var q := PathTo(f.tree, j);
            s.tree == f.tree || s.tree == SetData(f.tree, q, Mark(At(f.tree, q).data, r, true))
            || s.tree == SetData(f.tree, q, Mark(At(f.tree, q).data, r, false))
  {
  }

  lemma {:induction false} SeekShape(f: Found, i: nat, r: nat, j: nat, rules: Rules, q: Path)
    requires 0 < i < j <= Size(f.tree) && ValidPath(f.tree, q)
    ensures ValidPath(Seek(f, i, r, j, rules).tree, q)
    decreases Size(f.tree) - j
  {
    if j < Size(f.tree) {
      hide SetData, Step, Mark;
      var p := PathTo(f.tree, j);
      StepTree(f, i, r, j, rules);
      SetDataPath(f.tree, p, Mark(At(f.tree, p).data, r, false), q);
      SetDataPath(f.tree, p, Mark(At(f.tree, p).data, r, true), q);
      var s := Step(f, i, r, j, rules);
      SeekShape(s.0, i, r, s.1, rules, q);
    }
  }

  /** Setting data moves no node. */
  lemma {:induction false} SetDataPath(t: Tree, p: Path, d: Data, q: Path)
    requires ValidPath(t, p) && ValidPath(t, q)
    ensures var u := SetData(t, p, d); ValidPath(u, q) && Pos(u, q) == Pos(t, q) && Size(At(u, q)) == Size(At(t, q))
    decreases |q|
  {
    var u := SetData(t, p, d);
    SetDataFlat(t, p, d);
    if q != [] {
      var k := q[0];
      if p != [] {
        if p[0] == k {
          SetDataPath(t.kids[k], p[1..], d, q[1..]);
          assert u.kids[..k] == t.kids[..k];
        } else {
          assert u.kids[k] == t.kids[k];
          SetDataOff(t, p, d, k);
        }
      }
    }
  }

  lemma SetDataOff(t: Tree, p: Path, d: Data, k: nat)
    requires p != [] && ValidPath(t, p) && k <= |t.kids|
    ensures Off(SetData(t, p, d), k) == Off(t, k)
  {
    var j := p[0];
    var v := SetData(t.kids[j], p[1..], d);
    var f, g := t.kids, t.kids[j := v];
    SetDataFlat(t.kids[j], p[1..], d);
    if k <= j {
      assert g[..k] == f[..k];
    } else {
      SetDataFlat(t, p, d);
      assert g[..k] == f[..k][j := v];
      FlatReplace(f[..k], j, v);
      FlatSplit(f[..k], j);
    }
  }

  // ----- All classes -----

  /** The outer loop from index `i` on; also tells whether some class is mixed. */
  function MarkFrom(t: Tree, i: nat, rules: Rules): (Tree, bool)
    requires 0 < i <= Size(t)
    decreases Size(t) - i
  {
    if i == Size(t) then (t, false)
    else
      var q := PathTo(t, i);
      PosBound(t, q);
      if At(t, q).data.ref != 0 && !BelowRec(t, q) then MarkFrom(t, i + Size(At(t, q)), rules)
      else if !Candidate(t, q, rules) then MarkFrom(t, i + 1, rules)
      else
        var c := MarkClass(t, i, rules);
        var rest := MarkFrom(c.0, i + 1, rules);
        (rest.0, c.1 || rest.1)
  }
}
