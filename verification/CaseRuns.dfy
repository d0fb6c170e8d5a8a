/** Merges anywhere in a tree: each makes progress in an order without infinite descent. */
module CaseRuns {
  import opened YNodes
  import opened RoseTree
  import opened CaseMerging
  import opened CaseCounts
  import opened CaseMerges
  import Marking

  // ----- The ways to merge -----

  /** ay_ynode_equal with attention to when. */
  predicate NodesEqual(a: Tree, b: Tree, lone: bool, ignoreChoice: bool) {
    && Marking.SameNode(Cell(a.id, a.data, SizeF(a.kids)), Cell(b.id, b.data, SizeF(b.kids)), lone, ignoreChoice)
    && a.data.when.Some? == b.data.when.Some?
    && (a.data.when.Some? ==> a.data.when.value.target == b.data.when.value.target)
  }

  /** Equal siblings, with all below them. */
  predicate KidsEqual(f: seq<Tree>, g: seq<Tree>) {
    |f| == |g| && forall i ::
      0 <= i < |f| ==> NodesEqual(f[i], g[i], |f| == 1, false) && KidsEqual(f[i].kids, g[i].kids)
  }

  /** ay_ynode_subtree_equal with compare_roots, for siblings one by one. */
  predicate RootsEqual(f: seq<Tree>, g: seq<Tree>) {
    |f| == |g| && forall i :: 0 <= i < |f| ==> NodesEqual(f[i], g[i], false, true) && KidsEqual(f[i].kids, g[i].kids)
  }

  /** ay_ynode_merge_cases_only_by_repetition: lone nodes, one of them a list. */
  predicate Repeats(a: Tree, b: Tree) {
    && a.kids == [] && b.kids == []
    && (a.data.valueLens.Some? && b.data.valueLens.Some? ==> a.data.valueLens == b.data.valueLens)
    && ((a.data.typ == List && b.data.typ in {Leaf, Container})
       || (b.data.typ == List && a.data.typ in {Leaf, Container}))
  }

  function Repeated(a: Tree, b: Tree): Tree {
    var c := if b.data.typ == List then b else a;
    c.(data := c.data.(minElems := if c.data.minElems > 0 then 1 else 0))
  }

  /** ay_ynode_merge_cases_only_by_value: branches of one form that differ in the value of the first node at most. */
  predicate SameBut(a: Tree, b: Tree)
    requires Sound(a) && Sound(b)
  {
    && IsCase(a) == IsCase(b) && RootsEqual(Rest(a), Rest(b)) && KidsEqual(First(a).kids, First(b).kids)
  }

  /** The first node takes up the value. */
  function Revalued(x: Tree, y: Tree): Tree {
    var v1, v2 := x.data.valueLens, y.data.valueLens;
    x.(data := x.data.(
      valueLens := if v1.Some? then v1 else v2,
      flags := x.data.flags + if v1.Some? == v2.Some? then {} else {ValueMandFalse},
      minElems := if y.data.typ == List && y.data.minElems <= x.data.minElems then y.data.minElems
        else x.data.minElems))
  }

  function Valued(a: Tree, b: Tree): Tree
    requires Sound(a) && Sound(b)
  {
    if IsCase(a) then a.(kids := [Revalued(First(a), First(b))] + Rest(a)) else Revalued(a, First(b))
  }

  /** The program follows NULL. */
  predicate Blocked(a: Tree, b: Tree)
    requires Sound(a) && Sound(b)
  {
    !Repeats(a, b) && !SameBut(a, b) && Fails(a, b)
  }

  /** What the first of two branches becomes. */
  function Union(a: Tree, b: Tree, n: nat): Tree
    requires Sound(a) && Sound(b) && !Blocked(a, b)
  {
    if Repeats(a, b) then Repeated(a, b)
    else if SameBut(a, b) then Valued(a, b)
    else MergeBranches(a, b, n)
  }

  predicate Drop(a: Tree, b: Tree)
    requires Sound(a) && Sound(b)
  {
    !Repeats(a, b) && !SameBut(a, b) && Loses(a, b)
  }

  // ----- Steps -----

  /** ay_ynode_cmp_choice_branches, for branches of one choice with all between them in it. */
  predicate Partners(f: seq<Tree>, i: nat, j: nat)
    requires SoundF(f)
  {
    && i < j < |f| && f[i].data.choice.Some?
    && (forall k :: i < k <= j ==> f[k].data.choice == f[i].data.choice)
    && f[i].data.when.None? && f[j].data.when.None? && Matching(f[i], f[j])
  }

  /** The second branch goes. A case made of the first one makes the program set a flag behind it, for want of a
      pointer to the node inside. */
  function Fused(f: seq<Tree>, i: nat, j: nat, r: Tree): (g: seq<Tree>)
    requires i < j < |f|
    ensures |g| == |f| - 1 && g[i] == r
  {
    var stray := if IsCase(r) && !IsCase(f[i]) then {ChoiceMandFalse} else {};
    f[..i] + [r] + FlagAt(f[i + 1..j], stray) + f[j + 1..]
  }

  /** ay_ynode_alone_in_choice */
  predicate Alone(f: seq<Tree>, i: nat)
    requires i < |f|
  {
    var c := f[i].data.choice;
    && c.Some? && (forall k :: 0 <= k < i ==> f[k].data.choice != c)
    && (i + 1 < |f| ==> f[i + 1].data.choice != c)
  }

  /** The children of a deleted node know if they all were optional. */
  function Released(t: Tree): (f: seq<Tree>)
    ensures |f| == |t.kids| && forall k :: 0 <= k < |f| ==> f[k] == Flagged(t.kids[k], Hints(t.data.flags))
  {
    seq(|t.kids|, k requires 0 <= k < |t.kids| => Flagged(t.kids[k], Hints(t.data.flags)))
  }

  function Hints(fs: set<Flag>): set<Flag> {
    if ChildrenMandFalse in fs then {HintMandFalse} else {}
  }

  /** A branch alone in its choice is in none any more; a case is replaced by its children. */
  function Freed(f: seq<Tree>, i: nat): seq<Tree>
    requires i < |f|
  {
    if IsCase(f[i]) then
      var g := f[..i] + Released(f[i]) + f[i + 1..];
      Untimed(if |g| == 1 then [Chosen(g[0], None)] else g, i)
    else Untimed(f[i := Chosen(f[i], None)], i)
  }

  function Untimed(f: seq<Tree>, i: nat): seq<Tree> {
    if i < |f| then f[i := Timed(f[i], None)] else f
  }

  function Settle(f: seq<Tree>, i: nat): seq<Tree>
    requires i < |f|
  {
    if Alone(f, i) then Freed(f, i) else f
  }

  /** One merge among the children of a node. */
  function StepTree(t: Tree, i: nat, j: nat, n: nat): Tree
    requires SoundF(t.kids) && Partners(t.kids, i, j) && !Blocked(t.kids[i], t.kids[j])
  {
    t.(kids := Settle(Fused(t.kids, i, j, Union(t.kids[i], t.kids[j], n)), i))
  }

  predicate StepAt(t: Tree, u: Tree, lost: bool, i: nat, j: nat, n: nat)
    requires SoundF(t.kids)
  {
    && Partners(t.kids, i, j) && !Blocked(t.kids[i], t.kids[j])
    && u == StepTree(t, i, j, n) && lost == Drop(t.kids[i], t.kids[j])
  }

  /** One merge anywhere below a node; `lost` tells whether nodes were dropped. */
  ghost predicate Step(t: Tree, u: Tree, lost: bool)
    requires SoundF(t.kids)
  {
    || (exists i: nat, j: nat, n: nat :: StepAt(t, u, lost, i, j, n))
    || (exists i: nat :: StepBelow(t, u, lost, i))
  }

  ghost predicate StepBelow(t: Tree, u: Tree, lost: bool, i: nat)
    requires SoundF(t.kids)
  {
    && i < |t.kids| && i < |u.kids| && u == t.(kids := t.kids[i := u.kids[i]])
    && (SoundKids(t, i); Step(t.kids[i], u.kids[i], lost))
  }

  lemma SoundKids(t: Tree, i: nat)
    requires SoundF(t.kids) && i < |t.kids|
    ensures Sound(t.kids[i]) && SoundF(t.kids[i].kids)
  {
    SoundNode(t.kids[i]);
  }

  // ----- Progress -----

  /** Fewer nodes that are no cases; or more of them below others; or fewer cases that begin with one; or these in
      longer chains. */
  ghost predicate Better(t: Tree, u: Tree) {
    && IsCase(t) == IsCase(u)
    && (|| Plain(u) < Plain(t)
        || (Plain(u) == Plain(t) && Under(u) > Under(t))
        || (Plain(u) == Plain(t) && Under(u) == Under(t) && Nested(u) < Nested(t))
        || (Plain(u) == Plain(t) && Under(u) == Under(t) && Nested(u) == Nested(t) && Depth(u) > Depth(t)
           && Chain(u) >= Chain(t)))
  }

  ghost predicate NotWorse(t: Tree, u: Tree) {
    && IsCase(t) == IsCase(u) && Plain(u) == Plain(t) && Under(u) == Under(t)
    && (Nested(u) < Nested(t) || (Nested(u) == Nested(t) && Depth(u) == Depth(t) && Chain(u) == Chain(t)))
  }

  lemma BetterBetter(t: Tree, u: Tree, v: Tree)
    requires Better(t, u) && (Better(u, v) || NotWorse(u, v))
    ensures Better(t, v)
  {
    hide Plain, Under, Nested, Depth, Chain;
  }

  /** The order has no infinite descent: what may grow is bounded. */
  lemma {:induction false} Bounds(t: Tree)
    ensures Under(t) <= Plain(t) * Plain(t) && Chain(t) <= Nested(t) && Depth(t) <= Nested(t) * Nested(t)
    decreases t, 1
  {
    BoundsF(t.kids);
    Squares(NestedF(t.kids), 1);
    Squares(PlainF(t.kids), 1);
  }

  lemma {:induction false} BoundsF(f: seq<Tree>)
    ensures UnderF(f) <= PlainF(f) * PlainF(f)
    ensures Head(f) <= NestedF(f) + 1 && DepthF(f) <= NestedF(f) * NestedF(f)
    decreases f, 0
  {
    if f != [] {
      Bounds(f[0]);
      BoundsF(f[1..]);
      Squares(Nested(f[0]), NestedF(f[1..]));
      Squares(Plain(f[0]), PlainF(f[1..]));
    }
  }

  lemma Squares(a: nat, b: nat)
    ensures a * a + b * b <= (a + b) * (a + b) && a + 1 + a * a <= (a + 1) * (a + 1)
  {
    assert (a + b) * (a + b) == a * a + 2 * (a * b) + b * b;
    assert a * b >= 0;
  }

  /** What is left to the bounds. */
  function Room(t: Tree): nat {
    Bounds(t);
    Plain(t) * Plain(t) - Under(t)
  }

  function Slack(t: Tree): nat {
    Bounds(t);
    Nested(t) * Nested(t) - Depth(t)
  }

  // ----- In context -----

  /** A middle part of a forest. */
  lemma MiddleCounts(f: seq<Tree>, g: seq<Tree>, h: seq<Tree>)
    ensures PlainF(f + g + h) == PlainF(f) + PlainF(g) + PlainF(h)
    ensures UnderF(f + g + h) == UnderF(f) + UnderF(g) + UnderF(h)
    ensures NestedF(f + g + h) == NestedF(f) + NestedF(g) + NestedF(h)
    ensures DepthF(f + g + h) == DepthF(f) + DepthF(g) + DepthF(h)
    ensures forall q :: AmongF(f + g + h, q) == AmongF(f, q) + AmongF(g, q) + AmongF(h, q)
  {
    hide PlainF, UnderF, NestedF, DepthF, AmongF;
    CountConcat(f + g, h);
    CountConcat(f, g);
  }

  lemma KidParts(f: seq<Tree>, i: nat, c: Tree)
    requires i < |f|
    ensures f == f[..i] + [f[i]] + f[i + 1..] && f[i := c] == f[..i] + [c] + f[i + 1..]
  {
  }

  /** The counts of a node with one child replaced. */
  lemma KidCounts(t: Tree, i: nat, c: Tree)
    requires i < |t.kids|
    ensures var k, u := t.kids[i], t.(kids := t.kids[i := c]);
            && Plain(u) + Plain(k) == Plain(t) + Plain(c)
            && PlainF(u.kids) + Plain(k) == PlainF(t.kids) + Plain(c)
            && UnderF(u.kids) + Under(k) == UnderF(t.kids) + Under(c)
            && NestedF(u.kids) + Nested(k) == NestedF(t.kids) + Nested(c)
            && DepthF(u.kids) + Depth(k) == DepthF(t.kids) + Depth(c)
            && (forall q :: Among(u, q) + Among(k, q) == Among(t, q) + Among(c, q))
  {
    hide PlainF, UnderF, NestedF, DepthF, AmongF, Plain, Under, Nested, Depth, Among, Chain, Head;
    var u := t.(kids := t.kids[i := c]);
    KidParts(t.kids, i, c);
    MiddleCounts(t.kids[..i], [t.kids[i]], t.kids[i + 1..]);
    MiddleCounts(t.kids[..i], [c], t.kids[i + 1..]);
    CountOne(t.kids[i]);
    CountOne(c);
    CountNode(t);
    CountNode(u);
    forall q ensures Answers(q, t) == Answers(q, u) { }
  }

  lemma BetterKid(t: Tree, i: nat, c: Tree)
    requires i < |t.kids| && Better(t.kids[i], c)
    ensures Better(t, t.(kids := t.kids[i := c]))
  {
    var u := t.(kids := t.kids[i := c]);
    KidCounts(t, i, c);
    NumbersAre(t);
    NumbersAre(u);
    HeadIs(t.kids);
    HeadIs(u.kids);
    assert u.kids[0] == if i == 0 then c else t.kids[0];
    hide PlainF, UnderF, NestedF, DepthF, AmongF, Plain, Under, Nested, Depth, Among, Chain, Head;
  }
}
