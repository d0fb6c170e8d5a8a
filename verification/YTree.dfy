/** The ynode tree as the program stores it: one array in preorder, edited in place. */
module YTree {
  import opened YNodes
  import opened RoseTree
  import opened TreeLinks
  import opened TreeEdits
  import opened TreeMoves

  /** `struct ay_ynode`: one array element. */
  datatype YNode = YNode(id: nat, data: Data, descendants: int, parent: int, child: int, next: int)

  const ZERO: YNode := YNode(0, BLANK, 0, NULL, NULL, NULL)

  function CellOf(n: YNode): Cell { Cell(n.id, n.data, n.descendants) }

  function LinkOf(n: YNode): Link { Link(n.parent, n.child, n.next) }

  /** The preorder cells are those of `t`; the links may be anything. */
  ghost predicate HasCells(s: seq<YNode>, t: Tree) {
    |s| == Size(t) && forall i :: 0 <= i < |s| ==> CellOf(s[i]) == FlatT(t)[i]
  }

  /** Cells and links are those of `t`. */
  ghost predicate Stores(s: seq<YNode>, t: Tree) {
    HasCells(s, t) && forall i :: 0 <= i < |s| ==> LinkOf(s[i]) == LinkT(t, 0, NULL, NULL)[i]
  }

  /**
   Node `n` at index `i` has the links `l`, as far as the correction has got: the children
   of every node before `p` are linked, those of `p` itself up to index `k`.
  */
  ghost predicate Linked(n: YNode, l: Link, i: int, p: int, k: int) {
    && (l.parent < p || (l.parent == p && i < k) ==> n.parent == l.parent && n.next == l.next)
    && (i < p || (i == p && p < k) ==> n.child == l.child)
  }

  ghost predicate AreCells(s: seq<YNode>, c: seq<Cell>) {
    |s| == |c| && forall i :: 0 <= i < |s| ==> CellOf(s[i]) == c[i]
  }

  lemma PatchCells(s: seq<YNode>, c: seq<Cell>, a: nat, b: nat, m: seq<YNode>, mc: seq<Cell>)
    requires AreCells(s, c) && AreCells(m, mc) && a <= b <= |s|
    ensures AreCells(Patch(s, a, b, m), Patch(c, a, b, mc))
  {
  }

  lemma BumpedCells(s: seq<YNode>, r: seq<YNode>, t: Tree, p: Path, d: int, c: seq<Cell>)
    requires ValidPath(t, p) && AreCells(s, c) && |r| == |s|
    requires forall i :: 0 <= i < |s| ==>
      r[i] == if IsAnc(t, p, i) then s[i].(descendants := s[i].descendants + d) else s[i]
    ensures AreCells(r, Bump(c, t, p, d))
  {
  }

  lemma ClosedGap<T>(s: seq<T>, g: seq<T>, i: nat, n: nat)
    requires i + n <= |s| && |g| == |s| - n
    requires forall k :: 0 <= k < i ==> g[k] == s[k]
    requires forall k :: i <= k < |g| ==> g[k] == s[k + n]
    ensures g == Patch(s, i, i + n, [])
  {
  }

  lemma ParentBounds(t: Tree)
    ensures forall i :: 0 <= i < Size(t) ==> LinkT(t, 0, NULL, NULL)[i].parent < Size(t)
    ensures forall i :: 0 < i < Size(t) ==> LinkT(t, 0, NULL, NULL)[i].parent >= 0
  {
    forall i | 0 <= i < Size(t)
      ensures LinkT(t, 0, NULL, NULL)[i].parent < Size(t) && (i > 0 ==> LinkT(t, 0, NULL, NULL)[i].parent >= 0)
    {
      TreeFacts(t, 0, NULL, NULL, i);
    }
  }

  class YTree {
    var nodes: array<YNode>   // its length is the source's arrsize
    var count: nat            // LY_ARRAY_COUNT
    var idcnt: nat
    ghost var tree: Tree

    ghost predicate Valid()
      reads this, nodes
    {
      0 < count <= nodes.Length && Stores(nodes[..count], tree)
    }

    /** ay_ynode_tree_correction: parent, child and next are rebuilt from the counts alone. */
    method TreeCorrection(ghost t: Tree)
      requires 0 < count <= nodes.Length && HasCells(nodes[..count], t)
      requires nodes[0].parent == NULL && nodes[0].next == NULL
      modifies nodes
      ensures Stores(nodes[..count], t)
    {
      hide FlatT, LinkT, Size;
      ghost var c, l := FlatT(t), LinkT(t, 0, NULL, NULL);
      var p := 0;
      ParentBounds(t);
      forall i | 0 <= i < count ensures CellOf(nodes[i]) == c[i] {
        assert nodes[i] == nodes[..count][i];
      }
      while p < count
        invariant 0 <= p <= count
        invariant forall i :: 0 <= i < count ==> CellOf(nodes[i]) == c[i] && Linked(nodes[i], l[i], i, p, i)
      {
        LinkKids(t, p);
        p := p + 1;
      }
    }

    /** One round of the outer loop: the children of `p` are linked. */
    method LinkKids(ghost t: Tree, p: nat)
      requires p < count <= nodes.Length && Size(t) == count
      requires forall i :: 0 <= i < count ==> CellOf(nodes[i]) == FlatT(t)[i]
      requires forall i :: 0 <= i < count ==> Linked(nodes[i], LinkT(t, 0, NULL, NULL)[i], i, p, i)
      modifies nodes
      ensures forall i :: 0 <= i < count ==> CellOf(nodes[i]) == FlatT(t)[i]
      ensures forall i :: 0 <= i < count ==> Linked(nodes[i], LinkT(t, 0, NULL, NULL)[i], i, p + 1, i)
    {
      hide FlatT, LinkT, Size;
      ghost var c, l := FlatT(t), LinkT(t, 0, NULL, NULL);
      FirstKid(t, p);
      var iter := if nodes[p].descendants != 0 then p + 1 else NULL;
      nodes[p] := nodes[p].(child := iter);
      var sum := 0;
      while iter != NULL
        invariant iter != NULL ==> p < iter < count && l[iter].parent == p && sum == iter - p - 1
        invariant forall i :: 0 <= i < count ==>
          CellOf(nodes[i]) == c[i] && Linked(nodes[i], l[i], i, p, if iter == NULL then count else iter)
        decreases if iter == NULL then 0 else count - iter
      {
        NextKid(t, p, iter);
        nodes[iter] := nodes[iter].(parent := p, child := if nodes[iter].descendants != 0 then iter + 1 else NULL);
        sum := sum + nodes[iter].descendants + 1;
        var next := if sum != nodes[p].descendants then iter + nodes[iter].descendants + 1 else NULL;
        nodes[iter] := nodes[iter].(next := next);
        iter := next;
      }
    }

    /** The loops over `iter->parent` in front of every edit: `d` is added to the count of each ancestor. */
    method AddToAncestors(start: nat, d: int, ghost p: Path, ghost c: seq<Cell>)
      requires 0 < count <= nodes.Length && Size(tree) == count && AreCells(nodes[..count], c)
      requires forall i :: 0 <= i < count ==> LinkOf(nodes[i]) == LinkT(tree, 0, NULL, NULL)[i]
      requires ValidPath(tree, p) && start == Pos(tree, p)
      modifies nodes
      ensures AreCells(nodes[..count], Bump(c, tree, p, d))
      ensures forall i :: 0 <= i < count ==> LinkOf(nodes[i]) == LinkT(tree, 0, NULL, NULL)[i]
      ensures forall i :: count <= i < nodes.Length ==> nodes[i] == old(nodes[i])
    {
      hide LinkT, Size, IsAnc, Pos;
      AncSelf(tree, p);
      AncBounds(tree, p, start);
      RootLinks(tree);
      forall i | start < i < count ensures !IsAnc(tree, p, i) {
        if IsAnc(tree, p, i) { AncBounds(tree, p, i); }
      }
      var iter: int := start;
      while iter != NULL
        invariant iter == NULL || (0 <= iter < count && IsAnc(tree, p, iter))
        invariant forall i :: 0 <= i < count ==>
          nodes[i] == (if IsAnc(tree, p, i) && i > iter
                       then old(nodes[i]).(descendants := old(nodes[i]).descendants + d)
                       else old(nodes[i]))
        invariant forall i :: count <= i < nodes.Length ==> nodes[i] == old(nodes[i])
        decreases iter + 1
      {
        forall j | 0 <= j < iter ensures iter > 0 && LinkT(tree, 0, NULL, NULL)[iter].parent < j ==>
          !IsAnc(tree, p, j) {
          AncParent(tree, p, iter, j);
        }
        if iter > 0 { AncParent(tree, p, iter, 0); }
        nodes[iter] := nodes[iter].(descendants := nodes[iter].descendants + d);
        iter := nodes[iter].parent;
      }
      BumpedCells(old(nodes[..count]), nodes[..count], tree, p, d, c);
    }

    /** ay_ynode_insert_gap */
    method InsertGap(index: nat)
      requires index <= count < nodes.Length
      modifies this`count, this`idcnt, nodes
      ensures count == old(count) + 1 && idcnt == old(idcnt) + 1
      ensures nodes[..count] == Patch(old(nodes[..count]), index, index, [ZERO.(id := old(idcnt))])
    {
      forall k | index <= k < count {
        nodes[k + 1] := nodes[k];
      }
      nodes[index] := ZERO;
      count := count + 1;
      nodes[index] := nodes[index].(id := idcnt);
      idcnt := idcnt + 1;
    }

    /** ay_ynode_delete_gap */
    method DeleteGap(index: nat)
      requires index < count <= nodes.Length
      modifies this`count, nodes
      ensures count == old(count) - 1
      ensures nodes[..count] == Patch(old(nodes[..count]), index, index + 1, [])
    {
      hide Patch;
      ghost var s := nodes[..count];
      forall k | index <= k < count - 1 {
        nodes[k] := nodes[k + 1];
      }
      ClosedGap(s, nodes[..count - 1], index, 1);
      nodes[count - 1] := ZERO;
      count := count - 1;
    }

    /** ay_ynode_insert_gap_range: the gap keeps the old contents of its elements, except for their ids. */
    method InsertGapRange(index: nat, items: nat)
      requires index <= count && count + items <= nodes.Length
      modifies this`count, this`idcnt, nodes
      ensures count == old(count) + items && idcnt == old(idcnt) + items
      ensures nodes[..index] == old(nodes[..index])
      ensures nodes[index + items..count] == old(nodes[index..count])
      ensures forall k :: count <= k < nodes.Length ==> nodes[k] == old(nodes[k])
    {
      forall k | index <= k < count {
        nodes[k + items] := nodes[k];
      }
      count := count + items;
      var i := 0;
      while i < items
        invariant 0 <= i <= items && count == old(count) + items && idcnt == old(idcnt) + i
        invariant forall k :: 0 <= k < index ==> nodes[k] == old(nodes[k])
        invariant forall k :: index <= k < old(count) ==> nodes[k + items] == old(nodes[k])
        invariant forall k :: count <= k < nodes.Length ==> nodes[k] == old(nodes[k])
      {
        nodes[index + i] := nodes[index + i].(id := idcnt);
        idcnt := idcnt + 1;
        i := i + 1;
      }
    }

    /** ay_ynode_delete_gap_range */
    method DeleteGapRange(index: nat, items: nat)
      requires index + items <= count <= nodes.Length
      modifies this`count, nodes
      ensures count == old(count) - items
      ensures nodes[..count] == Patch(old(nodes[..count]), index, index + items, [])
      ensures forall k :: old(count) <= k < nodes.Length ==> nodes[k] == old(nodes[k])
    {
      hide Patch;
      ghost var s := nodes[..count];
      forall k | index <= k < count - items {
        nodes[k] := nodes[k + items];
      }
      ClosedGap(s, nodes[..count - items], index, items);
      forall k | count - items <= k < count {
        nodes[k] := ZERO;
      }
      count := count - items;
    }

    /** The common start of the insertions: one more descendant for every ancestor, then the gap. */
    method GapUnder(start: nat, index: nat, ghost p: Path)
      requires Valid() && ValidPath(tree, p) && start == Pos(tree, p) < index <= count < nodes.Length
      modifies this`count, this`idcnt, nodes
      ensures count == old(count) + 1 <= nodes.Length && idcnt == old(idcnt) + 1
      ensures AreCells(nodes[..count], Gapped(tree, p, index, Cell(old(idcnt), BLANK, 0)))
      ensures nodes[0].parent == NULL && nodes[0].next == NULL
    {
      RootLinks(tree);
      hide FlatT, LinkT, Pos, Size, Bump;
      AddToAncestors(start, 1, p, FlatT(tree));
      ghost var s := nodes[..count];
      InsertGap(index);
      PatchCells(s, Bump(FlatT(tree), tree, p, 1), index, index, [ZERO.(id := old(idcnt))],
        [Cell(old(idcnt), BLANK, 0)]);
      assert nodes[0] == nodes[..count][0] == s[0];
    }

    /** The common end of every edit: the links are rebuilt. */
    method Relink(ghost t: Tree)
      requires 0 < count <= nodes.Length && AreCells(nodes[..count], FlatT(t))
      requires nodes[0].parent == NULL && nodes[0].next == NULL
      modifies this`tree, nodes
      ensures Valid() && tree == t
    {
      hide FlatT, LinkT, Size;
      TreeCorrection(t);
      tree := t;
    }

    /** An assignment to the count of one node. */
    method SetDescendants(node: nat, d: int, ghost c: seq<Cell>)
      requires 0 < node < count <= nodes.Length && AreCells(nodes[..count], c)
      modifies nodes
      ensures |c| == count && AreCells(nodes[..count], c[node := c[node].(desc := d)])
      ensures nodes[0] == old(nodes[0])
    {
      ghost var s := nodes[..count];
      nodes[node] := nodes[node].(descendants := d);
      assert nodes[..count] == s[node := nodes[node]];
      assert CellOf(nodes[node]) == CellOf(s[node]).(desc := d);
    }

    /** ay_ynode_insert_wrapper */
    method InsertWrapper(node: nat)
      requires Valid() && 0 < node < count < nodes.Length
      modifies this`count, this`idcnt, this`tree, nodes
      ensures Valid() && idcnt == old(idcnt) + 1
      ensures tree == TreeEdits.InsertWrapper(old(tree), PathTo(old(tree), node), old(idcnt))
    {
      hide Stores, AreCells, LinkT, FlatT, Pos, Size, SizeF, RangeStart, Gapped, At, Up, Last, ValidPath, PathTo;
      CountIsSize(this);
      ghost var t, q, n := tree, PathTo(tree, node), idcnt;
      StoredNode(this, node);
      ParentLink(t, q);
      UpValid(t, q);
      KidNode(t, Up(q), Last(q));
      WrapFlat(t, Up(q), Last(q), Last(q) + 1, n);
      GapCells(t, Up(q), node, Cell(n, BLANK, 0));
      ghost var g := Gapped(t, Up(q), node, Cell(n, BLANK, 0));
      GapUnder(nodes[node].parent, node, Up(q));
      AreCellsAt(nodes[..count], g, node + 1);
      SetDescendants(node, nodes[node + 1].descendants + 1, g);
      Relink(TreeEdits.InsertWrapper(t, q, n));
    }

    /** ay_ynode_insert_parent */
    method InsertParent(child: nat)
      requires Valid() && 0 < child < count < nodes.Length
      modifies this`count, this`idcnt, this`tree, nodes
      ensures Valid() && idcnt == old(idcnt) + 1
      ensures tree == TreeEdits.InsertParent(old(tree), PathTo(old(tree), child), old(idcnt))
    {
      hide Stores, AreCells, LinkT, FlatT, Pos, Size, SizeF, Gapped, At, Up, Last, ValidPath, PathTo,
           TreeEdits.InsertParent;
      CountIsSize(this);
      ghost var t, q, n := tree, PathTo(tree, child), idcnt;
      InsertParentFlat(t, q, n);
      StoredNode(this, child);
      StoredNode(this, nodes[child].parent);
      var index := nodes[nodes[child].parent].child;
      ghost var g := Gapped(t, Up(q), index, Cell(n, BLANK, 0));
      GapUnder(nodes[child].parent, index, Up(q));
      AreCellsAt(nodes[..count], g, index - 1);
      SetDescendants(index, nodes[index - 1].descendants - 1, g);
      Relink(TreeEdits.InsertParent(t, q, n));
    }

    /** ay_ynode_insert_parent_for_rest */
    method InsertParentForRest(child: nat)
      requires Valid() && 0 < child < count < nodes.Length
      modifies this`count, this`idcnt, this`tree, nodes
      ensures Valid() && idcnt == old(idcnt) + 1
      ensures tree == TreeEdits.InsertParentForRest(old(tree), PathTo(old(tree), child), old(idcnt))
    {
      hide Stores, AreCells, LinkT, FlatT, Pos, Size, SizeF, RangeStart, Gapped, At, Up, Last, ValidPath, PathTo;
      CountIsSize(this);
      ghost var t, q, n := tree, PathTo(tree, child), idcnt;
      StoredNode(this, child);
      ParentLink(t, q);
      UpValid(t, q);
      var descendants := RestSize(child);
      WrapFlat(t, Up(q), Last(q), |At(t, Up(q)).kids|, n);
      GapCells(t, Up(q), child, Cell(n, BLANK, 0));
      ghost var g := Gapped(t, Up(q), child, Cell(n, BLANK, 0));
      GapUnder(nodes[child].parent, child, Up(q));
      SetDescendants(child, descendants, g);
      Relink(TreeEdits.InsertParentForRest(t, q, n));
    }

    /** The sum over a node and its following siblings, by their next links. */
    method RestSize(child: nat) returns (sum: nat)
      requires Valid() && 0 < child < count
      ensures ValidPath(tree, Up(PathTo(tree, child)))
      ensures child + sum == RangeStart(tree, Up(PathTo(tree, child)), |At(tree, Up(PathTo(tree, child))).kids|)
    {
      hide Stores, FlatT, LinkT, Size, Pos, RangeStart, At, PathTo, Up, Last, ValidPath;
      CountIsSize(this);
      ghost var q := PathTo(tree, child);
      UpValid(tree, q);
      ghost var p, k, n := Up(q), Last(q), |At(tree, Up(q)).kids|;
      sum := 0;
      var iter: int := child;
      while iter != NULL
        invariant Last(q) <= k <= n && child + sum == RangeStart(tree, p, k)
        invariant if k == n then iter == NULL else iter == RangeStart(tree, p, k)
        decreases n - k
      {
        KidNode(tree, p, k);
        StoredNode(this, iter);
        sum := sum + nodes[iter].descendants + 1;
        iter := nodes[iter].next;
        k := k + 1;
      }
    }

    /** ay_ynode_insert_child */
    method InsertChild(parent: nat)
      requires Valid() && parent < count < nodes.Length
      modifies this`count, this`idcnt, this`tree, nodes
      ensures Valid() && idcnt == old(idcnt) + 1
      ensures tree == TreeEdits.InsertChild(old(tree), PathTo(old(tree), parent), old(idcnt))
    {
      ghost var p := PathTo(tree, parent);
      WrapFlat(tree, p, 0, 0, idcnt);
      hide FlatT, LinkT, Pos, Size, SizeF, Gapped;
      GapUnder(parent, parent + 1, p);
      Relink(TreeEdits.InsertChild(tree, p, old(idcnt)));
    }

    /** ay_ynode_insert_sibling */
    method InsertSibling(node: nat)
      requires Valid() && 0 < node < count < nodes.Length
      modifies this`count, this`idcnt, this`tree, nodes
      ensures Valid() && idcnt == old(idcnt) + 1
      ensures tree == TreeEdits.InsertSibling(old(tree), PathTo(old(tree), node), old(idcnt))
    {
      ghost var q := PathTo(tree, node);
      InsertSiblingFlat(tree, q, idcnt);
      hide FlatT, LinkT, Pos, Size, Gapped;
      var index := node + nodes[node].descendants + 1;
      GapUnder(nodes[node].parent, index, Up(q));
      ghost var s := nodes[..count];
      nodes[index] := nodes[index].(descendants := 0);
      assert nodes[..count] == s[index := nodes[index]];
      Relink(TreeEdits.InsertSibling(tree, q, old(idcnt)));
    }

    /** An assignment to the data of one node. */
    method SetNodeData(node: nat, d: Data)
      requires Valid() && node < count
      modifies this`tree, nodes
      ensures Valid() && tree == SetData(old(tree), PathTo(old(tree), node), d)
      ensures forall i :: 0 <= i < count ==> LinkOf(nodes[i]) == old(LinkOf(nodes[i]))
    {
      ghost var q := PathTo(tree, node);
      SetDataFlat(tree, q, d);
      SetDataLinks(tree, q, d);
      hide FlatT, LinkT, Size, Pos;
      ghost var s := nodes[..count];
      nodes[node] := nodes[node].(data := d);
      assert nodes[..count] == s[node := nodes[node]];
      tree := SetData(tree, q, d);
    }

    /** The loops that set choice or flags of every child. */
    method MapKidsData(node: nat, g: Data -> Data)
      requires Valid() && node < count
      modifies this`tree, nodes
      ensures Valid() && tree == MapAllKids(old(tree), PathTo(old(tree), node), g)
    {
      ghost var t, p := tree, PathTo(tree, node);
      ghost var k, n := 0, |At(t, p).kids|;
      KidsStart(t, p);
      MapKidsNone(t, p, g);
      hide FlatT, LinkT, Size, Pos, RangeStart, MapKids;
      var iter := nodes[node].child;
      ghost var l := LinkT(t, 0, NULL, NULL);
      while iter != NULL
        invariant Valid() && 0 <= k <= n && tree == MapKids(t, p, g, k)
        invariant if k == n then iter == NULL else iter == RangeStart(t, p, k) < count
        invariant forall i :: 0 <= i < count ==> LinkOf(nodes[i]) == l[i]
        decreases n - k
      {
        MapKidNode(t, p, g, k);
        KidNode(t, p, k);
        SetNodeData(iter, g(nodes[iter].data));
        iter := nodes[iter].next;
        k := k + 1;
      }
    }

    /** The common course of the deletions: fewer descendants for every ancestor, then the gap is closed. */
    method Remove(start: nat, index: nat, items: nat, ghost p: Path, ghost t: Tree)
      requires Valid() && ValidPath(tree, p) && start == Pos(tree, p) < index <= index + items <= count
      requires FlatT(t) == Patch(Bump(FlatT(tree), tree, p, 0 - items), index, index + items, [])
      modifies this`count, this`tree, nodes
      ensures Valid() && tree == t
    {
      RootLinks(tree);
      hide FlatT, LinkT, Pos, Size, Bump;
      AddToAncestors(start, 0 - items, p, FlatT(tree));
      ghost var s := nodes[..count];
      DeleteGapRange(index, items);
      PatchCells(s, Bump(FlatT(tree), tree, p, 0 - items), index, index + items, [], []);
      assert nodes[0] == nodes[..count][0] == s[0];
      Relink(t);
    }

    /** ay_ynode_delete_subtree */
    method DeleteSubtree(node: nat)
      requires Valid() && 0 < node < count
      modifies this`count, this`tree, nodes
      ensures Valid() && tree == TreeEdits.DeleteSubtree(old(tree), PathTo(old(tree), node))
    {
      hide Stores, LinkT, FlatT, Pos, Size, SizeF, RangeStart, Patch, Bump, At, Up, Last, ValidPath, PathTo;
      CountIsSize(this);
      ghost var q := PathTo(tree, node);
      StoredNode(this, node);
      ParentLink(tree, q);
      UpValid(tree, q);
      KidNode(tree, Up(q), Last(q));
      DeleteRangeFlat(tree, Up(q), Last(q), Last(q) + 1);
      var deleted := nodes[node].descendants + 1;
      Remove(nodes[node].parent, node, deleted, Up(q), TreeEdits.DeleteSubtree(tree, q));
    }

    /** Whether some child of a node has no choice. */
    method SomeKidWithoutChoice(node: nat) returns (found: bool)
      requires Valid() && node < count
      ensures var f := At(tree, PathTo(tree, node)).kids;
              found == exists i :: 0 <= i < |f| && f[i].data.choice.None?
    {
      ghost var t, p := tree, PathTo(tree, node);
      ghost var k, f := 0, At(t, p).kids;
      KidsStart(t, p);
      hide FlatT, LinkT, Size, Pos, RangeStart;
      found := false;
      var iter := nodes[node].child;
      while iter != NULL
        invariant 0 <= k <= |f|
        invariant if k == |f| then iter == NULL else iter == RangeStart(t, p, k) < count
        invariant found == exists i :: 0 <= i < k && f[i].data.choice.None?
        decreases |f| - k
      {
        KidNode(t, p, k);
        KidData(t, p, k);
        if nodes[iter].data.choice.None? {
          found := true;
        }
        iter := nodes[iter].next;
        k := k + 1;
      }
    }

    /** The first half of ay_ynode_delete_node: the children inherit choice and flags, or the node becomes a case. */
    method DisinheritKids(node: nat) returns (cast: bool)
      requires Valid() && 0 < node < count
      modifies this`tree, nodes
      ensures Valid() && cast == CastToCase(At(old(tree), PathTo(old(tree), node)))
      ensures var q := PathTo(old(tree), node);
              tree == if cast then SetData(old(tree), q, CaseData(At(old(tree), q).data)) else Disinherit(old(tree), q)
    {
      hide Stores, FlatT, LinkT, Size, Pos, At, PathTo, SetData, MapAllKids;
      CountIsSize(this);
      ghost var q, t := PathTo(tree, node), tree;
      NodeCell(tree, q);
      NodeKids(tree, q);
      StoredNode(this, node);
      StoredChild(this, node);
      cast := false;
      var d := nodes[node].data;
      if d.typ != Case {
        if d.choice.Some? && nodes[node].child != NULL && nodes[nodes[node].child].next != NULL {
          cast := SomeKidWithoutChoice(node);
          if cast {
            SetNodeData(node, CaseData(d));
            return;
          }
          MapKidsData(node, WithChoice(d.choice));
        } else if d.choice.Some? && nodes[node].child != NULL {
          SetNodeData(nodes[node].child, nodes[nodes[node].child].data.(choice := d.choice));
        }
      }
      NodesOfShape(t, q, d.choice);
      if ChildrenMandFalse in d.flags {
        MapKidsData(node, WithFlag(HintMandFalse));
      }
    }

    /** If a node has only one child, then that is in no choice. */
    method ClearLoneChoice(parent: nat)
      requires Valid() && parent < count
      modifies this`tree, nodes
      ensures Valid() && tree == LoneKidChoice(old(tree), PathTo(old(tree), parent))
    {
      NodeKids(tree, PathTo(tree, parent));
      hide FlatT, LinkT, Size, Pos;
      var child := nodes[parent].child;
      if child != NULL && nodes[child].next == NULL {
        assert CellOf(nodes[..count][child]) == CellOf(nodes[child]);
        SetNodeData(child, nodes[child].data.(choice := None));
      }
    }

    /** The second half of ay_ynode_delete_node. */
    method ReplaceByKids(node: nat)
      requires Valid() && 0 < node < count
      modifies this`count, this`tree, nodes
      ensures Valid() && tree == WithoutNode(old(tree), PathTo(old(tree), node))
    {
      hide Stores, FlatT, LinkT, Size, Pos, TreeEdits.DeleteNode, Patch, Bump, At, Up, ValidPath, PathTo, LoneKidChoice;
      CountIsSize(this);
      ghost var t, q := tree, PathTo(tree, node);
      StoredNode(this, node);
      DeleteNodeFlat(t, q);
      RemovedParent(t, q);
      ParentLink(t, q);
      var parent := nodes[node].parent;
      Remove(parent, node, 1, Up(q), TreeEdits.DeleteNode(t, q));
      CountIsSize(this);
      ClearLoneChoice(parent);
    }

    /** ay_ynode_delete_node */
    method DeleteNode(node: nat) returns (cast: bool)
      requires Valid() && 0 < node < count
      modifies this`count, this`tree, nodes
      ensures Valid() && tree == RemoveNode(old(tree), PathTo(old(tree), node))
      ensures cast == CastToCase(At(old(tree), PathTo(old(tree), node)))
    {
      ghost var q, t := PathTo(tree, node), tree;
      cast := DisinheritKids(node);
      if cast {
        return;
      }
      DisinheritedPath(t, q);
      hide FlatT, LinkT, Size, Pos, Disinherit;
      ReplaceByKids(node);
    }

    /** ay_ynode_delete_children without keep_keyval */
    method DeleteChildren(node: nat)
      requires Valid() && node < count
      modifies this`count, this`tree, nodes
      ensures Valid()
      ensures var t, p := old(tree), PathTo(old(tree), node);
              tree == Splice(t, p, 0, |At(t, p).kids|, [])
    {
      hide Stores, FlatT, LinkT, Size, Pos, RangeStart, Patch, Bump, At, PathTo, Splice;
      CountIsSize(this);
      ghost var p := PathTo(tree, node);
      NodeCell(tree, p);
      AllKids(tree, p);
      DeleteRangeFlat(tree, p, 0, |At(tree, p).kids|);
      NoKids(tree, p);
      StoredNode(this, node);
      var deleted := nodes[node].descendants;
      if deleted == 0 {
        return;
      }
      Remove(node, node + 1, deleted, p, Splice(tree, p, 0, |At(tree, p).kids|, []));
    }

    /** ay_ynode_move_subtree: through the spare capacity if there is room, else node by node. */
    method MoveBlock(dst: nat, src: nat)
      requires src < count <= nodes.Length && 0 <= nodes[src].descendants
      requires var n := nodes[src].descendants + 1; src + n <= count && (dst <= src || src + n <= dst <= count)
      modifies this`count, this`idcnt, nodes
      ensures count == old(count)
      ensures nodes[..count] == Relocate(old(nodes[..count]), src, old(nodes[src].descendants) + 1, dst)
      ensures idcnt == old(idcnt) + if dst == src then 0 else old(nodes[src].descendants) + 1
    {
      if dst == src {
        RelocateSelf(nodes[..count], src, nodes[src].descendants + 1);
        return;
      }
      var size := nodes[src].descendants + 1;
      if nodes.Length - count > size {
        MoveThroughBuffer(dst, src, size);
      } else {
        MoveByRotation(dst, src, size);
      }
    }

    method MoveThroughBuffer(dst: nat, src: nat, size: nat)
      requires src + size <= count && count + size < nodes.Length && (dst < src || src + size <= dst <= count)
      modifies this`count, this`idcnt, nodes
      ensures count == old(count) && idcnt == old(idcnt) + size
      ensures nodes[..count] == Relocate(old(nodes[..count]), src, size, dst)
    {
      hide Patch, Relocate;
      ghost var c := nodes[..count];
      var buffer := count;
      ghost var m := nodes[src..src + size];
      assert m == c[src..src + size];
      CopyOut(src, size);
      DeleteGapRange(src, size);
      var d := if dst > src then dst - size else dst;
      ghost var e := nodes[..count];
      InsertGapRange(d, size);
      ghost var f := nodes[..count];
      GapSlices(nodes, f, e, d, size, count);
      assert forall k :: 0 <= k < size ==> nodes[buffer + k] == m[k];
      CopyBack(d, buffer, size);
      FillGap(e, f, nodes[..count], d, m);
      Moved(c, e, nodes[..count], src, size, dst, m);
    }

    /** memcpy into the spare capacity. */
    method CopyOut(src: nat, size: nat)
      requires src + size <= count && count + size < nodes.Length
      modifies nodes
      ensures nodes[..count] == old(nodes[..count])
      ensures nodes[count..count + size] == old(nodes[src..src + size])
    {
      forall k | 0 <= k < size {
        nodes[count + k] := nodes[src + k];
      }
    }

    /** memcpy between two ranges that do not overlap. */
    method CopyBack(d: nat, buffer: nat, size: nat)
      requires d + size <= buffer && buffer + size <= nodes.Length
      modifies nodes
      ensures forall k :: 0 <= k < nodes.Length ==>
        nodes[k] == if d <= k < d + size then old(nodes[buffer + k - d]) else old(nodes[k])
    {
      forall k | 0 <= k < size {
        nodes[d + k] := nodes[buffer + k];
      }
    }

    method MoveByRotation(dst0: nat, src0: nat, size: nat)
      requires src0 + size <= count <= nodes.Length && (dst0 < src0 || src0 + size <= dst0 <= count)
      modifies this`count, this`idcnt, nodes
      ensures count == old(count) && idcnt == old(idcnt) + size
      ensures nodes[..count] == Relocate(old(nodes[..count]), src0, size, dst0)
    {
      hide Rotated, Relocate, Patch;
      ghost var c := nodes[..count];
      var dst, src := dst0, src0;
      RotatedEnds(c, src, size, dst);
      var i := 0;
      while i < size
        invariant 0 <= i <= size && count == old(count) && idcnt == old(idcnt) + i
        invariant src == (if dst0 < src0 then src0 + i else src0) && dst == (if dst0 < src0 then dst0 + i else dst0)
        invariant nodes[..count] == Rotated(c, src0, size, dst0, i)
      {
        RotatedStep(c, src0, size, dst0, i);
        dst, src := MoveOne(dst, src);
        i := i + 1;
      }
    }

    /** One round of the rotation; returns where the next node goes and where it is. */
    method MoveOne(dst0: nat, src0: nat) returns (dst: nat, src: nat)
      requires src0 < count <= nodes.Length && dst0 <= count && dst0 != src0
      modifies this`count, this`idcnt, nodes
      ensures count == old(count) && idcnt == old(idcnt) + 1
      ensures nodes[..count] == Relocate(old(nodes[..count]), src0, 1, dst0)
      ensures if dst0 < src0 then dst == dst0 + 1 && src == src0 + 1 else dst == dst0 && src == src0
    {
      hide Patch;
      ghost var x := nodes[..count];
      dst, src := dst0, src0;
      var node := nodes[src];
      DeleteGap(src);
      dst := if dst > src then dst - 1 else dst;
      ghost var y := nodes[..count];
      InsertGap(dst);
      ghost var z := nodes[..count];
      src := if src > dst then src + 1 else src;
      nodes[dst] := node;
      assert nodes[..count] == z[dst := node];
      OneMoved(x, y, nodes[..count], src0, dst0, ZERO.(id := old(idcnt)));
      dst := dst + 1;
    }

    /** The counts of a move: less above the old place, more above the new one. */
    method MoveCounts(from: nat, to: nat, size: int, ghost p1: Path, ghost p2: Path)
      requires Valid() && ValidPath(tree, p1) && ValidPath(tree, p2) && from == Pos(tree, p1) && to == Pos(tree, p2)
      modifies nodes
      ensures AreCells(nodes[..count], Bump(Bump(FlatT(tree), tree, p1, 0 - size), tree, p2, size))
      ensures nodes[0].parent == NULL && nodes[0].next == NULL
    {
      RootLinks(tree);
      hide FlatT, LinkT, Pos, Size, Bump;
      AddToAncestors(from, 0 - size, p1, FlatT(tree));
      AddToAncestors(to, size, p2, Bump(FlatT(tree), tree, p1, 0 - size));
    }

    method MoveCells(index: nat, src: nat, size: nat, ghost c: seq<Cell>)
      requires 0 < src < src + size <= count <= nodes.Length && 0 < index
               && (index <= src || src + size <= index <= count)
      requires AreCells(nodes[..count], c) && c[src].desc == size - 1
      modifies this`count, this`idcnt, nodes
      ensures count == old(count) && idcnt == old(idcnt) + if index == src then 0 else size
      ensures AreCells(nodes[..count], Relocate(c, src, size, index))
      ensures nodes[0] == old(nodes[0])
    {
      hide Relocate;
      ghost var s := nodes[..count];
      assert CellOf(s[src]) == c[src];
      MoveBlock(index, src);
      RelocateCells(s, c, src, size, index);
      assert nodes[0] == nodes[..count][0] == s[0];
    }

    /** The common course of the moves: counts above the old and the new place, then the block, then the links. */
    method MoveUnder(from: nat, to: nat, index: nat, src: nat, ghost q: Path, ghost p: Path, ghost k: nat)
      requires Valid() && 0 < src < count && q == PathTo(tree, src)
      requires ValidPath(tree, p) && !(q <= p) && k <= |At(tree, p).kids|
      requires ValidPath(tree, Up(q)) && from == Pos(tree, Up(q)) && to == Pos(tree, p)
               && index == RangeStart(tree, p, k)
      modifies this`count, this`idcnt, this`tree, nodes
      ensures Valid() && tree == MoveTo(old(tree), q, p, k) && count == old(count)
      ensures idcnt == MovedIdcnt(old(idcnt), old(tree), q, p, k)
    {
      hide FlatT, LinkT, Pos, Size, RangeStart, Bump, Relocate, MoveTo, At;
      MovePlaces(tree, q, p, k);
      var size := nodes[src].descendants + 1;
      assert size == FlatT(tree)[src].desc + 1;
      MoveCounts(from, to, size, Up(q), p);
      MoveCells(index, src, size, Bump(Bump(FlatT(tree), tree, Up(q), 0 - size), tree, p, size));
      Relink(MoveTo(tree, q, p, k));
    }

    /** ay_ynode_move_subtree_as_sibling */
    method MoveAsSibling(dst: nat, src: nat)
      requires Valid() && 0 < dst < count && 0 < src < count
      requires !(PathTo(tree, src) <= Up(PathTo(tree, dst)))
      modifies this`count, this`idcnt, this`tree, nodes
      ensures Valid() && count == old(count)
      ensures var q, d := PathTo(old(tree), src), PathTo(old(tree), dst);
              && ValidPath(old(tree), Up(d)) && Last(d) < |At(old(tree), Up(d)).kids|
              && tree == MoveTo(old(tree), q, Up(d), Last(d) + 1)
              && idcnt == MovedIdcnt(old(idcnt), old(tree), q, Up(d), Last(d) + 1)
    {
      ghost var q, d := PathTo(tree, src), PathTo(tree, dst);
      hide FlatT, LinkT, Pos, Size, RangeStart, MoveTo, At, MovedIdcnt;
      SiblingPlace(tree, d, src);
      NextIsKid(tree, d, src, idcnt);
      if nodes[dst].next == src {
        return;
      }
      assert CellOf(nodes[..count][dst]) == CellOf(nodes[dst]);
      var index := dst + nodes[dst].descendants + 1;
      MoveUnder(nodes[src].parent, nodes[dst].parent, index, src, q, Up(d), Last(d) + 1);
    }

    /** ay_ynode_move_subtree_as_child */
    method MoveAsChild(dst: nat, src: nat)
      requires Valid() && dst < count && 0 < src < count
      requires !(PathTo(tree, src) <= PathTo(tree, dst))
      modifies this`count, this`idcnt, this`tree, nodes
      ensures Valid() && count == old(count)
      ensures tree == MoveTo(old(tree), PathTo(old(tree), src), PathTo(old(tree), dst), 0)
      ensures idcnt == MovedIdcnt(old(idcnt), old(tree), PathTo(old(tree), src), PathTo(old(tree), dst), 0)
    {
      ghost var q, p := PathTo(tree, src), PathTo(tree, dst);
      hide FlatT, LinkT, Pos, Size, RangeStart, MoveTo, At, MovedIdcnt;
      ChildPlace(tree, p, src, idcnt);
      if nodes[dst].child == src {
        return;
      }
      MoveUnder(nodes[src].parent, dst, dst + 1, src, q, p, 0);
    }

    /** The last child of a node, by the next links. */
    method LastChild(node: nat) returns (last: int)
      requires Valid() && node < count
      ensures var p := PathTo(tree, node); var n := |At(tree, p).kids|;
              last == if n == 0 then NULL else RangeStart(tree, p, n - 1)
    {
      hide Stores, FlatT, LinkT, Pos, Size, RangeStart, At, PathTo;
      CountIsSize(this);
      ghost var p := PathTo(tree, node);
      ghost var k, n := 0, |At(tree, p).kids|;
      KidsStart(tree, p);
      StoredNode(this, node);
      last := nodes[node].child;
      if last == NULL {
        return;
      }
      KidNode(tree, p, 0);
      StoredNode(this, last);
      while nodes[last].next != NULL
        invariant 0 <= k < n && last == RangeStart(tree, p, k) && 0 <= last < count
        invariant nodes[last].next == if k + 1 < n then RangeStart(tree, p, k + 1) else NULL
        decreases n - k
      {
        KidNode(tree, p, k);
        KidNode(tree, p, k + 1);
        StoredNode(this, nodes[last].next);
        last := nodes[last].next;
        k := k + 1;
      }
    }

    /** The move behind the last child of a node. */
    method MoveBehind(last: nat, src: nat, ghost p: Path)
      requires Valid() && ValidPath(tree, p) && At(tree, p).kids != [] && 0 < src < count
      requires last == RangeStart(tree, p, |At(tree, p).kids| - 1) && !(PathTo(tree, src) <= p)
      modifies this`count, this`idcnt, this`tree, nodes
      ensures Valid() && count == old(count)
      ensures tree == MoveTo(old(tree), PathTo(old(tree), src), p, |At(old(tree), p).kids|)
      ensures idcnt == MovedIdcnt(old(idcnt), old(tree), PathTo(old(tree), src), p, |At(old(tree), p).kids|)
    {
      hide Stores, FlatT, LinkT, Size, Pos, RangeStart, At, MoveTo, PathTo, MovedIdcnt, Up, Last, ValidPath;
      CountIsSize(this);
      LastPlace(tree, p);
      MoveAsSibling(last, src);
    }

    /** ay_ynode_move_subtree_as_last_child */
    method MoveAsLastChild(dst: nat, src: nat)
      requires Valid() && dst < count && 0 < src < count
      requires dst == src || !(PathTo(tree, src) <= PathTo(tree, dst))
      modifies this`count, this`idcnt, this`tree, nodes
      ensures Valid() && count == old(count)
      ensures dst == src ==> tree == old(tree) && idcnt == old(idcnt)
      ensures var t, q, p := old(tree), PathTo(old(tree), src), PathTo(old(tree), dst);
              dst != src ==>
                tree == MoveTo(t, q, p, |At(t, p).kids|) && idcnt == MovedIdcnt(old(idcnt), t, q, p, |At(t, p).kids|)
    {
      hide Stores, FlatT, LinkT, Size, Pos, RangeStart, At, MoveTo, PathTo, MovedIdcnt, ValidPath;
      CountIsSize(this);
      if dst == src {
        return;
      }
      var last := LastChild(dst);
      if last != NULL {
        MoveBehind(last, src, PathTo(tree, dst));
      } else {
        MoveAsChild(dst, src);
      }
    }

    /** ay_ynode_insert_child_last */
    method InsertChildLast(parent: nat) returns (node: nat)
      requires Valid() && parent < count < nodes.Length
      modifies this`count, this`idcnt, this`tree, nodes
      ensures Valid() && idcnt == old(idcnt) + 1
      ensures var t, p := old(tree), PathTo(old(tree), parent); var n := |At(t, p).kids|;
              tree == Wrap(t, p, n, n, old(idcnt)) && node == RangeStart(t, p, n) < count
    {
      hide FlatT, LinkT, Size, Pos, RangeStart, At, Wrap, TreeEdits.InsertSibling, TreeEdits.InsertChild;
      AppendedNext(tree, PathTo(tree, parent), idcnt);
      var last := LastChild(parent);
      if last != NULL {
        InsertSibling(last);
        node := nodes[last].next;
      } else {
        InsertChild(parent);
        node := parent + 1;
      }
    }
  }

  /** The first child, if there is one. */
  lemma StoredChild(y: YTree, i: nat)
    requires y.Valid() && i < y.count
    ensures y.count == Size(y.tree)
    ensures var c := y.nodes[i].child;
            c != NULL ==> (0 <= c < y.count && CellOf(y.nodes[c]) == FlatT(y.tree)[c]
                           && LinkOf(y.nodes[c]) == LinkT(y.tree, 0, NULL, NULL)[c])
  {
    StoredNode(y, i);
    NodeKids(y.tree, PathTo(y.tree, i));
    if y.nodes[i].child != NULL { StoredNode(y, y.nodes[i].child); }
  }

  /** The two ends of a sequence with a gap, as array slices. */
  lemma GapSlices(a: array<YNode>, f: seq<YNode>, e: seq<YNode>, d: nat, size: nat, count: nat)
    requires count <= a.Length && f == a[..count] && d + size <= count && |e| + size == count
    requires a[..d] == e[..d] && a[d + size..count] == e[d..]
    ensures f[..d] == e[..d] && f[d + size..] == e[d..]
  {
  }

  /** Cut, gap and copy are a relocation. */
  lemma Moved(c: seq<YNode>, e: seq<YNode>, g: seq<YNode>, s: nat, n: nat, d: nat, m: seq<YNode>)
    requires s + n <= |c| && (d < s || s + n <= d <= |c|) && m == c[s..s + n]
    requires e == Patch(c, s, s + n, []) && 0 <= Drop(d, s, n) <= |e| && g == Patch(e, Drop(d, s, n), Drop(d, s, n), m)
    ensures g == Relocate(c, s, n, d)
  {
  }

  lemma AreCellsAt(s: seq<YNode>, c: seq<Cell>, i: nat)
    requires AreCells(s, c) && i < |s|
    ensures |s| == |c| && CellOf(s[i]) == c[i]
  {
  }

  /** Reading one stored node. */
  lemma StoredNode(y: YTree, i: nat)
    requires y.Valid() && i < y.count
    ensures y.count == Size(y.tree) && CellOf(y.nodes[i]) == FlatT(y.tree)[i]
    ensures LinkOf(y.nodes[i]) == LinkT(y.tree, 0, NULL, NULL)[i]
  {
    assert y.nodes[..y.count][i] == y.nodes[i];
  }

  lemma CountIsSize(y: YTree)
    requires y.Valid()
    ensures y.count == Size(y.tree)
  {
  }

  lemma RelocateCells(s: seq<YNode>, c: seq<Cell>, a: nat, n: nat, d: nat)
    requires AreCells(s, c) && a + n <= |s| && (d <= a || a + n <= d <= |s|)
    ensures AreCells(Relocate(s, a, n, d), Relocate(c, a, n, d))
    ensures 0 < a && 0 < d ==> Relocate(s, a, n, d)[0] == s[0]
  {
    PatchCells(s, c, a, a + n, [], []);
    PatchCells(Patch(s, a, a + n, []), Patch(c, a, a + n, []), Drop(d, a, n), Drop(d, a, n), s[a..a + n], c[a..a + n]);
  }

  lemma OneMoved<T>(x: seq<T>, y: seq<T>, z: seq<T>, s: nat, d: nat, gap: T)
    requires s < |x| && d <= |x|
    requires y == Patch(x, s, s + 1, [])
    requires Drop(d, s, 1) <= |y| && z == Patch(y, Drop(d, s, 1), Drop(d, s, 1), [gap])[Drop(d, s, 1) := x[s]]
    ensures z == Relocate(x, s, 1, d)
  {
  }
}
