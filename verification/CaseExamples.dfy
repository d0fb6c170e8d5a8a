/** Two branches whose merge drops nodes. */
module CaseExamples {
  import opened YNodes
  import opened RoseTree
  import opened CaseMerging
  import opened CaseCounts
  import opened CaseMerges

  function LeafAt(id: nat, text: string, c: Option<nat>): Tree {
    Node(id, BLANK.(typ := Leaf, labelLens := Some(Pattern(text)), choice := c), [])
  }

  function Over(id: nat, c: nat, f: seq<Tree>): Tree {
    Node(id, BLANK.(typ := Case, choice := Some(c)), f)
  }

  function Within(id: nat, f: seq<Tree>): Tree {
    Node(id, BLANK.(typ := Container, labelLens := Some(Pattern("x")), choice := Some(1)), f)
  }

  // [key "x" . [p]] and [key "x" . (([q] . [r]) | [v]) . [s]], in one choice
  const FIRST := Within(1, [LeafAt(2, "p", None)])
  const SECOND := Within(3,
    [Over(4, 2, [LeafAt(5, "q", None), LeafAt(6, "r", None)]), LeafAt(7, "v", Some(2)), LeafAt(8, "s", None)])

  lemma ExampleSound()
    ensures Sound(FIRST) && Sound(SECOND) && Matching(FIRST, SECOND) && !Fails(FIRST, SECOND)
  {
    assert Sound(SECOND.kids[0]) by { assert SECOND.kids[0].kids[1] == LeafAt(6, "r", None); }
    assert SECOND.kids[1] == LeafAt(7, "v", Some(2)) && SECOND.kids[2] == LeafAt(8, "s", None);
    assert Sound(FIRST) && Sound(SECOND);
  }

  lemma CaseKids()
    ensures SECOND.kids[0] == Over(4, 2, [LeafAt(5, "q", None), LeafAt(6, "r", None)])
    ensures SECOND.kids[1].id == 7 && SECOND.kids[2].id == 8 && |SECOND.kids| == 3
  {
  }

  /** What the merge leaves. */
  lemma MergeLeaves(n: nat)
    ensures Sound(FIRST) && Sound(SECOND) && !Fails(FIRST, SECOND) && Loses(FIRST, SECOND)
    ensures var r := MergeBranches(FIRST, SECOND, n);
            && r.id == 1 && |r.kids| == 2 && r.kids[1] == SECOND.kids[0] && r.kids[0].id == 2 && r.kids[0].kids == []
  {
    ExampleSound();
    hide Sound, Fails, ValueFlags;
    var f, g := FIRST.kids, SECOND.kids;
    var a, b := CaseInsert(f, None, n), CaseInsert(g, None, n + 1);
    assert g[2].data.choice == None && g[0].data.choice == Some(2);
    assert !InChoice(f) && !InChoice(g) && b == g && b[..1] == [g[0]];
    assert Joined(f, g, n) == [a[0], g[0]];
  }

  lemma LeafCounts(t: Tree, q: Query)
    requires t.kids == [] && q.Called? && q.id != t.id
    ensures Among(t, q) == 0
  {
    CountNode(t);
    CountNone();
  }

  lemma PairCounts(t: Tree, q: Query)
    requires |t.kids| == 2 && q.Called? && q.id != t.id && Among(t.kids[0], q) == 0 && Among(t.kids[1], q) == 0
    ensures Among(t, q) == 0
  {
    assert t.kids == [t.kids[0]] + [t.kids[1]];
    CountNode(t);
    CountConcat([t.kids[0]], [t.kids[1]]);
    CountOne(t.kids[0]);
    CountOne(t.kids[1]);
    hide Among, AmongF;
  }

  /** The case is moved, and the nodes 7 and 8 behind it are deleted with the second branch. */
  lemma MergeDropsNodes(n: nat, q: Query)
    requires q.Called? && q.id in {7, 8}
    ensures Sound(FIRST) && Sound(SECOND) && Matching(FIRST, SECOND) && !Fails(FIRST, SECOND) && Loses(FIRST, SECOND)
    ensures Among(MergeBranches(FIRST, SECOND, n), q) == 0
    ensures SECOND.kids[1].id == 7 && SECOND.kids[2].id == 8
  {
    hide *;
    ExampleSound();
    MergeLeaves(n);
    CaseKids();
    var r := MergeBranches(FIRST, SECOND, n);
    LeafCounts(r.kids[0], q);
    OverIs();
    var c := r.kids[1];
    LeafCounts(c.kids[0], q);
    LeafCounts(c.kids[1], q);
    PairCounts(c, q);
    PairCounts(r, q);
  }

  lemma OverIs()
    ensures var c := Over(4, 2, [LeafAt(5, "q", None), LeafAt(6, "r", None)]);
            c.id == 4 && |c.kids| == 2 && c.kids[0].id == 5 && c.kids[1].id == 6
              && c.kids[0].kids == [] == c.kids[1].kids
  {
  }
}
