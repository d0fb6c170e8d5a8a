/** What creating a grouping does to the choices that siblings are in; the expanded tree does not tell. */
module GroupingChoices {
  import opened YNodes
  import opened RoseTree
  import opened TreeEdits
  import opened Expansion
  import opened Conversion
  import opened Groupings

  /** The choices of siblings; a grouping is no sibling in the data. */
  function Choices(f: seq<Tree>): seq<Option<nat>> {
    if f == [] then []
    else (if f[0].data.typ == Grouping then [] else [f[0].data.choice]) + Choices(f[1..])
  }

  lemma {:induction false} ChoicesConcat(f: seq<Tree>, g: seq<Tree>)
    ensures Choices(f + g) == Choices(f) + Choices(g)
    decreases |f|
  {
    if f == [] {
      assert f + g == g;
    } else {
      assert (f + g)[1..] == f[1..] + g;
      ChoicesConcat(f[1..], g);
    }
  }

  lemma ChoicesOne(t: Tree)
    ensures Choices([t]) == if t.data.typ == Grouping then [] else [t.data.choice]
  {
    assert [t][1..] == [];
  }

  /** No grouping belongs to the class. */
  ghost predicate GroupsFree(f: seq<Tree>, c: Class) {
    forall i :: 0 <= i < |f| && f[i].data.typ == Grouping ==> !InClass(c, f[i].id, f[i].data)
  }

  /** Wherever a class is replaced, siblings stay in their choices. */
  lemma {:induction false} ConvChoices(f: seq<Tree>, c: Class, n: nat)
    requires GroupsFree(f, c)
    ensures Choices(ConvF(f, c, n).0) == Choices(f)
    decreases |f|
  {
    if f != [] {
      var a := ConvT(f[0], c, n);
      var b := ConvF(f[1..], c, a.1);
      ConvChoices(f[1..], c, a.1);
      assert GroupsFree(f[1..], c) && a.0.data.choice == f[0].data.choice;
      assert a.0.data.typ == Grouping <==> f[0].data.typ == Grouping;
      assert ([a.0] + b.0)[1..] == b.0;
    }
  }

  /** In place of the first node of a class stands its uses, in the same choice; the node itself is in none. */
  lemma WholeChoices(f: seq<Tree>, k: nat, c: Class, u: nat, s: Option<nat>)
    requires k < |f| && f[k].data.typ != Grouping
    ensures Choices(f[..k] + WholeUnit(f[k], c, u, s) + f[k + 1..]) == Choices(f)
    ensures |WholeUnit(f[k], c, u, s)| == 2 && Choices(WholeUnit(f[k], c, u, s)[0].kids) == [None]
  {
    hide *;
    var x, y, w := f[..k], f[k + 1..], WholeUnit(f[k], c, u, s);
    UnitChoices(f[k], c, u, s);
    assert f == x + [f[k]] + y;
    ChoicesConcat(x + w, y);
    ChoicesConcat(x, w);
    ChoicesConcat(x + [f[k]], y);
    ChoicesConcat(x, [f[k]]);
    ChoicesOne(f[k]);
  }

  lemma UnitChoices(l: Tree, c: Class, u: nat, s: Option<nat>)
    requires l.data.typ != Grouping
    ensures |WholeUnit(l, c, u, s)| == 2
    ensures Choices(WholeUnit(l, c, u, s)) == [l.data.choice] && Choices(WholeUnit(l, c, u, s)[0].kids) == [None]
  {
    var w := WholeUnit(l, c, u, s);
    ChoicesConcat([w[0]], [w[1]]);
    ChoicesOne(w[0]);
    ChoicesOne(w[1]);
    ChoicesOne(w[0].kids[0]);
    assert w == [w[0]] + [w[1]];
  }

  /** The uses of inner nodes is in the choice of the first of them. */
  lemma SplitChoices(l: Tree, c: Class, u: nat)
    requires l.kids != [] && l.kids[GroupStart(l)].data.typ != Grouping
    ensures var k, s := GroupStart(l), SplitUnit(l, c, u);
            && s.data.choice == l.data.choice
            && Choices(s.kids) == Choices(l.kids[..k]) + [l.kids[k].data.choice]
  {
    var k, s := GroupStart(l), SplitUnit(l, c, u);
    assert s.kids == l.kids[..k] + [s.kids[k]] + [s.kids[k + 1]];
    ChoicesConcat(l.kids[..k] + [s.kids[k]], [s.kids[k + 1]]);
    ChoicesConcat(l.kids[..k], [s.kids[k]]);
    ChoicesOne(s.kids[k]);
    ChoicesOne(s.kids[k + 1]);
  }

  /** In a later node of the class it is in no choice. */
  lemma MemberChoices(t: Tree, c: Class, n: nat)
    requires InClass(c, t.id, t.data) && Split(t.data) && GroupsFree(t.kids, c)
    ensures var k, x := InnerIndex(t.kids), ConvT(t, c, n).0;
            && x.data.choice == t.data.choice
            && Choices(x.kids) == Choices(t.kids[..k]) + [None]
  {
    var k := InnerIndex(t.kids);
    SizeTake(t.kids, k);
    var x := ConvF(t.kids[..k], c, n + 1);
    ConvChoices(t.kids[..k], c, n + 1);
    ChoicesConcat(x.0, [Node(n, UsesData(c), [])]);
    ChoicesOne(Node(n, UsesData(c), []));
  }

  /** So the first node of a class and a later one get the same choices exactly if the inner nodes start outside one. */
  lemma UsesChoicesAgree(l: Tree, t: Tree, c: Class, u: nat, n: nat)
    requires l.kids != [] && l.kids[GroupStart(l)].data.typ != Grouping
    requires InClass(c, t.id, t.data) && Split(t.data) && GroupsFree(t.kids, c)
    requires InnerIndex(t.kids) == GroupStart(l) && Choices(t.kids[..GroupStart(l)]) == Choices(l.kids[..GroupStart(l)])
    ensures Choices(SplitUnit(l, c, u).kids) == Choices(ConvT(t, c, n).0.kids) <==>
            l.kids[GroupStart(l)].data.choice == None
  {
    SplitChoices(l, c, u);
    MemberChoices(t, c, n);
    var x := Choices(l.kids[..GroupStart(l)]);
    assert (x + [l.kids[GroupStart(l)].data.choice])[|x|] == l.kids[GroupStart(l)].data.choice
           && (x + [None])[|x|] == None;
  }

  // Two lists with two inner nodes in one choice; the second one belongs to the class of the first one.
  const INNER := BLANK.(typ := Leaf, choice := Some(7))
  const LEADER := Node(1, BLANK.(typ := List, ref := 1, flags := {GroupingChildren}),
    [Node(2, INNER, []), Node(3, INNER, [])])
  const MEMBER := Node(4, BLANK.(typ := List, ref := 1, flags := {GroupingChildren}),
    [Node(5, INNER, []), Node(6, INNER, [])])

  /** The first list's uses is in the choice, the second one's is not. */
  lemma UsesLeaveChoice(u: nat, n: nat)
    ensures var c := Class(1, 9, {});
            && GroupStart(LEADER) == 0 && InClass(c, 4, MEMBER.data) && Split(MEMBER.data)
            && Choices(SplitUnit(LEADER, c, u).kids) == [Some(7)] && Choices(ConvT(MEMBER, c, n).0.kids) == [None]
  {
    var c := Class(1, 9, {});
    assert LEADER.kids[0] == Node(2, INNER, []) && MEMBER.kids[0] == Node(5, INNER, [])
           && MEMBER.kids[1] == Node(6, INNER, []);
    assert InnerIndex(LEADER.kids) == 0 && InnerIndex(MEMBER.kids) == 0;
    SplitChoices(LEADER, c, u);
    assert GroupsFree(MEMBER.kids, c);
    MemberChoices(MEMBER, c, n);
    assert LEADER.kids[..0] == [] == MEMBER.kids[..0];
  }
}
