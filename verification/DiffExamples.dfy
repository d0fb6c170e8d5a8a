/** Diffs that leave the Augeas siblings different from the YANG list. */
module DiffExamples {
  import opened YNodes
  import opened AugeasSiblings
  import opened DiffStore
  import opened DiffMoves
  import opened DiffRuns

  const A := Entry(1, 1, "a", Some("x"), true)
  const B := Entry(2, 1, "b", Some("y"), true)
  const C := Entry(3, 1, "c", Some("z"), true)

  lemma ShownAll(e: Entry, f: Entry, g: Entry)
    requires e.shown && f.shown && g.shown
    ensures Shown([e, f, g]) == [ItemOf(e), ItemOf(f), ItemOf(g)]
  {
    assert [e, f, g][1..] == [f, g] && [f, g][1..] == [g];
    ShownOne(g);
  }

  lemma {:induction false} NoneNamed(a: seq<Item>, l: string)
    requires forall i :: 0 <= i < |a| ==> a[i].name != l
    ensures Occ(a, l) == 0
    decreases |a|
  {
    if a != [] { NoneNamed(a[1..], l); }
  }

  /** The first of the nodes with a label. */
  lemma FirstFound(a: seq<Item>, n: nat)
    requires n < |a| && forall i :: 0 <= i < n ==> a[i].name != a[n].name
    ensures Find(a, Place(a[n].name, 1)) == Some(n)
  {
    NoneNamed(a[..n], a[n].name);
    FindIs(a, Place(a[n].name, 1), n);
  }

  /** The second of them. */
  lemma SecondFound(a: seq<Item>, m: nat, n: nat)
    requires m < n < |a| && a[m].name == a[n].name
    requires forall i :: 0 <= i < n && i != m ==> a[i].name != a[n].name
    ensures Find(a, Place(a[n].name, 2)) == Some(n)
  {
    OccSplit(a[..n], m, a[n].name);
    NoneNamed(a[..n][..m], a[n].name);
    NoneNamed(a[..n][m + 1..], a[n].name);
    FindIs(a, Place(a[n].name, 2), n);
  }

  /** Without another entry of the label the index is 1. */
  lemma OnlyPlace(y: seq<Entry>, p: nat)
    requires p < |y| && forall k :: 0 <= k < p ==> y[k].name != y[p].name
    ensures PlaceOf(y, p) == Place(y[p].name, 1)
  {
    CountNone(y[..p], y[p].schema, y[p].name);
  }

  /** The first move of a list that is reversed: a, b, c becomes c, a, b, on both sides. */
  lemma FirstMove()
    ensures var y := [A, B, C];
            Placed(y, 2, 0) == [C, A, B] && MoveApplied(y, Shown(y), 2, 0) == Some(Shown([C, A, B]))
  {
    hide Find, Occ, Count, Shown;
    var y, z := [A, B, C], [C, A, B];
    assert Placed(y, 2, 0) == z;
    ShownAll(A, B, C);
    ShownAll(C, A, B);
    OnlyPlace(z, 0);
    OnlyPlace(z, 1);
    var r := AnchorOf(z, 0);
    assert r == Beside(1, true) && AnchorPlace(z, 0, r) == Place("a", 1) && MovedBack(z, 0, r);
    var a := Shown(y);
    FirstFound(a, 0);
    var b := [Item("c", None), ItemOf(A), ItemOf(B), ItemOf(C)];
    PutAt(a, 0, b[0], b);
    FirstFound(b, 0);
    SecondFound(b, 0, 3);
    assert TakeOut(b[0 := b[0].(value := b[3].value)], 3) == [ItemOf(C), ItemOf(A), ItemOf(B)];
    assert Moved(b, Place("c", 2), Place("c", 1)) == Some([ItemOf(C), ItemOf(A), ItemOf(B)]);
  }

  lemma PutAt<T>(a: seq<T>, n: nat, x: T, b: seq<T>)
    requires n <= |a| && b == a[..n] + [x] + a[n..]
    ensures PutIn(a, n, x) == b
  {
  }

  /** The list c, a, b becomes c, b, a: the second move of a list that is reversed. */
  lemma SecondMove()
    ensures var y := [C, A, B];
            && Placed(y, 2, 1) == [C, B, A]
            && MoveApplied(y, Shown(y), 2, 1) == Some([ItemOf(C), ItemOf(A), Item("b", None)])
  {
    hide Find, Occ, Count, Shown;
    var y, z := [C, A, B], [C, B, A];
    assert Placed(y, 2, 1) == z;
    ShownAll(C, A, B);
    OnlyPlace(z, 0);
    OnlyPlace(z, 1);
    var r := AnchorOf(z, 1);
    assert r == Beside(0, false) && AnchorPlace(z, 1, r) == Place("c", 1) && !MovedBack(z, 1, r);
    var a := Shown(y);
    FirstFound(a, 0);
    var b := [ItemOf(C), Item("b", None), ItemOf(A), ItemOf(B)];
    PutAt(a, 1, b[1], b);
    FirstFound(b, 1);
    SecondFound(b, 1, 3);
    var d := b[3 := b[3].(value := None)];
    assert Moved(b, Place("b", 1), Place("b", 2)) == Some(TakeOut(d, 1));
    assert TakeOut(d, 1) == [ItemOf(C), ItemOf(A), Item("b", None)];
  }

  const REVERSAL := [Move(3, None), Move(2, Some(3))]

  lemma TwoSteps(y: seq<Entry>, a: seq<Item>, d: seq<Step>)
    requires |d| == 2 && StepFits(y, d[0]) && StepFits(Done(y, d[0]), d[1]) && StepApplied(y, a, d[0]).Some?
    ensures AllFit(y, d) && Run(y, d) == Done(Done(y, d[0]), d[1])
    ensures RunApplied(y, a, d) == StepApplied(Done(y, d[0]), StepApplied(y, a, d[0]).value, d[1])
  {
    assert d[1..] == [d[1]] && [d[1]][1..] == [];
    assert AllFit(Done(y, d[0]), d[1..]) && Run(Done(y, d[0]), d[1..]) == Done(Done(y, d[0]), d[1]);
    hide StepFits, StepApplied, Done;
    OneStep(Done(y, d[0]), StepApplied(y, a, d[0]).value, d[1]);
  }

  lemma OneStep(y: seq<Entry>, a: seq<Item>, s: Step)
    requires StepFits(y, s)
    ensures AllFit(y, [s]) && RunApplied(y, a, [s]) == StepApplied(y, a, s)
  {
    assert [s][1..] == [];
    hide StepFits, StepApplied, Done;
  }

  /** Two moves reverse three entries; the comparison of keys sends the second one the wrong way. */
  lemma ReversalLosesValue()
    ensures AllFit([A, B, C], REVERSAL) && Run([A, B, C], REVERSAL) == [C, B, A]
    ensures RunApplied([A, B, C], Shown([A, B, C]), REVERSAL) == Some([ItemOf(C), ItemOf(A), Item("b", None)])
    ensures RunApplied([A, B, C], Shown([A, B, C]), REVERSAL) != Some(Shown(Run([A, B, C], REVERSAL)))
  {
    FirstMove();
    SecondMove();
    ShownAll(C, B, A);
    hide Shown, MoveApplied, Placed;
    var y := [A, B, C];
    assert PosOf(y, 3) == 2 && PosOf([C, A, B], 2) == 2;
    assert TakeOut([C, A, B], 2) == [C, A];
    TwoSteps(y, Shown(y), REVERSAL);
  }

  const HIDDEN := Entry(4, 2, "d", None, false)

  /** A new first entry in front of a hidden one: its node is made by path alone, and comes last. */
  lemma InsertComesLast()
    ensures var y, c := [HIDDEN, B], Insert(A, None);
            && Good(y) && Fits(y, c) && Lost(y, 0)
            && Changed(y, c) == [A, HIDDEN, B] && Applied(y, Shown(y), c) == Some([ItemOf(B), ItemOf(A)])
            && Applied(y, Shown(y), c) != Some(Shown(Changed(y, c)))
  {
    hide Find, Occ, Shown, Count;
    var y, z := [HIDDEN, B], [A, HIDDEN, B];
    ShownTwo(HIDDEN, B);
    assert PutIn(y, 0, A) == z;
    assert Good(y) && Fits(y, Insert(A, None)) && Changed(y, Insert(A, None)) == z;
    assert y[0..] == y && Lost(y, 0);
    OnlyPlace(z, 0);
    assert AnchorOf(z, 0) == NoAnchor;
    var a := [ItemOf(B)];
    NoneNamed(a, "a");
    FindOnly(a, Place("a", 1));
    AppliedInsert(y, a, A, None);
    assert Find(a, Place("a", 1)).None?;
    assert Assigned(a, Place("a", 1), A.value) == Some(a + [ItemOf(A)]) && a + [ItemOf(A)] == [ItemOf(B), ItemOf(A)];
    InsertInStep(y, A, None);
  }

  lemma ShownTwo(e: Entry, f: Entry)
    requires !e.shown && f.shown
    ensures Shown([e, f]) == [ItemOf(f)]
  {
    assert [e, f][1..] == [f];
    ShownOne(f);
  }
}
