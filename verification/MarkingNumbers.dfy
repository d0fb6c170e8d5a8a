/** Whose number a class takes: that of its first node, also if another pass has given it away. */
module MarkingNumbers {
  import opened YNodes
  import opened RoseTree
  import opened TreeLinks
  import opened TreeEdits
  import opened Expansion
  import opened GroupingEdits
  import opened MarkingSteps
  import opened TreeForms
  import opened Marking
  import opened MarkingMatches
  import opened MarkingRun
  import opened MarkingConditions
  import opened MarkingConverse
  import opened MarkingRecursion

  lemma NodeRef(t: Tree, i: nat)
    requires i < Size(t)
    ensures ValidPath(t, PathTo(t, i)) && FlatT(t)[i].data == At(t, PathTo(t, i)).data
            && FlatT(t)[i].id == At(t, PathTo(t, i)).id
  {
    PathToPos(t, PathTo(t, i));
    NodeCell(t, PathTo(t, i));
  }

  /** A node with a number keeps it while a class is sought. */
  lemma {:induction false} SeekKeeps(f: Found, i: nat, r: nat, p: nat, rules: Rules, a: nat)
    requires 0 < i < p <= Size(f.tree) && a < Size(f.tree) && FlatT(f.tree)[a].data.ref != 0
    ensures Size(Seek(f, i, r, p, rules).tree) == Size(f.tree)
            && FlatT(Seek(f, i, r, p, rules).tree)[a] == FlatT(f.tree)[a]
    decreases Size(f.tree) - p
  {
    hide *;
    if p == Size(f.tree) {
      SeekEnd(f, i, r, p, rules);
    } else {
      SeekNext(f, i, r, p, rules);
      StepTree(f, i, r, p, rules);
      StepAsks(f, i, r, p, rules);
      var s := Step(f, i, r, p, rules);
      NodeRef(f.tree, p);
      if s.0.tree != f.tree {
        if Matching(f.tree, i, p, rules, Whole) { MatchingIs(f.tree, i, p, rules, Whole); }
          else { MatchingIs(f.tree, i, p, rules, Inner); }
        var m := At(f.tree, PathTo(f.tree, p)).data;
        SetElsewhere(f.tree, p, a, Mark(m, r, true));
        SetElsewhere(f.tree, p, a, Mark(m, r, false));
      }
      SeekKeeps(s.0, i, r, s.1, rules, a);
    }
  }

  /** A class has a later node that gets the number. */
  lemma {:induction false} SeekMarks(f: Found, i: nat, r: nat, p: nat, rules: Rules) returns (a: nat)
    requires 0 < i < p <= Size(f.tree) && r != 0 && !f.inner && !f.whole
    requires var g := Seek(f, i, r, p, rules); g.inner || g.whole
    ensures var g := Seek(f, i, r, p, rules);
            p <= a < Size(f.tree) == Size(g.tree) && FlatT(f.tree)[a].data.ref == 0 && FlatT(g.tree)[a].data.ref == r
    decreases Size(f.tree) - p
  {
    hide *;
    if p == Size(f.tree) {
      SeekEnd(f, i, r, p, rules);
      assert false;
    }
    SeekNext(f, i, r, p, rules);
    StepMarks(f, i, r, p, rules);
    NodeRef(f.tree, p);
    var s := Step(f, i, r, p, rules);
    if s.0.inner || s.0.whole {
      a := p;
      SeekBefore(s.0, i, r, s.1, rules, p);
    } else {
      a := SeekMarks(s.0, i, r, s.1, rules);
    }
  }

  lemma StepMarks(f: Found, i: nat, r: nat, j: nat, rules: Rules)
    requires 0 < i < j < Size(f.tree) && !f.inner && !f.whole
    ensures var s, t := Step(f, i, r, j, rules).0, f.tree;
            && (if s.inner || s.whole then
                  At(t, PathTo(t, j)).data.ref == 0 && Size(s.tree) == Size(t) && FlatT(s.tree)[j].data.ref == r
                else s.tree == t)
  {
    var t := f.tree;
    var m := At(t, PathTo(t, j)).data;
    SetThere(t, j, Mark(m, r, true));
    SetThere(t, j, Mark(m, r, false));
    hide MatchOf, SetData, Poor, PathTo, At, FlatT;
  }

  lemma SetThere(t: Tree, j: nat, d: Data)
    requires j < Size(t)
    ensures var u := SetData(t, PathTo(t, j), d); Size(u) == Size(t) && FlatT(u)[j].data == d
  {
    PathToPos(t, PathTo(t, j));
    SetDataFlat(t, PathTo(t, j), d);
    NodeCell(t, PathTo(t, j));
  }

  // ----- Through the whole pass -----

  lemma {:induction false} SeekForm(f: Found, i: nat, r: nat, p: nat, rules: Rules)
    requires 0 < i < p <= Size(f.tree)
    ensures SameForm(f.tree, Seek(f, i, r, p, rules).tree)
    decreases Size(f.tree) - p
  {
    hide *;
    if p == Size(f.tree) {
      SeekEnd(f, i, r, p, rules);
      FormSelf(f.tree);
    } else {
      SeekNext(f, i, r, p, rules);
      StepTree(f, i, r, p, rules);
      var s := Step(f, i, r, p, rules);
      var q := PathTo(f.tree, p);
      NodeRef(f.tree, p);
      FormSelf(f.tree);
      MarkTyp(At(f.tree, q).data, r, true);
      MarkTyp(At(f.tree, q).data, r, false);
      FormSet(f.tree, q, Mark(At(f.tree, q).data, r, true));
      FormSet(f.tree, q, Mark(At(f.tree, q).data, r, false));
      SeekForm(s.0, i, r, s.1, rules);
      FormTrans(f.tree, s.0.tree, Seek(s.0, i, r, s.1, rules).tree);
    }
  }

  lemma MarkTyp(d: Data, r: nat, kind: bool)
    ensures Mark(d, r, kind).typ == d.typ && Mark(d, r, kind).ref == r
  {
  }

  /** What a class does to the numbers. */
  lemma ClassNumbers(t: Tree, i: nat, rules: Rules, a: nat)
    requires 0 < i < Size(t) && a < Size(t) && a != i && FlatT(t)[a].data.ref != 0
    ensures var u := MarkClass(t, i, rules).0; SameForm(t, u) && Size(u) == Size(t) && FlatT(u)[a] == FlatT(t)[a]
  {
    hide *;
    ClassIs(t, i, rules);
    var q, l, g := PathTo(t, i), At(t, PathTo(t, i)), ClassSeek(t, i, rules);
    var f := Found(t, false, false, false);
    SeekKeeps(f, i, l.id, i + Size(l), rules, a);
    LeaderForm(t, i, rules);
    if g.inner || g.whole { SetElsewhere(g.tree, i, a, Mark(l.data, l.id, g.inner)); }
  }

  /** The first node of a class is where it was. */
  lemma LeaderForm(t: Tree, i: nat, rules: Rules)
    requires 0 < i < Size(t)
    ensures var g, u := ClassSeek(t, i, rules), MarkClass(t, i, rules).0;
            SameForm(t, g.tree) && SameForm(t, u) && Size(u) == Size(g.tree) == Size(t)
              && PathTo(g.tree, i) == PathTo(t, i)
  {
    hide *;
    ClassIs(t, i, rules);
    var q, l, g := PathTo(t, i), At(t, PathTo(t, i)), ClassSeek(t, i, rules);
    SeekForm(Found(t, false, false, false), i, l.id, i + Size(l), rules);
    FormIndex(t, g.tree, i);
    FormTyp(t, g.tree);
    FormTyp(At(t, q), At(g.tree, q));
    MarkTyp(l.data, l.id, g.inner);
    FormSet(g.tree, q, Mark(l.data, l.id, g.inner));
    FormTrans(t, g.tree, SetData(g.tree, q, Mark(l.data, l.id, g.inner)));
    FormTyp(t, MarkClass(t, i, rules).0);
  }

  lemma BelowRecForm(t: Tree, u: Tree, a: nat)
    requires SameForm(t, u) && 0 < a < Size(t)
    ensures Size(u) == Size(t) && PathTo(u, a) == PathTo(t, a) && ValidPath(t, PathTo(t, a))
            && ValidPath(u, PathTo(t, a)) && PathTo(t, a) != []
    ensures BelowRec(t, PathTo(t, a)) == BelowRec(u, PathTo(t, a))
  {
    hide FlatT, SameForm, Pos, PathTo, At;
    var q := PathTo(t, a);
    FormIndex(t, u, a);
    NodeRef(t, a);
    NodeRef(u, a);
    UpValid(t, q);
    UpValid(u, q);
    FormPath(t, u, Up(q));
    FormTyp(At(t, Up(q)), At(u, Up(q)));
  }

  lemma NodePath(t: Tree, i: nat)
    requires 0 < i < Size(t)
    ensures var q := PathTo(t, i); q != [] && ValidPath(t, q) && i + Size(At(t, q)) <= Size(t)
  {
    PosBound(t, PathTo(t, i));
  }

  lemma RunSkip(t: Tree, i: nat, rules: Rules)
    requires 0 < i < Size(t) && PathTo(t, i) != [] && ValidPath(t, PathTo(t, i))
             && i + Size(At(t, PathTo(t, i))) <= Size(t)
    requires At(t, PathTo(t, i)).data.ref != 0 && !BelowRec(t, PathTo(t, i))
    ensures MarkFrom(t, i, rules) == MarkFrom(t, i + Size(At(t, PathTo(t, i))), rules)
  {
    hide Candidate, BelowRec, MarkClass, At, PathTo;
  }

  lemma RunPass(t: Tree, i: nat, rules: Rules)
    requires 0 < i < Size(t) && PathTo(t, i) != [] && ValidPath(t, PathTo(t, i))
    requires At(t, PathTo(t, i)).data.ref == 0 || BelowRec(t, PathTo(t, i))
    requires !Candidate(t, PathTo(t, i), rules)
    ensures MarkFrom(t, i, rules) == MarkFrom(t, i + 1, rules)
  {
    hide Candidate, BelowRec, MarkClass, At, PathTo;
  }

  lemma RunClass(t: Tree, i: nat, rules: Rules)
    requires 0 < i < Size(t) && PathTo(t, i) != [] && ValidPath(t, PathTo(t, i))
    requires At(t, PathTo(t, i)).data.ref == 0 || BelowRec(t, PathTo(t, i))
    requires Candidate(t, PathTo(t, i), rules)
    ensures MarkFrom(t, i, rules).0 == MarkFrom(MarkClass(t, i, rules).0, i + 1, rules).0
  {
    hide Candidate, BelowRec, MarkClass, At, PathTo;
  }

  /** One round of the outer loop. */
  lemma RunNext(t: Tree, i: nat, rules: Rules)
    requires 0 < i < Size(t)
    ensures var q, n := PathTo(t, i), At(t, PathTo(t, i));
            && q != [] && ValidPath(t, q) && i + Size(n) <= Size(t)
            && MarkFrom(t, i, rules).0 ==
               (if n.data.ref != 0 && !BelowRec(t, q) then MarkFrom(t, i + Size(n), rules).0
                else if !Candidate(t, q, rules) then MarkFrom(t, i + 1, rules).0
                else MarkFrom(MarkClass(t, i, rules).0, i + 1, rules).0)
  {
    hide *;
    NodePath(t, i);
    var q, n := PathTo(t, i), At(t, PathTo(t, i));
    if n.data.ref != 0 && !BelowRec(t, q) {
      RunSkip(t, i, rules);
    } else if !Candidate(t, q, rules) {
      RunPass(t, i, rules);
    } else {
      RunClass(t, i, rules);
    }
  }

  /** A number that is not one of a child of a recursion stays to the end. */
  lemma {:induction false} RunKeeps(t: Tree, i: nat, rules: Rules, a: nat)
    requires 0 < i <= Size(t) && 0 < a < Size(t) && FlatT(t)[a].data.ref != 0
    requires PathTo(t, a) != [] && ValidPath(t, PathTo(t, a)) && !BelowRec(t, PathTo(t, a))
    ensures var u := MarkFrom(t, i, rules).0; Size(u) == Size(t) && FlatT(u)[a] == FlatT(t)[a]
    decreases Size(t) - i
  {
    hide *;
    if i < Size(t) {
      RunNext(t, i, rules);
      NodeRef(t, i);
      var n := At(t, PathTo(t, i));
      SizeAtLeast(n);
      if n.data.ref != 0 && !BelowRec(t, PathTo(t, i)) {
        RunKeeps(t, i + Size(n), rules, a);
      } else if !Candidate(t, PathTo(t, i), rules) {
        RunKeeps(t, i + 1, rules, a);
      } else {
        ClassNumbers(t, i, rules, a);
        var u := MarkClass(t, i, rules).0;
        BelowRecForm(t, u, a);
        RunKeeps(u, i + 1, rules, a);
      }
    } else {
      RunEnd(t, rules);
    }
  }

  lemma SizeAtLeast(t: Tree)
    ensures Size(t) >= 1
  {
  }

  lemma RunEnd(t: Tree, rules: Rules)
    ensures Size(t) >= 1 && MarkFrom(t, Size(t), rules) == (t, false)
  {
  }

  /**
   Where a class starts, some later node that had no number gets the id of its first node, and keeps it unless it is
   itself a child of a recursion. The pass does not look whether that id is a number of the other pass already.
  */
  lemma NumberTaken(t: Tree, i: nat, rules: Rules) returns (a: nat)
    requires 0 < i < Size(t) && FlatT(t)[i].id != 0 && Starts(t, i, rules)
    requires ValidPath(t, PathTo(t, i)) && PathTo(t, i) != [] && Candidate(t, PathTo(t, i), rules)
    requires FlatT(t)[i].data.ref == 0 || BelowRec(t, PathTo(t, i))
    ensures i < i + Size(At(t, PathTo(t, i))) <= a < Size(t) && FlatT(t)[a].data.ref == 0
    ensures PathTo(t, a) != [] && ValidPath(t, PathTo(t, a))
    ensures var u := MarkFrom(t, i, rules).0;
            Size(u) == Size(t) && (!BelowRec(t, PathTo(t, a)) ==> FlatT(u)[a].data.ref == FlatT(t)[i].id)
  {
    hide *;
    ClassIs(t, i, rules);
    NodeRef(t, i);
    var q, l, g := PathTo(t, i), At(t, PathTo(t, i)), ClassSeek(t, i, rules);
    SizeAtLeast(l);
    a := SeekMarks(Found(t, false, false, false), i, l.id, i + Size(l), rules);
    LeaderForm(t, i, rules);
    SetElsewhere(g.tree, i, a, Mark(l.data, l.id, g.inner));
    var v := MarkClass(t, i, rules).0;
    BelowRecForm(t, v, a);
    RunNext(t, i, rules);
    if BelowRec(t, PathTo(t, a)) {
      RunSize(v, i + 1, rules);
    } else {
      RunKeeps(v, i + 1, rules, a);
    }
  }

  lemma {:induction false} RunSize(t: Tree, i: nat, rules: Rules)
    requires 0 < i <= Size(t)
    ensures Size(MarkFrom(t, i, rules).0) == Size(t)
    decreases Size(t) - i
  {
    hide *;
    if i < Size(t) {
      RunNext(t, i, rules);
      var n := At(t, PathTo(t, i));
      SizeAtLeast(n);
      LeaderForm(t, i, rules);
      if n.data.ref != 0 && !BelowRec(t, PathTo(t, i)) {
        RunSize(t, i + Size(n), rules);
      } else if !Candidate(t, PathTo(t, i), rules) {
        RunSize(t, i + 1, rules);
      } else {
        RunSize(MarkClass(t, i, rules).0, i + 1, rules);
      }
    } else {
      RunEnd(t, rules);
    }
  }

  // ----- Every match that is reached -----

  /** The match is worth a grouping. */
  predicate Worth(t: Tree, i: nat, j: nat, rules: Rules, m: Match)
    requires 0 < i < Size(t) && 0 < j < Size(t)
  {
    m == Whole || (m == Inner && (!Poor(t, i) || rules.splittable(At(t, PathTo(t, j)).id)))
  }

  lemma WorthSome(t: Tree, i: nat, j: nat, rules: Rules, m: Match)
    requires 0 < i < Size(t) && 0 < j < Size(t) && Worth(t, i, j, rules, m)
    ensures m != No
  {
  }

  lemma WorthSame(t: Tree, u: Tree, i: nat, j: nat, rules: Rules, m: Match)
    requires 0 < i < Size(t) == Size(u) && 0 < j < Size(t) && Worth(t, i, j, rules, m) && Poor(t, i) == Poor(u, i)
    requires At(t, PathTo(t, j)).id == At(u, PathTo(u, j)).id
    ensures Worth(u, i, j, rules, m)
  {
    hide Poor, At, PathTo;
  }

  lemma StepTakes(f: Found, i: nat, r: nat, j: nat, rules: Rules, m: Match)
    requires 0 < i < j < Size(f.tree) && Matching(f.tree, i, j, rules, m) && Worth(f.tree, i, j, rules, m)
    ensures var u := Step(f, i, r, j, rules).0.tree; Size(u) == Size(f.tree) && FlatT(u)[j].data.ref == r
  {
    var t := f.tree;
    var d := At(t, PathTo(t, j)).data;
    SetThere(t, j, Mark(d, r, true));
    SetThere(t, j, Mark(d, r, false));
    hide MatchOf, SetData, Poor, PathTo, At, FlatT;
  }

  lemma {:induction false} SeekTakes(f: Found, i: nat, r: nat, p: nat, rules: Rules, t: Tree, j: nat, m: Match)
    requires Begun(t, f.tree, i, p) && 0 < i < p <= j < Size(t) == Size(f.tree) && KeyLeaves(t)
    requires Matching(t, i, j, rules, m) && Worth(t, i, j, rules, m) && Reached(t, p, j)
    ensures var u := Seek(f, i, r, p, rules).tree; Size(u) == Size(t) && FlatT(u)[j].data.ref == r
    decreases Size(t) - p
  {
    hide *;
    WorthSome(t, i, j, rules, m);
    var s := Step(f, i, r, p, rules);
    SeekNext(f, i, r, p, rules);
    BegunNext(f, i, r, p, rules, t);
    BegunParts(t, f.tree, i, p);
    if p == j {
      RangeNode(t, f.tree, p, j);
      MatchingSame(t, f.tree, i, j, rules, m);
      PoorForm(t, f.tree, i);
      WorthSame(t, f.tree, i, j, rules, m);
      StepTakes(f, i, r, j, rules, m);
      SeekBefore(s.0, i, r, s.1, rules, j);
    } else {
      NoJump(f, i, r, p, rules, t, j, m);
      StepGoes(f, i, r, p, rules);
      ReachedLater(t, p, j, s.1);
      SeekTakes(s.0, i, r, s.1, rules, t, j, m);
    }
  }

  lemma ClassTakes(t: Tree, i: nat, rules: Rules, j: nat, m: Match)
    requires 0 < i < j < Size(t) && KeyLeaves(t) && After(t, i, j) && Matching(t, i, j, rules, m)
    requires Worth(t, i, j, rules, m) && Reached(t, i + Size(At(t, PathTo(t, i))), j)
    ensures var u := MarkClass(t, i, rules).0; Size(u) == Size(t) && FlatT(u)[j].data.ref == At(t, PathTo(t, i)).id
  {
    hide *;
    ClassIs(t, i, rules);
    AfterIs(t, i, j);
    LeaderForm(t, i, rules);
    var l, g := At(t, PathTo(t, i)), ClassSeek(t, i, rules);
    FormSelf(t);
    SelfRange(t, i, Size(l));
    SelfRange(t, i + Size(l), Size(t) - (i + Size(l)));
    BegunThus(t, t, i, i + Size(l));
    SeekTakes(Found(t, false, false, false), i, l.id, i + Size(l), rules, t, j, m);
    SetElsewhere(g.tree, i, j, Mark(l.data, l.id, g.inner));
  }

  /**
   At a node that may start a class every match that is not below another number gets the id of the node, and keeps it
   unless it is a child of a recursion: the two need not have anything to do with a choice that the id was given to.
  */
  lemma MatchTaken(t: Tree, i: nat, rules: Rules, j: nat, m: Match)
    requires 0 < i < j < Size(t) && FlatT(t)[i].id != 0 && KeyLeaves(t)
    requires ValidPath(t, PathTo(t, i)) && PathTo(t, i) != [] && Candidate(t, PathTo(t, i), rules)
    requires FlatT(t)[i].data.ref == 0 || BelowRec(t, PathTo(t, i))
    requires After(t, i, j) && Matching(t, i, j, rules, m) && Worth(t, i, j, rules, m)
    requires Reached(t, i + Size(At(t, PathTo(t, i))), j)
    requires PathTo(t, j) != [] && ValidPath(t, PathTo(t, j)) && !BelowRec(t, PathTo(t, j))
    ensures var u := MarkFrom(t, i, rules).0; Size(u) == Size(t) && FlatT(u)[j].data.ref == FlatT(t)[i].id
  {
    hide *;
    NodeRef(t, i);
    LeaderForm(t, i, rules);
    ClassTakes(t, i, rules, j, m);
    var v := MarkClass(t, i, rules).0;
    BelowRecForm(t, v, j);
    RunNext(t, i, rules);
    RunKeeps(v, i + 1, rules, j);
  }

  // ----- What a class leaves alone -----

  /** The node at index `a` is no later match of the one at `i`. */
  predicate NoMatch(t: Tree, i: nat, a: nat, rules: Rules)
    requires 0 < i < Size(t) && 0 < a < Size(t)
  {
    !Matching(t, i, a, rules, Whole) && !Matching(t, i, a, rules, Inner)
  }

  lemma StepLeaves(f: Found, i: nat, r: nat, p: nat, rules: Rules, t: Tree, a: nat)
    requires Begun(t, f.tree, i, p) && 0 < i < p < Size(t) == Size(f.tree) && 0 < a < Size(t)
    requires p == a ==> NoMatch(t, i, a, rules)
    ensures var u := Step(f, i, r, p, rules).0.tree; Size(u) == Size(t) && FlatT(u)[a] == FlatT(f.tree)[a]
  {
    hide *;
    BegunParts(t, f.tree, i, p);
    StepTree(f, i, r, p, rules);
    var m := At(f.tree, PathTo(f.tree, p)).data;
    if p == a {
      RangeNode(t, f.tree, p, p);
      MatchingSame(t, f.tree, i, p, rules, Whole);
      MatchingSame(t, f.tree, i, p, rules, Inner);
      StepAsks(f, i, r, p, rules);
      NoMatchIs(t, i, a, rules);
    } else {
      SetElsewhere(f.tree, p, a, Mark(m, r, true));
      SetElsewhere(f.tree, p, a, Mark(m, r, false));
    }
  }

  lemma NoMatchIs(t: Tree, i: nat, a: nat, rules: Rules)
    requires 0 < i < Size(t) && 0 < a < Size(t) && NoMatch(t, i, a, rules)
    ensures !Matching(t, i, a, rules, Whole) && !Matching(t, i, a, rules, Inner)
  {
  }

  lemma {:induction false} SeekLeaves(f: Found, i: nat, r: nat, p: nat, rules: Rules, t: Tree, a: nat)
    requires Begun(t, f.tree, i, p) && 0 < i < p <= Size(t) == Size(f.tree) && 0 < a < Size(t)
    requires p <= a ==> NoMatch(t, i, a, rules)
    ensures var u := Seek(f, i, r, p, rules).tree; Size(u) == Size(t) && FlatT(u)[a] == FlatT(f.tree)[a]
    decreases Size(t) - p
  {
    hide *;
    if p == Size(t) {
      SeekEnd(f, i, r, p, rules);
    } else {
      var s := Step(f, i, r, p, rules);
      SeekNext(f, i, r, p, rules);
      BegunNext(f, i, r, p, rules, t);
      StepLeaves(f, i, r, p, rules, t, a);
      SeekLeaves(s.0, i, r, s.1, rules, t, a);
    }
  }

  /** A class changes only its first node and later matches. */
  lemma ClassLeaves(t: Tree, i: nat, rules: Rules, a: nat)
    requires 0 < i < Size(t) && 0 < a < Size(t) && a != i && (After(t, i, a) ==> NoMatch(t, i, a, rules))
    ensures var u := MarkClass(t, i, rules).0; Size(u) == Size(t) && FlatT(u)[a] == FlatT(t)[a]
  {
    hide *;
    ClassIs(t, i, rules);
    LeaderForm(t, i, rules);
    var l, g := At(t, PathTo(t, i)), ClassSeek(t, i, rules);
    if i + Size(l) <= a { AfterIs(t, i, a); }
    FormSelf(t);
    SelfRange(t, i, Size(l));
    SelfRange(t, i + Size(l), Size(t) - (i + Size(l)));
    BegunThus(t, t, i, i + Size(l));
    SeekLeaves(Found(t, false, false, false), i, l.id, i + Size(l), rules, t, a);
    SetElsewhere(g.tree, i, a, Mark(l.data, l.id, g.inner));
  }
}
