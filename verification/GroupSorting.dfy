/** The fixpoint loop that sorts the groupings: it ends for every input that can be sorted. */
module GroupSorting {
  import opened GroupOrder

  predicate Unlike(dict: seq<GroupKey>) {
    forall i, j :: 0 <= i < j < |dict| ==> dict[i].gr != dict[j].gr
  }

  function CountLeft(left: seq<bool>): nat {
    if left == [] then 0 else (if left[0] then 1 else 0) + CountLeft(left[1..])
  }

  lemma {:induction false} CountSet(left: seq<bool>, i: nat)
    requires i < |left| && left[i]
    ensures CountLeft(left[i := false]) + 1 == CountLeft(left)
    decreases |left|
  {
    if i > 0 {
      CountSet(left[1..], i - 1);
      assert left[i := false][1..] == left[1..][i - 1 := false];
    } else {
      assert left[0 := false][1..] == left[1..];
    }
  }

  lemma {:induction false} CountSome(left: seq<bool>)
    ensures CountLeft(left) > 0 <==> exists i :: 0 <= i < |left| && left[i]
    decreases |left|
  {
    if left != [] {
      CountSome(left[1..]);
      if CountLeft(left[1..]) > 0 {
        var i :| 0 <= i < |left[1..]| && left[1..][i];
        assert left[i + 1];
      }
      if i :| 0 <= i < |left| && left[i] {
        if i > 0 { assert left[1..][i - 1]; }
      }
    }
  }

  lemma {:induction false} CountAll(left: seq<bool>)
    requires forall i :: 0 <= i < |left| ==> left[i]
    ensures CountLeft(left) == |left|
  {
    if left != [] { CountAll(left[1..]); }
  }

  /** What is sorted so far: a part of the groupings, each behind all it uses. */
  ghost predicate Partial(dict: seq<GroupKey>, left: seq<bool>, sort: seq<nat>) {
    && |left| == |dict| && CountLeft(left) + |sort| == |dict| && NoTwice(sort)
    && (forall i :: 0 <= i < |dict| ==> (left[i] <==> dict[i].gr !in sort))
    && (forall i, u :: 0 <= i < |dict| && !left[i] && u in dict[i].uses ==> Precedes(u, dict[i].gr, sort))
  }

  lemma PartialAdd(dict: seq<GroupKey>, left: seq<bool>, sort: seq<nat>, i: nat)
    requires Partial(dict, left, sort) && Unlike(dict) && i < |dict| && left[i]
    requires forall u :: u in dict[i].uses ==> u in sort
    ensures Partial(dict, left[i := false], sort + [dict[i].gr])
  {
    var g, s, l := dict[i].gr, sort + [dict[i].gr], left[i := false];
    CountSet(left, i);
    assert NoTwice(s);
    forall k | 0 <= k < |dict| ensures l[k] <==> dict[k].gr !in s {
      if k != i { assert dict[k].gr != g; }
    }
    forall k, u | 0 <= k < |dict| && !l[k] && u in dict[k].uses ensures Precedes(u, dict[k].gr, s) {
      PrecedesMore(u, dict[k].gr, sort, [g]);
      if k == i { assert g in [g]; }
    }
  }

  lemma PartialDone(dict: seq<GroupKey>, left: seq<bool>, sort: seq<nat>)
    requires Partial(dict, left, sort) && |sort| == |dict|
    ensures Topological(dict, sort)
  {
    CountSome(left);
    forall i | 0 <= i < |dict| ensures dict[i].gr in sort { assert !left[i]; }
    forall i, u | 0 <= i < |dict| && u in dict[i].uses ensures Precedes(u, dict[i].gr, sort) { assert !left[i]; }
  }

  /** Some grouping that is left has nothing left that it uses: the first in an order that exists. */
  lemma Resolvable(dict: seq<GroupKey>, left: seq<bool>, sort: seq<nat>, order: seq<nat>) returns (m: nat)
    requires Topological(dict, order) && Partial(dict, left, sort) && |sort| < |dict|
    requires Unlike(dict)
    ensures m < |dict| && left[m] && forall u :: u in dict[m].uses ==> u in sort
  {
    CountSome(left);
    OrderIsDict(dict, order);
    var i0 :| 0 <= i0 < |dict| && left[i0];
    var j0 :| 0 <= j0 < |order| && order[j0] == dict[i0].gr;
    m := FirstLeft(dict, left, order, j0, i0);
    var j :| 0 <= j < |order| && order[j] == dict[m].gr
      && forall k, i :: 0 <= k < j && 0 <= i < |dict| && dict[i].gr == order[k] ==> !left[i];
    forall u | u in dict[m].uses ensures u in sort {
      assert Precedes(u, dict[m].gr, order);
      var a, b :| 0 <= a < b < |order| && order[a] == u && order[b] == dict[m].gr;
      assert b == j;
      var i :| 0 <= i < |dict| && dict[i].gr == u;
      assert !left[i];
    }
  }

  /** Every uses refers to a grouping there is. */
  ghost predicate UsesKnown(dict: seq<GroupKey>) {
    forall i, u :: 0 <= i < |dict| && u in dict[i].uses ==> exists k :: 0 <= k < |dict| && dict[k].gr == u
  }

  function Elements(s: seq<nat>): set<nat> {
    set x | x in s
  }

  lemma {:induction false} ElementCount(s: seq<nat>)
    requires NoTwice(s)
    ensures |Elements(s)| == |s|
    decreases |s|
  {
    if s != [] {
      var a, x := s[..|s| - 1], s[|s| - 1];
      ElementCount(a);
      assert s == a + [x];
      assert Elements(s) == Elements(a) + {x};
    }
  }

  lemma SameSet(a: set<nat>, b: set<nat>)
    requires a <= b && |a| == |b|
    ensures a == b
  {
    if x :| x in b && x !in a {
      assert a <= b - {x};
      SubsetSize(a, b - {x});
    }
  }

  lemma {:induction false} SubsetSize(a: set<nat>, b: set<nat>)
    requires a <= b
    ensures |a| <= |b|
    decreases a
  {
    if x :| x in a {
      SubsetSize(a - {x}, b - {x});
    }
  }

  /** An order holds nothing but the groupings. */
  lemma OrderIsDict(dict: seq<GroupKey>, order: seq<nat>)
    requires Topological(dict, order) && Unlike(dict)
    ensures UsesKnown(dict)
  {
    var grs := seq(|dict|, i requires 0 <= i < |dict| => dict[i].gr);
    ElementCount(grs);
    ElementCount(order);
    assert Elements(grs) <= Elements(order);
    SameSet(Elements(grs), Elements(order));
    forall i, u | 0 <= i < |dict| && u in dict[i].uses ensures exists k :: 0 <= k < |dict| && dict[k].gr == u {
      assert Precedes(u, dict[i].gr, order);
      assert u in Elements(order);
      assert u in grs;
      var k :| 0 <= k < |grs| && grs[k] == u;
      assert dict[k].gr == u;
    }
  }

  lemma {:induction false} FirstLeft(dict: seq<GroupKey>, left: seq<bool>, order: seq<nat>, j: nat,
                                     i: nat) returns (m: nat)
    requires |left| == |dict| && j < |order| && i < |dict| && left[i] && order[j] == dict[i].gr
    ensures m < |dict| && left[m]
    ensures exists j' :: 0 <= j' < |order| && order[j'] == dict[m].gr
                         && forall k, i :: 0 <= k < j' && 0 <= i < |dict| && dict[i].gr == order[k] ==> !left[i]
    decreases j
  {
    if k, l :| 0 <= k < j && 0 <= l < |dict| && dict[l].gr == order[k] && left[l] {
      m := FirstLeft(dict, left, order, k, l);
    } else {
      m := i;
    }
  }

  /** Whether all of `uses` are sorted already. */
  method AllSorted(uses: seq<nat>, sort: seq<nat>) returns (all: bool)
    ensures all <==> forall u :: u in uses ==> u in sort
  {
    var j := 0;
    while j < |uses|
      invariant 0 <= j <= |uses| && forall i :: 0 <= i < j ==> uses[i] in sort
    {
      var found, k := false, 0;
      while k < |sort| && !found
        invariant 0 <= k <= |sort| && (found ==> uses[j] in sort) && (!found ==> uses[j] !in sort[..k])
      {
        if sort[k] == uses[j] {
          found := true;
        }
        k := k + 1;
      }
      if !found {
        assert sort[..|sort|] == sort;
        assert uses[j] in uses && uses[j] !in sort;
        return false;
      }
      j := j + 1;
    }
    all := true;
  }

  /** One pass over the groupings that are left. */
  method SortPass(dict: seq<GroupKey>, left: array<bool>, sort0: seq<nat>,
                  ghost order: seq<nat>) returns (sort: seq<nat>)
    requires Topological(dict, order) && Unlike(dict)
    requires left.Length == |dict| && Partial(dict, left[..], sort0) && |sort0| < |dict|
    modifies left
    ensures Partial(dict, left[..], sort) && |sort| > |sort0|
  {
    ghost var m := Resolvable(dict, left[..], sort0, order);
    sort := sort0;
    var i := 0;
    while i < |dict|
      invariant 0 <= i <= |dict| && Partial(dict, left[..], sort) && |sort| >= |sort0|
      invariant |sort| == |sort0| ==> sort == sort0 && i <= m && left[m]
    {
      if left[i] {
        var resolved := AllSorted(dict[i].uses, sort);
        if resolved {
          PartialAdd(dict, left[..], sort, i);
          sort := sort + [dict[i].gr];
          left[i] := false;
        }
      }
      i := i + 1;
    }
  }

  /** The fixpoint loop. It ends, and with a right order, whenever there is one. */
  method SortGroups(dict: seq<GroupKey>, ghost order: seq<nat>) returns (sort: seq<nat>)
    requires Topological(dict, order) && Unlike(dict)
    ensures Topological(dict, sort)
  {
    var left := new bool[|dict|](i => true);
    sort := [];
    CountAll(left[..]);
    while |sort| < |dict|
      invariant Partial(dict, left[..], sort) && |sort| <= |dict| && left.Length == |dict|
      decreases |dict| - |sort|
    {
      sort := SortPass(dict, left, sort, order);
    }
    PartialDone(dict, left[..], sort);
  }
}
