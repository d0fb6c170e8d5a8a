/** Replacing whole subtrees, and the edits of the tree editor seen as such replacements. */
module GroupingEdits {
  import opened YNodes
  import opened RoseTree
  import opened TreeLinks
  import opened TreeEdits
  import opened ConversionFacts
  import opened Groupings

  lemma {:induction false} ReplaceFacts(t: Tree, q: Path, u: Tree)
    requires ValidPath(t, q)
    ensures var r := ReplaceAt(t, q, u); ValidPath(r, q) && At(r, q) == u && Pos(r, q) == Pos(t, q)
    ensures ReplaceAt(t, q, At(t, q)) == t
    decreases |q|
  {
    if q != [] {
      var k := q[0];
      ReplaceFacts(t.kids[k], q[1..], u);
      var r := ReplaceAt(t, q, u);
      assert r.kids[..k] == t.kids[..k];
      assert t.kids[k := t.kids[k]] == t.kids;
    }
  }

  lemma {:induction false} ReplaceTwice(t: Tree, q: Path, x: Tree, y: Tree)
    requires ValidPath(t, q)
    ensures ValidPath(ReplaceAt(t, q, x), q) && ReplaceAt(ReplaceAt(t, q, x), q, y) == ReplaceAt(t, q, y)
    decreases |q|
  {
    if q != [] {
      var k := q[0];
      ReplaceTwice(t.kids[k], q[1..], x, y);
      var v, w := ReplaceAt(t.kids[k], q[1..], x), ReplaceAt(t.kids[k], q[1..], y);
      assert t.kids[k := v][k := w] == t.kids[k := w];
    }
  }

  lemma {:induction false} SpliceAt(t: Tree, q: Path, a: nat, b: nat, z: seq<Tree>)
    requires ValidPath(t, q) && a <= b <= |At(t, q).kids|
    ensures var l := At(t, q); Splice(t, q, a, b, z) == ReplaceAt(t, q, l.(kids := l.kids[..a] + z + l.kids[b..]))
    decreases |q|
  {
    if q != [] {
      SpliceAt(t.kids[q[0]], q[1..], a, b, z);
    }
  }

  lemma {:induction false} SetAt(t: Tree, q: Path, d: Data)
    requires ValidPath(t, q)
    ensures SetData(t, q, d) == ReplaceAt(t, q, At(t, q).(data := d))
    decreases |q|
  {
    if q != [] {
      SetAt(t.kids[q[0]], q[1..], d);
    }
  }

  lemma {:induction false} ReplaceKid(t: Tree, q: Path, k: nat, v: Tree)
    requires ValidPath(t, q) && k < |At(t, q).kids|
    ensures ValidPath(t, q + [k]) && At(t, q + [k]) == At(t, q).kids[k]
    ensures var l := At(t, q); ReplaceAt(t, q + [k], v) == ReplaceAt(t, q, l.(kids := l.kids[k := v]))
    decreases |q|
  {
    if q == [] {
      assert [k][1..] == [];
    } else {
      ReplaceKid(t.kids[q[0]], q[1..], k, v);
      assert (q + [k])[1..] == q[1..] + [k];
    }
  }

  lemma PutOne(t: Tree, q: Path, x: Tree)
    requires q != [] && ValidPath(t, q)
    ensures Put(t, q, [x]) == ReplaceAt(t, q, x)
  {
    UpValid(t, q);
    var p, a := Up(q), Last(q);
    var f := At(t, p).kids;
    SpliceAt(t, p, a, a + 1, [x]);
    ReplaceKid(t, p, a, x);
    assert p + [a] == q;
    assert f[..a] + [x] + f[a + 1..] == f[a := x];
  }

  /** The index of a child is where its path leads. */
  lemma KidIndex(t: Tree, q: Path, k: nat)
    requires ValidPath(t, q) && k < |At(t, q).kids|
    ensures var i := RangeStart(t, q, k);
            && Pos(t, q) < i < Size(t) && ValidPath(t, q + [k]) && PathTo(t, i) == q + [k]
            && FlatT(t)[i].data == At(t, q).kids[k].data
  {
    KidNode(t, q, k);
    KidData(t, q, k);
    ExtendPath(t, q, k);
    assert Up(q + [k]) == q && Last(q + [k]) == k;
    UpValid(t, q + [k]);
    PathToPos(t, q + [k]);
  }

  /** Data set at a child of a replaced node. */
  lemma SetKid(t: Tree, q: Path, l: Tree, k: nat, d: Data)
    requires ValidPath(t, q) && k < |l.kids|
    ensures var u := ReplaceAt(t, q, l);
            && ValidPath(u, q) && At(u, q) == l && ValidPath(u, q + [k])
            && SetData(u, q + [k], d) == ReplaceAt(t, q, l.(kids := l.kids[k := l.kids[k].(data := d)]))
  {
    var u := ReplaceAt(t, q, l);
    ReplaceFacts(t, q, l);
    var v := l.kids[k].(data := d);
    ReplaceKid(u, q, k, v);
    SetAt(u, q + [k], d);
    ReplaceTwice(t, q, l, l.(kids := l.kids[k := v]));
  }

  /** Data set at a replaced node. */
  lemma SetTop(t: Tree, q: Path, l: Tree, d: Data)
    requires ValidPath(t, q)
    ensures var u := ReplaceAt(t, q, l);
            ValidPath(u, q) && At(u, q) == l && SetData(u, q, d) == ReplaceAt(t, q, l.(data := d))
  {
    ReplaceFacts(t, q, l);
    SetAt(ReplaceAt(t, q, l), q, d);
    ReplaceTwice(t, q, l, l.(data := d));
  }

  /** Children changed at a replaced node. */
  lemma SpliceTop(t: Tree, q: Path, l: Tree, a: nat, b: nat, z: seq<Tree>)
    requires ValidPath(t, q) && a <= b <= |l.kids|
    ensures var u := ReplaceAt(t, q, l);
            && ValidPath(u, q) && At(u, q) == l
            && Splice(u, q, a, b, z) == ReplaceAt(t, q, l.(kids := l.kids[..a] + z + l.kids[b..]))
  {
    ReplaceFacts(t, q, l);
    SpliceAt(ReplaceAt(t, q, l), q, a, b, z);
    ReplaceTwice(t, q, l, l.(kids := l.kids[..a] + z + l.kids[b..]));
  }

  lemma PutIsSplice(t: Tree, q: Path, r: seq<Tree>)
    requires q != [] && ValidPath(t, q)
    ensures ValidPath(t, Up(q)) && Last(q) < |At(t, Up(q)).kids|
    ensures Put(t, q, r) == Splice(t, Up(q), Last(q), Last(q) + 1, r)
  {
    UpValid(t, q);
  }

  /** A second tree put behind the first. */
  lemma PutSecond(t: Tree, q: Path, x: Tree, y: Tree, d: Data)
    requires q != [] && ValidPath(t, q)
    ensures var u, v := Put(t, q, [x]), Put(t, q, [x, y]);
            && ValidPath(u, q) && ValidPath(u, Up(q)) && Last(q) + 1 <= |At(u, Up(q)).kids|
            && Splice(u, Up(q), Last(q) + 1, Last(q) + 1, [y]) == v
            && ValidPath(v, Up(q)) && Last(q) + 1 < |At(v, Up(q)).kids| && ValidPath(v, Up(q) + [Last(q) + 1])
            && At(v, Up(q) + [Last(q) + 1]) == y
            && SetData(v, Up(q) + [Last(q) + 1], d) == Put(t, q, [x, y.(data := d)])
  {
    UpValid(t, q);
    PutIsSplice(t, q, [x]);
    PutIsSplice(t, q, [x, y]);
    PutIsSplice(t, q, [x, y.(data := d)]);
    hide *;
    var p, a := Up(q), Last(q);
    var l := At(t, p);
    var f := l.kids;
    var l1 := l.(kids := f[..a] + [x] + f[a + 1..]);
    var l2 := l.(kids := f[..a] + [x, y] + f[a + 1..]);
    PutAt(t, q, [x]);
    SpliceAt(t, p, a, a + 1, [x]);
    SpliceAt(t, p, a, a + 1, [x, y]);
    SpliceAt(t, p, a, a + 1, [x, y.(data := d)]);
    TwoSlots(f, a, x, y, y.(data := d));
    SpliceTop(t, p, l1, a + 1, a + 1, [y]);
    ReplaceFacts(t, p, l2);
    ReplaceKid(Put(t, q, [x, y]), p, a + 1, y);
    SetKid(t, p, l2, a + 1, d);
  }

  lemma TwoSlots<T>(f: seq<T>, a: nat, x: T, y: T, z: T)
    requires a < |f|
    ensures var s, r := f[..a] + [x] + f[a + 1..], f[..a] + [x, y] + f[a + 1..];
            && a + 1 <= |s| && s[..a + 1] + [y] + s[a + 1..] == r
            && a + 1 < |r| && r[a + 1] == y && r[a + 1 := z] == f[..a] + [x, z] + f[a + 1..]
  {
  }
}
