/**
 One user-ordered YANG list and the Augeas siblings it stands for, kept in step by a diff. The label index of a
 node is computed on the YANG data, which has the change already, and used on the Augeas data, which has not.
*/
module DiffStore {
  import opened YNodes
  import opened AugeasSiblings

  /** An entry of the list with the node in it; a hidden one (no data-path) has no node in Augeas. */
  datatype Entry = Entry(key: nat, schema: nat, name: string, value: Option<string>, shown: bool)

  function ItemOf(e: Entry): Item {
    Item(e.name, e.value)
  }

  /** The Augeas siblings that a list stands for. */
  function Shown(y: seq<Entry>): (a: seq<Item>)
    ensures |a| <= |y|
  {
    if y == [] then [] else (if y[0].shown then [ItemOf(y[0])] else []) + Shown(y[1..])
  }

  /** Entries of one schema node are alike, and a label tells the schema node. */
  ghost predicate Uniform(y: seq<Entry>) {
    forall i, j :: 0 <= i < |y| && 0 <= j < |y| ==> Alike(y[i], y[j])
  }

  predicate Alike(d: Entry, e: Entry) {
    && (d.schema == e.schema ==> d.shown == e.shown)
    && (d.shown && e.shown && d.name == e.name ==> d.schema == e.schema)
  }

  ghost predicate Keys(y: seq<Entry>) {
    forall i, j :: 0 <= i < j < |y| ==> y[i].key != y[j].key
  }

  // ----- Label indexes -----

  /** The entries of a schema node and a label. */
  function Count(y: seq<Entry>, schema: nat, name: string): nat {
    if y == [] then 0 else (if y[0].schema == schema && y[0].name == name then 1 else 0) + Count(y[1..], schema, name)
  }

  /** augds_store_label_index and the path made with it: instances before this one count, of the same schema
      node and label. */
  function PlaceOf(y: seq<Entry>, p: nat): Place
    requires p < |y|
  {
    Place(y[p].name, 1 + Count(y[..p], y[p].schema, y[p].name))
  }

  lemma {:induction false} CountConcat(x: seq<Entry>, y: seq<Entry>, schema: nat, name: string)
    ensures Count(x + y, schema, name) == Count(x, schema, name) + Count(y, schema, name)
    decreases |x|
  {
    if x == [] {
      assert x + y == y;
    } else {
      assert (x + y)[1..] == x[1..] + y;
      CountConcat(x[1..], y, schema, name);
    }
  }

  lemma {:induction false} ShownConcat(x: seq<Entry>, y: seq<Entry>)
    ensures Shown(x + y) == Shown(x) + Shown(y)
    decreases |x|
  {
    if x == [] {
      assert x + y == y;
    } else {
      assert (x + y)[1..] == x[1..] + y;
      ShownConcat(x[1..], y);
      Assoc(if x[0].shown then [ItemOf(x[0])] else [], Shown(x[1..]), Shown(y));
    }
  }

  lemma ShownOne(e: Entry)
    ensures Shown([e]) == if e.shown then [ItemOf(e)] else []
  {
    assert [e][1..] == [];
  }

  lemma ShownSplit(y: seq<Entry>, p: nat)
    requires p < |y|
    ensures Shown(y) == Shown(y[..p]) + (if y[p].shown then [ItemOf(y[p])] else []) + Shown(y[p + 1..])
    ensures Shown(y[..p + 1]) == Shown(y[..p]) + if y[p].shown then [ItemOf(y[p])] else []
    ensures Shown(y[p..]) == (if y[p].shown then [ItemOf(y[p])] else []) + Shown(y[p + 1..])
  {
    hide Shown;
    Parts(y, p);
    ShownConcat(y[..p], [y[p]] + y[p + 1..]);
    ShownConcat([y[p]], y[p + 1..]);
    ShownConcat(y[..p], [y[p]]);
    ShownOne(y[p]);
    Assoc(Shown(y[..p]), Shown([y[p]]), Shown(y[p + 1..]));
  }

  /** Counting on the YANG data is counting on the Augeas data. */
  lemma {:induction false} CountIsOcc(y: seq<Entry>, e: Entry)
    requires e.shown && forall i :: 0 <= i < |y| ==> Alike(y[i], e)
    ensures Count(y, e.schema, e.name) == Occ(Shown(y), e.name)
    decreases |y|
  {
    if y != [] {
      CountIsOcc(y[1..], e);
      var x := if y[0].shown then [ItemOf(y[0])] else [];
      OccConcat(x, Shown(y[1..]), e.name);
      OccOne(ItemOf(y[0]), e.name);
    }
  }

  lemma PlaceIs(y: seq<Entry>, p: nat)
    requires p < |y| && y[p].shown && Uniform(y)
    ensures PlaceOf(y, p) == Place(y[p].name, 1 + Occ(Shown(y[..p]), y[p].name))
  {
    assert forall i :: 0 <= i < p ==> Alike(y[i], y[p]);
    CountIsOcc(y[..p], y[p]);
  }

  /** On its own data a path stands for its node. */
  lemma PlaceFound(y: seq<Entry>, p: nat)
    requires p < |y| && y[p].shown && Uniform(y)
    ensures Find(Shown(y), PlaceOf(y, p)) == Some(|Shown(y[..p])|)
    ensures |Shown(y[..p])| < |Shown(y)| && Shown(y)[|Shown(y[..p])|] == ItemOf(y[p])
  {
    PlaceIs(y, p);
    ShownSplit(y, p);
    assert Shown(y)[..|Shown(y[..p])|] == Shown(y[..p]);
    FindIs(Shown(y), PlaceOf(y, p), |Shown(y[..p])|);
  }

  // ----- Anchors -----

  datatype Anchor = NoAnchor | Beside(pos: nat, before: bool)

  /** augds_store_anchor: the entry in front, else the one behind, if it has a node in Augeas. */
  function AnchorOf(y: seq<Entry>, p: nat): (r: Anchor)
    requires p < |y|
    ensures r.Beside? ==> r.pos < |y| && y[r.pos].shown && r.pos == if r.before then p + 1 else p - 1
    ensures r.NoAnchor? ==> (p > 0 ==> !y[p - 1].shown) && (p + 1 < |y| ==> !y[p + 1].shown)
  {
    if p > 0 && y[p - 1].shown then Beside(p - 1, false)
    else if p + 1 < |y| && y[p + 1].shown then Beside(p + 1, true)
    else NoAnchor
  }

  /** augds_store_diff_insert_anchor_path: an anchor behind the new node with the same label has an index that is
      one too high, and the path of the new node is the right one. */
  function AnchorPlace(y: seq<Entry>, p: nat, r: Anchor): Place
    requires p < |y| && r.Beside? && r.pos < |y|
  {
    var q := PlaceOf(y, r.pos);
    if r.before && q.name == y[p].name then PlaceOf(y, p) else q
  }

  // ----- The changes -----

  /** INSERT with the key of the entry in front (None: first), DELETE, RENAME and REPLACE, by key. */
  datatype Change =
    | Insert(e: Entry, after: Option<nat>)
    | Delete(key: nat)
    | Rename(key: nat, name: string)
    | Replace(key: nat, value: Option<string>)

  /** The position of a key. */
  function PosOf(y: seq<Entry>, key: nat): (p: nat)
    ensures p <= |y| && (p < |y| ==> y[p].key == key) && forall i :: 0 <= i < p ==> y[i].key != key
  {
    if y == [] || y[0].key == key then 0
    else
      var p := PosOf(y[1..], key);
      assert forall i :: 0 < i < p + 1 ==> y[i] == y[1..][i - 1];
      p + 1
  }

  /** Where an entry goes: first, or behind the entry with the key. */
  function Target(y: seq<Entry>, after: Option<nat>): (p: nat)
    requires after.Some? ==> PosOf(y, after.value) < |y|
    ensures p <= |y|
  {
    match after
    case None => 0
    case Some(k) => PosOf(y, k) + 1
  }

  /** A change that fits the data, as a diff of valid data does. */
  ghost predicate Fits(y: seq<Entry>, c: Change) {
    match c
    case Insert(e, after) =>
      && PosOf(y, e.key) == |y| && (after.Some? ==> PosOf(y, after.value) < |y|)
      && Alike(e, e) && forall i :: 0 <= i < |y| ==> Alike(y[i], e) && Alike(e, y[i])
    case Delete(k) => PosOf(y, k) < |y|
    case Rename(k, l) =>
      var p := PosOf(y, k);
      && p < |y| && y[p].shown
      && forall i :: 0 <= i < |y| && i != p && y[i].shown && y[i].name == l ==> y[i].schema == y[p].schema
    case Replace(k, v) => PosOf(y, k) < |y| && y[PosOf(y, k)].shown
  }

  /** What the change does to the YANG data. */
  function Changed(y: seq<Entry>, c: Change): seq<Entry>
    requires Fits(y, c)
  {
    match c
    case Insert(e, after) => PutIn(y, Target(y, after), e)
    case Delete(k) => TakeOut(y, PosOf(y, k))
    case Rename(k, l) => var p := PosOf(y, k); y[p := y[p].(name := l)]
    case Replace(k, v) => var p := PosOf(y, k); y[p := y[p].(value := v)]
  }

  /** augds_store_diff_r for one change: the operations on Augeas. */
  function Applied(y: seq<Entry>, a: seq<Item>, c: Change): Option<seq<Item>>
    requires Fits(y, c)
  {
    match c
    case Insert(e, after) =>
      var p, z := Target(y, after), Changed(y, c);
      if !e.shown then Some(a)
      else
        var r := AnchorOf(z, p);
        if r == NoAnchor then Assigned(a, PlaceOf(z, p), e.value)
        else
          (match Inserted(a, AnchorPlace(z, p, r), e.name, r.before)
           case None => None
           case Some(b) => Assigned(b, PlaceOf(z, p), e.value))
    case Delete(k) =>
      var p := PosOf(y, k);
      if !y[p].shown then Some(a) else Removed(a, PlaceOf(y, p))
    case Rename(k, l) => Renamed(a, PlaceOf(y, PosOf(y, k)), l)
    case Replace(k, v) => Assigned(a, PlaceOf(Changed(y, c), PosOf(y, k)), v)
  }

  // ----- INSERT -----

  lemma PutUniform(y: seq<Entry>, p: nat, e: Entry)
    requires Uniform(y) && p <= |y| && Alike(e, e) && forall i :: 0 <= i < |y| ==> Alike(y[i], e) && Alike(e, y[i])
    ensures Uniform(PutIn(y, p, e))
  {
    var z := PutIn(y, p, e);
    forall i, j | 0 <= i < |z| && 0 <= j < |z| ensures Alike(z[i], z[j]) {
      var m, n := if i < p then i else i - 1, if j < p then j else j - 1;
      assert i != p ==> z[i] == y[m];
      assert j != p ==> z[j] == y[n];
    }
  }

  /** The slices of a list with one entry more. */
  lemma PutSlices<T>(y: seq<T>, p: nat, e: T)
    requires p <= |y|
    ensures var z := PutIn(y, p, e); z[..p] == y[..p] && z[p] == e && z[p + 1..] == y[p..] && |z| == |y| + 1
    ensures p > 0 ==>
            PutIn(y, p, e)[p - 1] == y[p - 1] && PutIn(y, p, e)[..p - 1] == y[..p - 1]
              && y[..p] == y[..p - 1] + [y[p - 1]]
    ensures p < |y| ==> PutIn(y, p, e)[p + 1] == y[p] && PutIn(y, p, e)[..p + 1] == y[..p] + [e]
    ensures y == y[..p] + y[p..]
  {
  }

  lemma PutShown(y: seq<Entry>, p: nat, e: Entry)
    requires p <= |y|
    ensures Shown(y) == Shown(y[..p]) + Shown(y[p..])
    ensures Shown(PutIn(y, p, e)) == Shown(y[..p]) + (if e.shown then [ItemOf(e)] else []) + Shown(y[p..])
  {
    PutSlices(y, p, e);
    ShownConcat(y[..p], y[p..]);
    ShownSplit(PutIn(y, p, e), p);
  }

  /** An anchor in front of the new entry. */
  lemma FrontFound(y: seq<Entry>, p: nat, e: Entry)
    requires 0 < p <= |y| && y[p - 1].shown && Uniform(y)
    ensures var z := PutIn(y, p, e);
            && |z| == |y| + 1 && |Shown(y[..p])| > 0
            && Find(Shown(y), PlaceOf(z, p - 1)) == Some(|Shown(y[..p])| - 1)
  {
    hide *;
    var z := PutIn(y, p, e);
    PutSlices(y, p, e);
    ShownSplit(y, p - 1);
    PlaceFound(y, p - 1);
    SamePlace(y, z, p - 1);
  }

  lemma SamePlace(y: seq<Entry>, z: seq<Entry>, p: nat)
    requires p < |y| && p < |z| && y[p] == z[p] && y[..p] == z[..p]
    ensures PlaceOf(y, p) == PlaceOf(z, p)
  {
  }

  /** The index of an entry, counted with a new one in front of it. */
  lemma NextPlace(y: seq<Entry>, p: nat, e: Entry)
    requires p < |y| && y[p].shown && e.shown && Uniform(PutIn(y, p, e)) && Uniform(y)
    ensures var z := PutIn(y, p, e);
            && |z| == |y| + 1 && z[p] == e && z[p + 1] == y[p]
            && PlaceOf(z, p) == Place(e.name, 1 + Occ(Shown(y[..p]), e.name))
            && PlaceOf(y, p) == Place(y[p].name, 1 + Occ(Shown(y[..p]), y[p].name))
            && (y[p].name != e.name ==> PlaceOf(z, p + 1) == PlaceOf(y, p))
  {
    hide *;
    var z := PutIn(y, p, e);
    PutSlices(y, p, e);
    PlaceIs(y, p);
    PlaceIs(z, p);
    PlaceIs(z, p + 1);
    OneMore(y[..p], e, y[p].name);
  }

  lemma OneMore(x: seq<Entry>, e: Entry, name: string)
    requires e.shown
    ensures e.name != name ==> Occ(Shown(x + [e]), name) == Occ(Shown(x), name)
  {
    hide *;
    ShownConcat(x, [e]);
    ShownOne(e);
    OccConcat(Shown(x), [ItemOf(e)], name);
    OccOne(ItemOf(e), name);
    ItemName(e);
  }

  lemma ItemName(e: Entry)
    ensures ItemOf(e).name == e.name
  {
  }

  /** An anchor behind the new entry: its index is one too high if the labels are the same. */
  lemma BehindFound(y: seq<Entry>, p: nat, e: Entry)
    requires p < |y| && y[p].shown && e.shown && Uniform(PutIn(y, p, e)) && Uniform(y)
    ensures var z := PutIn(y, p, e);
            && |z| == |y| + 1 && z[p] == e && z[p + 1] == y[p]
            && Find(Shown(y), if y[p].name == e.name then PlaceOf(z, p) else PlaceOf(z, p + 1)) == Some(|Shown(y[..p])|)
  {
    hide *;
    NextPlace(y, p, e);
    PlaceFound(y, p);
  }

  /** The anchor's path, computed with the new entry, stands for the anchor without it. */
  lemma AnchorFound(y: seq<Entry>, p: nat, e: Entry)
    requires p <= |y| && e.shown && Uniform(PutIn(y, p, e)) && Uniform(y)
    ensures var z := PutIn(y, p, e);
            && p < |z|
            && var r := AnchorOf(z, p);
               r.Beside? ==>
                 Find(Shown(y), AnchorPlace(z, p, r)) == Some(if r.before then |Shown(y[..p])| else |Shown(y[..p])| - 1)
                 && (!r.before ==> |Shown(y[..p])| > 0)
  {
    var z := PutIn(y, p, e);
    PutSlices(y, p, e);
    hide Shown, Find, Uniform;
    var r := AnchorOf(z, p);
    if r.Beside? && !r.before {
      FrontFound(y, p, e);
    } else if r.Beside? {
      BehindFound(y, p, e);
    }
  }

  /** Something after the new entry is shown, but neither of its neighbours is. */
  predicate Lost(y: seq<Entry>, p: nat)
    requires p <= |y|
  {
    (p > 0 ==> !y[p - 1].shown) && (p < |y| ==> !y[p].shown) && Shown(y[p..]) != []
  }

  lemma FillIn(a: seq<Item>, n: nat, x: Item)
    requires n <= |a|
    ensures var b := PutIn(a, n, Item(x.name, None));
            n < |b| && b[n].name == x.name && b[..n] == a[..n] && b[n := b[n].(value := x.value)] == PutIn(a, n, x)
  {
  }

  lemma AppendLost(x: seq<Item>, i: Item, z: seq<Item>)
    requires z != []
    ensures x + [i] + z == x + z + [i] ==> z[0] == i
  {
    if x + [i] + z == x + z + [i] {
      assert (x + [i] + z)[|x|] == i && (x + z + [i])[|x|] == z[0];
    }
  }

  lemma AppliedInsert(y: seq<Entry>, a: seq<Item>, e: Entry, after: Option<nat>)
    requires Fits(y, Insert(e, after)) && e.shown
    ensures var p := Target(y, after);
            var z := PutIn(y, p, e);
            && p < |z| && Changed(y, Insert(e, after)) == z
            && var r := AnchorOf(z, p);
               Applied(y, a, Insert(e, after))
               == if r == NoAnchor then Assigned(a, PlaceOf(z, p), e.value)
                  else match Inserted(a, AnchorPlace(z, p, r), e.name, r.before)
                    case None => None
                    case Some(b) => Assigned(b, PlaceOf(z, p), e.value)
  {
    PutSlices(y, Target(y, after), e);
    hide Shown, Find, PlaceOf, AnchorPlace, AnchorOf, PosOf;
  }

  /** With an anchor the node is inserted, and then found by its path. */
  lemma BesideInStep(a: seq<Item>, n: nat, e: Entry, q: Place, before: bool, path: Place)
    requires n <= |a| && (before || n > 0) && Find(a, q) == Some(if before then n else n - 1)
    requires path == Place(e.name, 1 + Occ(a[..n], e.name))
    ensures Inserted(a, q, e.name, before).Some?
    ensures Assigned(Inserted(a, q, e.name, before).value, path, e.value) == Some(PutIn(a, n, ItemOf(e)))
  {
    var b := PutIn(a, n, Item(e.name, None));
    FillIn(a, n, ItemOf(e));
    FindIs(b, path, n);
    hide Find, Occ;
  }

  lemma LostIs(y: seq<Entry>, p: nat, e: Entry)
    requires p <= |y|
    ensures var z := PutIn(y, p, e); p < |z| && (AnchorOf(z, p) == NoAnchor && Shown(y[p..]) != [] <==> Lost(y, p))
  {
    PutSlices(y, p, e);
    hide Shown;
    if p < |y| && y[p].shown { ShownSplit(y, p); }
  }

  lemma FitsUniform(y: seq<Entry>, e: Entry, after: Option<nat>)
    requires Uniform(y) && Fits(y, Insert(e, after))
    ensures (after.Some? ==> PosOf(y, after.value) < |y|) && Uniform(PutIn(y, Target(y, after), e))
  {
    PutUniform(y, Target(y, after), e);
  }

  /** INSERT of a shown entry, on the parts in front of it and behind it. */
  lemma PartsInStep(y: seq<Entry>, p: nat, e: Entry, r: Anchor, path: Place, q: Place)
    requires p <= |y| && path == Place(e.name, 1 + Occ(Shown(y[..p]), e.name))
    requires r.Beside? ==>
               && Find(Shown(y), q) == Some(if r.before then |Shown(y[..p])| else |Shown(y[..p])| - 1)
               && (!r.before ==> |Shown(y[..p])| > 0)
    requires Shown(y) == Shown(y[..p]) + Shown(y[p..])
    ensures var w, a := Shown(y[..p]) + [ItemOf(e)] + Shown(y[p..]), Shown(y);
            var b := if r == NoAnchor then Some(a) else Inserted(a, q, e.name, r.before);
            && b.Some?
            && (Assigned(b.value, path, e.value) == Some(w) <==> (r == NoAnchor ==> Shown(y[p..]) == []))
  {
    hide *;
    var u, w := Shown(y[..p]), Shown(y[p..]);
    Joint(u, w);
    if r.Beside? {
      BesideInStep(Shown(y), |u|, e, q, r.before, path);
      PutMiddle(u, ItemOf(e), w);
    } else {
      AloneInStep(u, w, e);
    }
  }

  /** INSERT of a shown entry. */
  lemma ShownInStep(y: seq<Entry>, e: Entry, after: Option<nat>)
    requires Uniform(y) && Fits(y, Insert(e, after)) && e.shown
    ensures var c := Insert(e, after);
            Applied(y, Shown(y), c) == Some(Shown(Changed(y, c))) <==> !Lost(y, Target(y, after))
  {
    hide *;
    FitsUniform(y, e, after);
    var p := Target(y, after);
    var z := PutIn(y, p, e);
    PutSlices(y, p, e);
    PutShown(y, p, e);
    AppliedInsert(y, Shown(y), e, after);
    LostIs(y, p, e);
    PlaceIs(z, p);
    AnchorFound(y, p, e);
    var r := AnchorOf(z, p);
    PartsInStep(y, p, e, r, PlaceOf(z, p), if r.Beside? then AnchorPlace(z, p, r) else PlaceOf(z, p));
  }

  lemma PutMiddle<T>(u: seq<T>, x: T, w: seq<T>)
    ensures PutIn(u + w, |u|, x) == u + [x] + w
  {
    Joint(u, w);
  }

  /** INSERT keeps both sides in step exactly if a shown entry stands beside the new one, or none behind it. */
  lemma InsertInStep(y: seq<Entry>, e: Entry, after: Option<nat>)
    requires Uniform(y) && Fits(y, Insert(e, after))
    ensures var c := Insert(e, after);
            Applied(y, Shown(y), c) == Some(Shown(Changed(y, c))) <==> !e.shown || !Lost(y, Target(y, after))
  {
    if e.shown {
      ShownInStep(y, e, after);
    } else {
      var p := Target(y, after);
      PutShown(y, p, e);
      assert Shown(y[..p]) + [] == Shown(y[..p]);
    }
  }

  /** Without anchor the value is set by path alone. */
  lemma AloneInStep(x: seq<Item>, z: seq<Item>, e: Entry)
    ensures Assigned(x + z, Place(e.name, 1 + Occ(x, e.name)), e.value) == Some(x + [ItemOf(e)] + z) <==> z == []
  {
    if z == [] {
      assert x + z == x;
      AloneLast(x, e);
      assert x + [ItemOf(e)] + z == x + [ItemOf(e)];
    } else {
      AloneWrong(x, z, e);
    }
  }

  lemma AloneLast(x: seq<Item>, e: Entry)
    ensures Assigned(x, Place(e.name, 1 + Occ(x, e.name)), e.value) == Some(x + [ItemOf(e)])
  {
    hide Occ, Find;
    var p := Place(e.name, 1 + Occ(x, e.name));
    FindOnly(x, p);
    if Find(x, p).Some? { OccSplit(x, Find(x, p).value, e.name); }
  }

  lemma AloneWrong(x: seq<Item>, z: seq<Item>, e: Entry)
    requires z != []
    ensures Assigned(x + z, Place(e.name, 1 + Occ(x, e.name)), e.value) != Some(x + [ItemOf(e)] + z)
  {
    hide Occ, Find;
    var a, p := x + z, Place(e.name, 1 + Occ(x, e.name));
    OccConcat(x, z, e.name);
    FindOnly(a, p);
    if Find(a, p).Some? {
      assert |a[Find(a, p).value := a[Find(a, p).value].(value := e.value)]| == |a|;
    } else {
      NoneLeft(z, e.name);
      AppendLost(x, ItemOf(e), z);
      ItemName(e);
    }
  }

  lemma NoneLeft(z: seq<Item>, l: string)
    requires z != []
    ensures Occ(z, l) == 0 ==> z[0].name != l
  {
  }

  // ----- DELETE, RENAME and REPLACE -----

  lemma TakeSlices<T>(y: seq<T>, p: nat)
    requires p < |y|
    ensures y == y[..p] + [y[p]] + y[p + 1..]
    ensures TakeOut(y, p) == y[..p] + y[p + 1..]
  {
  }

  lemma DeleteInStep(y: seq<Entry>, k: nat)
    requires Uniform(y) && Fits(y, Delete(k))
    ensures Applied(y, Shown(y), Delete(k)) == Some(Shown(Changed(y, Delete(k))))
  {
    var p := PosOf(y, k);
    ShownSplit(y, p);
    ShownConcat(y[..p], y[p + 1..]);
    var u, w := Shown(y[..p]), Shown(y[p + 1..]);
    TakeSlices(y, p);
    if y[p].shown {
      PlaceFound(y, p);
      Joint(u + [ItemOf(y[p])], w);
      Joint(u, [ItemOf(y[p])] + w);
    } else {
      assert u + [] == u;
    }
    hide Shown, Find, PlaceOf, Uniform;
  }

  /** The node of one entry changes. */
  lemma UpdateShown(y: seq<Entry>, p: nat, e: Entry)
    requires p < |y| && y[p].shown && e.shown
    ensures var n := |Shown(y[..p])|;
            n < |Shown(y)| && Shown(y[p := e]) == Shown(y)[n := ItemOf(e)] && Shown(y)[n] == ItemOf(y[p])
    ensures y[p := e][..p] == y[..p]
  {
    hide *;
    var z := y[p := e];
    ShownSplit(y, p);
    ShownSplit(z, p);
    assert z[..p] == y[..p] && z[p + 1..] == y[p + 1..] && z[p] == e;
    Swap(Shown(y[..p]), ItemOf(y[p]), Shown(y[p + 1..]), ItemOf(e));
  }

  lemma Swap<T>(u: seq<T>, x: T, w: seq<T>, x': T)
    ensures var v := u + [x] + w; |u| < |v| && v[|u|] == x && v[|u| := x'] == u + [x'] + w
  {
  }

  lemma RenameInStep(y: seq<Entry>, k: nat, l: string)
    requires Uniform(y) && Fits(y, Rename(k, l))
    ensures Applied(y, Shown(y), Rename(k, l)) == Some(Shown(Changed(y, Rename(k, l))))
  {
    var p := PosOf(y, k);
    PlaceFound(y, p);
    UpdateShown(y, p, y[p].(name := l));
  }

  lemma AppliedReplace(y: seq<Entry>, a: seq<Item>, k: nat, v: Option<string>)
    requires Fits(y, Replace(k, v))
    ensures var p := PosOf(y, k);
            && p < |y| && y[p].shown && Changed(y, Replace(k, v)) == y[p := y[p].(value := v)]
            && Applied(y, a, Replace(k, v)) == Assigned(a, PlaceOf(y, p), v)
  {
    var p := PosOf(y, k);
    assert y[p := y[p].(value := v)][..p] == y[..p];
    hide PosOf, Count;
  }

  lemma ReplaceInStep(y: seq<Entry>, k: nat, v: Option<string>)
    requires Uniform(y) && Fits(y, Replace(k, v))
    ensures Applied(y, Shown(y), Replace(k, v)) == Some(Shown(Changed(y, Replace(k, v))))
  {
    AppliedReplace(y, Shown(y), k, v);
    hide PosOf, Fits, Applied, Changed, Shown, Find, Uniform, PlaceOf;
    var p := PosOf(y, k);
    PlaceFound(y, p);
    UpdateShown(y, p, y[p].(value := v));
  }

  // ----- Whole runs -----

  /** The one change that gets out of step. */
  ghost predicate Safe(y: seq<Entry>, c: Change)
    requires Fits(y, c)
  {
    c.Insert? ==> !c.e.shown || !Lost(y, Target(y, c.after))
  }

  /** One change keeps both sides in step exactly if it is safe. */
  lemma ChangeInStep(y: seq<Entry>, c: Change)
    requires Uniform(y) && Fits(y, c)
    ensures Applied(y, Shown(y), c) == Some(Shown(Changed(y, c))) <==> Safe(y, c)
  {
    hide Applied, Shown, Changed, Fits, Uniform;
    match c {
      case Insert(e, after) => InsertInStep(y, e, after);
      case Delete(k) => DeleteInStep(y, k);
      case Rename(k, l) => RenameInStep(y, k, l);
      case Replace(k, v) => ReplaceInStep(y, k, v);
    }
  }

  ghost predicate Good(y: seq<Entry>) {
    Uniform(y) && Keys(y)
  }

  lemma NoKey(y: seq<Entry>, k: nat)
    requires PosOf(y, k) == |y|
    ensures forall i :: 0 <= i < |y| ==> y[i].key != k
  {
  }

  /** Changes leave good data. */
  lemma ChangedGood(y: seq<Entry>, c: Change)
    requires Good(y) && Fits(y, c)
    ensures Good(Changed(y, c))
  {
    match c {
      case Insert(e, after) =>
        PutUniform(y, Target(y, after), e);
        NoKey(y, e.key);
        PutKeys(y, Target(y, after), e);
      case Delete(k) =>
        TakeGood(y, PosOf(y, k));
      case Rename(k, l) =>
        var p := PosOf(y, k);
        var z := y[p := y[p].(name := l)];
        forall i, j | 0 <= i < |z| && 0 <= j < |z| ensures Alike(z[i], z[j]) {
          assert Alike(y[i], y[j]);
        }
      case Replace(k, v) =>
        var p := PosOf(y, k);
        var z := y[p := y[p].(value := v)];
        forall i, j | 0 <= i < |z| && 0 <= j < |z| ensures Alike(z[i], z[j]) {
          assert Alike(y[i], y[j]);
        }
    }
  }

  lemma PutKeys(y: seq<Entry>, p: nat, e: Entry)
    requires Keys(y) && p <= |y| && forall i :: 0 <= i < |y| ==> y[i].key != e.key
    ensures Keys(PutIn(y, p, e))
  {
    var z := PutIn(y, p, e);
    forall i, j | 0 <= i < j < |z| ensures z[i].key != z[j].key {
      assert i != p ==> z[i] == y[if i < p then i else i - 1];
      assert j != p ==> z[j] == y[if j < p then j else j - 1];
    }
  }

  lemma TakeGood(y: seq<Entry>, p: nat)
    requires Good(y) && p < |y|
    ensures Good(TakeOut(y, p))
  {
    var z := TakeOut(y, p);
    assert forall i :: 0 <= i < |z| ==> z[i] == y[if i < p then i else i + 1];
    forall i, j | 0 <= i < |z| && 0 <= j < |z| ensures Alike(z[i], z[j]) { }
    forall i, j | 0 <= i < j < |z| ensures z[i].key != z[j].key { }
  }
}
