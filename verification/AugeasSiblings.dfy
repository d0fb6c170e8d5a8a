/** The children of one Augeas node, and the operations of its interface on paths `label[k]`. */
module AugeasSiblings {
  import opened YNodes

  /** A node with its label and value; nodes below it go wherever it goes. */
  datatype Item = Item(name: string, value: Option<string>)

  /** `label[index]`: the node of this label that has `index - 1` others of it before it. */
  datatype Place = Place(name: string, index: nat)

  function Occ(a: seq<Item>, l: string): nat {
    if a == [] then 0 else (if a[0].name == l then 1 else 0) + Occ(a[1..], l)
  }

  /** The position that a path stands for. */
  function Find(a: seq<Item>, p: Place): (n: Option<nat>)
    ensures n.Some? ==> n.value < |a| && a[n.value].name == p.name
  {
    if a == [] || p.index == 0 then None
    else if a[0].name == p.name && p.index == 1 then Some(0)
    else
      var k := if a[0].name == p.name then p.index - 1 else p.index;
      match Find(a[1..], Place(p.name, k))
      case None => None
      case Some(n) => Some(n + 1)
  }

  lemma {:induction false} OccConcat(a: seq<Item>, b: seq<Item>, l: string)
    ensures Occ(a + b, l) == Occ(a, l) + Occ(b, l)
    decreases |a|
  {
    if a == [] {
      assert a + b == b;
    } else {
      assert (a + b)[1..] == a[1..] + b;
      OccConcat(a[1..], b, l);
    }
  }

  lemma OccOne(x: Item, l: string)
    ensures Occ([x], l) == if x.name == l then 1 else 0
  {
    assert [x][1..] == [];
  }

  lemma OccSplit(a: seq<Item>, n: nat, l: string)
    requires n < |a|
    ensures Occ(a, l) == Occ(a[..n], l) + (if a[n].name == l then 1 else 0) + Occ(a[n + 1..], l)
    ensures Occ(a[..n + 1], l) == Occ(a[..n], l) + (if a[n].name == l then 1 else 0)
  {
    assert a == a[..n] + ([a[n]] + a[n + 1..]) && a[..n + 1] == a[..n] + [a[n]];
    OccConcat(a[..n], [a[n]] + a[n + 1..], l);
    OccConcat([a[n]], a[n + 1..], l);
    OccConcat(a[..n], [a[n]], l);
    OccOne(a[n], l);
  }

  /** The path with the right index stands for the node. */
  lemma {:induction false} FindAt(a: seq<Item>, n: nat)
    requires n < |a|
    ensures Find(a, Place(a[n].name, 1 + Occ(a[..n], a[n].name))) == Some(n)
    decreases n
  {
    if n > 0 {
      FindAt(a[1..], n - 1);
      assert a[..n][1..] == a[1..][..n - 1] && a[..n][0] == a[0];
    } else {
      assert a[..0] == [];
    }
  }

  /** And no other one does. */
  lemma {:induction false} FindOnly(a: seq<Item>, p: Place)
    ensures Find(a, p).Some? ==> p.index == 1 + Occ(a[..Find(a, p).value], p.name)
    ensures Find(a, p).None? ==> p.index == 0 || Occ(a, p.name) < p.index
    decreases |a|
  {
    if a != [] && p.index != 0 && !(a[0].name == p.name && p.index == 1) {
      var k := if a[0].name == p.name then p.index - 1 else p.index;
      FindOnly(a[1..], Place(p.name, k));
      if Find(a[1..], Place(p.name, k)).Some? {
        var n := Find(a[1..], Place(p.name, k)).value;
        assert a[..n + 1][1..] == a[1..][..n] && a[..n + 1][0] == a[0];
      }
    } else if a != [] && p.index != 0 {
      assert a[..0] == [];
    }
  }

  lemma FindIs(a: seq<Item>, p: Place, n: nat)
    requires n < |a| && a[n].name == p.name && p.index == 1 + Occ(a[..n], p.name)
    ensures Find(a, p) == Some(n)
  {
    FindAt(a, n);
  }

  lemma Assoc<T>(x: seq<T>, y: seq<T>, z: seq<T>)
    ensures x + (y + z) == x + y + z
  {
  }

  lemma Parts<T>(a: seq<T>, n: nat)
    requires n <= |a|
    ensures a == a[..n] + a[n..]
    ensures n < |a| ==>
            a == a[..n] + ([a[n]] + a[n + 1..]) && a[..n + 1] == a[..n] + [a[n]] && a[n..] == [a[n]] + a[n + 1..]
  {
  }

  /** Where two sequences meet. */
  lemma Joint<T>(x: seq<T>, y: seq<T>)
    ensures (x + y)[..|x|] == x && (x + y)[|x|..] == y
    ensures |x| > 0 ==> x[..|x| - 1] == (x + y)[..|x| - 1] && x[|x| - 1] == (x + y)[|x| - 1]
    ensures |y| > 0 ==> (x + y)[|x|] == y[0] && (x + y)[|x| + 1..] == y[1..]
  {
  }

  // ----- The operations -----

  function PutIn<T>(a: seq<T>, n: nat, x: T): (r: seq<T>)
    requires n <= |a|
  {
    a[..n] + [x] + a[n..]
  }

  function TakeOut<T>(a: seq<T>, n: nat): (r: seq<T>)
    requires n < |a|
  {
    a[..n] + a[n + 1..]
  }

  /** aug_insert: a new node without value next to the one at `p`; fails without that node. */
  function Inserted(a: seq<Item>, p: Place, name: string, before: bool): Option<seq<Item>> {
    match Find(a, p)
    case None => None
    case Some(n) => Some(PutIn(a, if before then n else n + 1, Item(name, None)))
  }

  /** aug_set: the node gets the value; a node with the next index is created behind all others. */
  function Assigned(a: seq<Item>, p: Place, value: Option<string>): Option<seq<Item>> {
    match Find(a, p)
    case Some(n) => Some(a[n := a[n].(value := value)])
    case None => if p.index == 1 + Occ(a, p.name) then Some(a + [Item(p.name, value)]) else None
  }

  /** aug_rename */
  function Renamed(a: seq<Item>, p: Place, name: string): Option<seq<Item>> {
    match Find(a, p)
    case None => None
    case Some(n) => Some(a[n := a[n].(name := name)])
  }

  /** aug_rm */
  function Removed(a: seq<Item>, p: Place): Option<seq<Item>> {
    match Find(a, p)
    case None => None
    case Some(n) => Some(TakeOut(a, n))
  }

  /** aug_mv between two nodes there are: the second takes over what the first one holds, the first one goes. */
  function Moved(a: seq<Item>, src: Place, dst: Place): Option<seq<Item>> {
    match (Find(a, src), Find(a, dst))
    case (Some(m), Some(n)) =>
      if m == n then Some(a)
      else Some(TakeOut(a[n := a[n].(value := a[m].value)], m))
    case _ => None
  }

  /** The handle: one sequence of siblings that the interface changes. */
  class Augeas {
    var items: seq<Item>

    constructor (a: seq<Item>)
      ensures items == a
    {
      items := a;
    }

    /** The position of a path by counting, or -1. */
    method Locate(p: Place) returns (n: int)
      ensures n == match Find(items, p) case None => -1 case Some(k) => k
    {
      hide Find;
      n := 0;
      var left := p.index;
      FindRest(items, p, 0);
      while n < |items| && left > 0
        invariant 0 <= n <= |items| && Find(items, p) == Later(Find(items[n..], Place(p.name, left)), n)
      {
        FindRest(items, Place(p.name, left), n);
        if items[n].name == p.name {
          if left == 1 {
            return n;
          }
          left := left - 1;
        }
        n := n + 1;
      }
      FindRest(items, Place(p.name, left), n);
      n := -1;
    }

    method Insert(p: Place, name: string, before: bool) returns (ok: bool)
      modifies this
      ensures var r := Inserted(old(items), p, name, before);
              ok == r.Some? && items == if ok then r.value else old(items)
    {
      var n := Locate(p);
      ok := n != -1;
      if ok {
        items := PutIn(items, if before then n else n + 1, Item(name, None));
      }
    }

    method Set(p: Place, value: Option<string>) returns (ok: bool)
      modifies this
      ensures var r := Assigned(old(items), p, value); ok == r.Some? && items == if ok then r.value else old(items)
    {
      var n := Locate(p);
      if n != -1 {
        items := items[n := items[n].(value := value)];
        return true;
      }
      ok := p.index == 1 + Occ(items, p.name);
      if ok {
        items := items + [Item(p.name, value)];
      }
    }

    method Rename(p: Place, name: string) returns (ok: bool)
      modifies this
      ensures var r := Renamed(old(items), p, name); ok == r.Some? && items == if ok then r.value else old(items)
    {
      var n := Locate(p);
      ok := n != -1;
      if ok {
        items := items[n := items[n].(name := name)];
      }
    }

    method Remove(p: Place) returns (ok: bool)
      modifies this
      ensures var r := Removed(old(items), p); ok == r.Some? && items == if ok then r.value else old(items)
    {
      var n := Locate(p);
      ok := n != -1;
      if ok {
        items := TakeOut(items, n);
      }
    }

    method Move(src: Place, dst: Place) returns (ok: bool)
      modifies this
      ensures var r := Moved(old(items), src, dst); ok == r.Some? && items == if ok then r.value else old(items)
    {
      var m := Locate(src);
      var n := Locate(dst);
      ok := m != -1 && n != -1;
      if ok && m != n {
        items := TakeOut(items[n := items[n].(value := items[m].value)], m);
      }
    }
  }

  /** A position in the rest, counted from the start. */
  function Later(n: Option<nat>, k: nat): Option<nat> {
    match n
    case None => None
    case Some(m) => Some(m + k)
  }

  /** One step of the search. */
  lemma FindRest(a: seq<Item>, p: Place, n: nat)
    requires n <= |a|
    ensures Find(a, p) == Later(Find(a[0..], p), 0)
    ensures n == |a| || p.index == 0 ==> Find(a[n..], p) == None
    ensures n < |a| && p.index > 0 ==>
              Later(Find(a[n..], p), n)
              == if a[n].name == p.name && p.index == 1 then Some(n)
                 else
                   var rest := Place(p.name, if a[n].name == p.name then p.index - 1 else p.index);
                   Later(Find(a[n + 1..], rest), n + 1)
  {
    assert a[0..] == a;
    if n < |a| {
      assert a[n..][0] == a[n] && a[n..][1..] == a[n + 1..];
    }
  }
}
