/**
 What a ynode tree means once every uses is replaced by the content of the
 grouping it names (sections 7.12 and 7.13 of RFC 7950). Nodes that are only
 marked for a grouping yet (`ref` set) are read as what they will become: the
 first node of a class as the definition, the others as references to it.
*/
module Expansion {
  import opened YNodes
  import opened RoseTree

  /** What two nodes must share to be the same YANG statement. */
  datatype Payload = Payload(typ: YType, labelLens: Option<Lens>, valueLens: Option<Lens>, flags: set<Flag>,
    minElems: nat)

  const KEPT_FLAGS: set<Flag> := CMP_MASK - {ChoiceMandFalse, GroupingChildren}

  function PayloadOf(d: Data): Payload {
    Payload(d.typ, d.labelLens, d.valueLens, d.flags * KEPT_FLAGS, if d.typ == List then d.minElems else 0)
  }

  /** The expanded tree; a reference to nothing is Dangling. */
  datatype Sem = Sem(payload: Payload, kids: seq<Sem>) | Dangling

  /** Contents known so far: of marked classes by the id of their first node, of groupings by id. */
  datatype Env = Env(classes: map<nat, seq<Sem>>, groups: map<nat, seq<Sem>>)

  datatype Role = Plain | Group | Use | Leader | Member

  predicate Pending(d: Data) {
    d.ref != 0 && d.typ != Uses && d.typ != Leafref && d.typ != Grouping
  }

  function RoleOf(id: nat, d: Data): Role {
    if d.typ == Grouping then Group
    else if d.typ == Uses then Use
    else if !Pending(d) then Plain
    else if d.ref == id then Leader
    else Member
  }

  /** Whether the grouping leaves out the node itself. */
  predicate Split(d: Data) {
    GroupingChildren in d.flags
  }

  predicate IsKeyVal(d: Data) {
    d.typ == Key || d.typ == Value
  }

  /** How many of the children are the key and the value in front; the inner nodes follow. */
  function InnerIndex(f: seq<Tree>): (k: nat)
    ensures k <= |f|
  {
    var k := if f != [] && f[0].data.typ == Key then 1 else 0;
    if k < |f| && f[k].data.typ == Value then k + 1 else k
  }

  function Lookup(m: map<nat, seq<Sem>>, k: nat): seq<Sem> {
    if k in m then m[k] else [Dangling]
  }

  /** Nothing in what a reference will discard is needed elsewhere. */
  predicate Discardable(c: seq<Cell>, classes: set<nat>) {
    forall i :: 0 <= i < |c| ==>
      var r := RoleOf(c[i].id, c[i].data);
      r != Leader && r != Group && (r == Member ==> c[i].data.ref in classes)
  }

  /** The expansion, the contents known afterwards, and whether every reference was known when it was met. */
  datatype Res = Res(out: seq<Sem>, env: Env, ok: bool)

  function ExpandF(f: seq<Tree>, e: Env): Res
    decreases SizeF(f), 1
  {
    if f == [] then Res([], e, true)
    else
      var a := ExpandT(f[0], e);
      var b := ExpandF(f[1..], a.env);
      Res(a.out + b.out, b.env, a.ok && b.ok)
  }

  function ExpandT(t: Tree, e: Env): Res
    decreases Size(t), 0
  {
    var d := t.data;
    var k := InnerIndex(t.kids);
    SizeTake(t.kids, k);
    match RoleOf(t.id, d)
    case Plain =>
      var x := ExpandF(t.kids, e);
      Res([Sem(PayloadOf(d), x.out)], x.env, x.ok)
    case Group =>
      var x := ExpandF(t.kids, e);
      Res([], x.env.(groups := x.env.groups[t.id := x.out]), x.ok && d.ref == 0)
    case Use =>
      Res(Lookup(e.groups, d.ref), e, d.ref in e.groups && t.kids == [])
    case Leader =>
      if Split(d) then
        var x := ExpandF(t.kids[..k], e);
        var y := ExpandF(t.kids[k..], x.env);
        Res([Sem(PayloadOf(d), x.out + y.out)], y.env.(classes := y.env.classes[t.id := y.out]),
            x.ok && y.ok && k < |t.kids| && !IsKeyVal(d))
      else
        var x := ExpandF(t.kids, e);
        var r := [Sem(PayloadOf(d), x.out)];
        Res(r, x.env.(classes := x.env.classes[t.id := r]), x.ok && !IsKeyVal(d))
    case Member =>
      var free := Discardable(FlatF(t.kids), e.classes.Keys);
      if Split(d) then
        var x := ExpandF(t.kids[..k], e);
        Res([Sem(PayloadOf(d), x.out + Lookup(x.env.classes, d.ref))], x.env, x.ok && d.ref in x.env.classes && free)
      else
        Res(Lookup(e.classes, d.ref), e, d.ref in e.classes && free && !IsKeyVal(d))
  }

  lemma SizeTake(f: seq<Tree>, k: nat)
    requires k <= |f|
    ensures SizeF(f[..k]) <= SizeF(f) && SizeF(f[k..]) <= SizeF(f)
  {
    assert f == f[..k] + f[k..];
    SizeConcat(f[..k], f[k..]);
  }

  const EMPTY: Env := Env(map[], map[])

  /** The meaning of a whole tree. */
  function Meaning(t: Tree): seq<Sem> {
    ExpandT(t, EMPTY).out
  }

  // ----- Sequences of trees -----

  function Then(a: Res, b: Res): Res {
    Res(a.out + b.out, b.env, a.ok && b.ok)
  }

  lemma {:induction false} ExpandConcat(f: seq<Tree>, g: seq<Tree>, e: Env)
    ensures ExpandF(f + g, e) == Then(ExpandF(f, e), ExpandF(g, ExpandF(f, e).env))
    decreases |f|
  {
    hide ExpandT;
    if f == [] {
      assert f + g == g;
    } else {
      assert (f + g)[1..] == f[1..] + g;
      ExpandConcat(f[1..], g, ExpandT(f[0], e).env);
    }
  }

  lemma ExpandOne(t: Tree, e: Env)
    ensures ExpandF([t], e) == ExpandT(t, e)
  {
    assert [t][1..] == [];
  }

  lemma ExpandThree(x: seq<Tree>, y: seq<Tree>, z: seq<Tree>, e: Env)
    ensures var a := ExpandF(x, e);
            var b := ExpandF(y, a.env);
            ExpandF(x + y + z, e) == Then(Then(a, b), ExpandF(z, b.env))
  {
    ExpandConcat(x + y, z, e);
    ExpandConcat(x, y, e);
  }

  // ----- Environments that differ only where nobody looks -----

  ghost predicate AgreeMap(m: map<nat, seq<Sem>>, n: map<nat, seq<Sem>>, ks: set<nat>) {
    forall k :: k !in ks ==> (k in m <==> k in n) && (k in m ==> m[k] == n[k])
  }

  ghost predicate Agree(e: Env, e': Env, kc: set<nat>, kg: set<nat>) {
    AgreeMap(e.classes, e'.classes, kc) && AgreeMap(e.groups, e'.groups, kg)
  }

  /** No reference to a class of `kc` or a grouping of `kg`. */
  ghost predicate Silent(c: seq<Cell>, kc: set<nat>, kg: set<nat>) {
    forall i :: 0 <= i < |c| ==> SilentCell(c[i], kc, kg)
  }

  ghost predicate SilentCell(c: Cell, kc: set<nat>, kg: set<nat>) {
    var r := RoleOf(c.id, c.data);
    (r == Member ==> c.data.ref !in kc) && (r == Use ==> c.data.ref !in kg)
  }

  /** Same output, no reference lost, and environments that still agree. */
  ghost predicate Matches(a: Res, b: Res, kc: set<nat>, kg: set<nat>) {
    a.out == b.out && (a.ok ==> b.ok) && Agree(a.env, b.env, kc, kg)
  }

  lemma SilentParts(t: Tree, k: nat, kc: set<nat>, kg: set<nat>)
    requires k <= |t.kids| && Silent(FlatT(t), kc, kg)
    ensures SilentCell(Cell(t.id, t.data, SizeF(t.kids)), kc, kg)
    ensures Silent(FlatF(t.kids), kc, kg)
    ensures Silent(FlatF(t.kids[..k]), kc, kg) && Silent(FlatF(t.kids[k..]), kc, kg)
  {
    var c, x, y := FlatT(t), FlatF(t.kids[..k]), FlatF(t.kids[k..]);
    assert t.kids == t.kids[..k] + t.kids[k..];
    FlatConcat(t.kids[..k], t.kids[k..]);
    assert SilentCell(c[0], kc, kg);
    forall i | 0 <= i < SizeF(t.kids) ensures SilentCell(FlatF(t.kids)[i], kc, kg) {
      assert c[i + 1] == FlatF(t.kids)[i];
    }
    SilentConcat(x, y, kc, kg);
  }

  lemma SilentConcat(x: seq<Cell>, y: seq<Cell>, kc: set<nat>, kg: set<nat>)
    ensures Silent(x + y, kc, kg) <==> Silent(x, kc, kg) && Silent(y, kc, kg)
  {
    if Silent(x + y, kc, kg) {
      forall i | 0 <= i < |x| ensures SilentCell(x[i], kc, kg) { assert (x + y)[i] == x[i]; }
      forall i | 0 <= i < |y| ensures SilentCell(y[i], kc, kg) { assert (x + y)[|x| + i] == y[i]; }
    }
  }

  lemma DiscardableAgree(c: seq<Cell>, m: map<nat, seq<Sem>>, n: map<nat, seq<Sem>>, kc: set<nat>, kg: set<nat>)
    requires AgreeMap(m, n, kc) && Silent(c, kc, kg) && Discardable(c, m.Keys)
    ensures Discardable(c, n.Keys)
  {
    forall i | 0 <= i < |c| && RoleOf(c[i].id, c[i].data) == Member ensures c[i].data.ref in n.Keys {
      assert SilentCell(c[i], kc, kg);
    }
  }

  lemma {:induction false} FrameT(t: Tree, e: Env, e': Env, kc: set<nat>, kg: set<nat>)
    requires Agree(e, e', kc, kg) && Silent(FlatT(t), kc, kg)
    ensures Matches(ExpandT(t, e), ExpandT(t, e'), kc, kg)
    decreases Size(t), 0
  {
    var k := InnerIndex(t.kids);
    SizeTake(t.kids, k);
    SilentParts(t, k, kc, kg);
    match RoleOf(t.id, t.data) {
      case Plain => FrameF(t.kids, e, e', kc, kg);
      case Group => FrameF(t.kids, e, e', kc, kg);
      case Use =>
      case Leader =>
        if Split(t.data) {
          FrameF(t.kids[..k], e, e', kc, kg);
          FrameF(t.kids[k..], ExpandF(t.kids[..k], e).env, ExpandF(t.kids[..k], e').env, kc, kg);
        } else {
          FrameF(t.kids, e, e', kc, kg);
        }
      case Member =>
        if Discardable(FlatF(t.kids), e.classes.Keys) {
          DiscardableAgree(FlatF(t.kids), e.classes, e'.classes, kc, kg);
        }
        if Split(t.data) {
          FrameF(t.kids[..k], e, e', kc, kg);
        }
    }
  }

  lemma {:induction false} FrameF(f: seq<Tree>, e: Env, e': Env, kc: set<nat>, kg: set<nat>)
    requires Agree(e, e', kc, kg) && Silent(FlatF(f), kc, kg)
    ensures Matches(ExpandF(f, e), ExpandF(f, e'), kc, kg)
    decreases SizeF(f), 1
  {
    if f != [] {
      SilentConcat(FlatT(f[0]), FlatF(f[1..]), kc, kg);
      FrameT(f[0], e, e', kc, kg);
      FrameF(f[1..], ExpandT(f[0], e).env, ExpandT(f[0], e').env, kc, kg);
    }
  }
}
