/** augds_store_diff_r on the YANG data and the Augeas handle. */
module DiffStorePass {
  import opened YNodes
  import opened AugeasSiblings
  import opened DiffStore
  import opened DiffMoves
  import opened DiffRuns

  /** The data of the plugin while it applies a diff. */
  class Store {
    var yang: seq<Entry>
    const aug: Augeas

    constructor (y: seq<Entry>, aug: Augeas)
      ensures yang == y && this.aug == aug
    {
      yang := y;
      this.aug := aug;
    }

    /** Both sides stand for the same. */
    ghost predicate InStep()
      reads this, aug
    {
      Good(yang) && aug.items == Shown(yang)
    }

    /** augds_store_find_inst */
    method FindEntry(key: nat) returns (p: nat)
      ensures p == PosOf(yang, key)
    {
      p := 0;
      assert yang[0..] == yang;
      while p < |yang| && yang[p].key != key
        invariant 0 <= p <= |yang| && forall i :: 0 <= i < p ==> yang[i].key != key
      {
        p := p + 1;
      }
      PosIs(yang, key, p);
    }

    /** augds_store_label_index and augds_store_path */
    method LabelPlace(p: nat) returns (q: Place)
      requires p < |yang|
      ensures q == PlaceOf(yang, p)
    {
      var index := 1;
      var i := 0;
      assert yang[..0] == [];
      while i < p
        invariant 0 <= i <= p && index == 1 + Count(yang[..i], yang[p].schema, yang[p].name)
      {
        CountNext(yang, i, yang[p].schema, yang[p].name);
        if yang[i].schema == yang[p].schema && yang[i].name == yang[p].name {
          index := index + 1;
        }
        i := i + 1;
      }
      q := Place(yang[p].name, index);
    }

    /** augds_store_anchor and augds_store_diff_insert_anchor_path */
    method FindAnchor(p: nat, path: Place) returns (r: Anchor, q: Place)
      requires p < |yang| && path == PlaceOf(yang, p)
      ensures r == AnchorOf(yang, p) && (r.Beside? ==> q == AnchorPlace(yang, p, r))
    {
      q := path;
      if p > 0 && yang[p - 1].shown {
        r := Beside(p - 1, false);
      } else if p + 1 < |yang| && yang[p + 1].shown {
        r := Beside(p + 1, true);
      } else {
        return NoAnchor, path;
      }
      q := LabelPlace(r.pos);
      if r.before && q.name == path.name {
        q := path;
      }
    }

    /** The operations INSERT on both sides. */
    method InsertEntry(e: Entry, after: Option<nat>) returns (ok: bool)
      requires Fits(yang, Insert(e, after))
      modifies this, aug
      ensures yang == Changed(old(yang), Insert(e, after))
      ensures var r := Applied(old(yang), old(aug.items), Insert(e, after));
              ok == r.Some? && (ok ==> aug.items == r.value)
    {
      var p := 0;
      if after.Some? {
        p := FindEntry(after.value);
        p := p + 1;
      }
      yang := PutIn(yang, p, e);
      if !e.shown {
        return true;
      }
      PutSlices(old(yang), p, e);
      var path := LabelPlace(p);
      var r, q := FindAnchor(p, path);
      ok := true;
      if r != NoAnchor {
        ok := aug.Insert(q, path.name, r.before);
      }
      if ok {
        ok := aug.Set(path, e.value);
      }
    }

    /** One change of the diff on both sides. */
    method Apply(c: Change) returns (ok: bool)
      requires Fits(yang, c)
      modifies this, aug
      ensures yang == Changed(old(yang), c)
      ensures var r := Applied(old(yang), old(aug.items), c); ok == r.Some? && (ok ==> aug.items == r.value)
      ensures old(InStep()) ==> Good(yang) && (ok && InStep() <==> Safe(old(yang), c))
    {
      if InStep() {
        ChangeInStep(yang, c);
        ChangedGood(yang, c);
      }
      match c {
        case Insert(e, after) =>
          ok := InsertEntry(e, after);
        case Delete(k) =>
          var p := FindEntry(k);
          ok := true;
          if yang[p].shown {
            var path := LabelPlace(p);
            ok := aug.Remove(path);
          }
          yang := TakeOut(yang, p);
        case Rename(k, l) =>
          var p := FindEntry(k);
          var path := LabelPlace(p);
          yang := yang[p := yang[p].(name := l)];
          ok := aug.Rename(path, l);
        case Replace(k, v) =>
          var p := FindEntry(k);
          yang := yang[p := yang[p].(value := v)];
          var path := LabelPlace(p);
          ok := aug.Set(path, v);
      }
    }

    /** The move of an entry of the YANG list; returns its new position. */
    method Reorder(key: nat, after: Option<nat>) returns (j: nat)
      requires StepFits(yang, Move(key, after))
      modifies `yang
      ensures j == MovePlace(old(yang), Move(key, after)).1 < |yang|
      ensures yang == Done(old(yang), Move(key, after))
    {
      hide PosOf, Count;
      var i := FindEntry(key);
      var e := yang[i];
      yang := TakeOut(yang, i);
      j := 0;
      if after.Some? {
        j := FindEntry(after.value);
        j := j + 1;
      }
      yang := PutIn(yang, j, e);
    }

    /** The operation MOVE for the entry that is now at `j`. */
    method MoveNode(j: nat) returns (ok: bool)
      requires j < |yang|
      modifies aug
      ensures var r := NodeMoved(yang, old(aug.items), j); ok == r.Some? && (ok ==> aug.items == r.value)
    {
      hide Find, Count, AnchorOf, AnchorPlace, MovedBack, Moved, Inserted;
      var path := LabelPlace(j);
      var r, q := FindAnchor(j, path);
      if r == NoAnchor {
        return false;
      }
      if !yang[j].shown {
        return !r.before;
      }
      var back := MovedBack(yang, j, r);
      ok := aug.Insert(q, path.name, r.before);
      if ok {
        ok := aug.Move(if back then Next(path) else path, if back then path else Next(path));
      }
    }

    /** MOVE: the list on the YANG side first, then a new node and aug_mv on the Augeas side. */
    method MoveEntry(key: nat, after: Option<nat>) returns (ok: bool)
      requires StepFits(yang, Move(key, after))
      modifies `yang, aug
      ensures yang == Done(old(yang), Move(key, after))
      ensures var r := StepApplied(old(yang), old(aug.items), Move(key, after));
              ok == r.Some? && (ok ==> aug.items == r.value)
    {
      MoveStepIs(yang, aug.items, key, after);
      hide *;
      var j := Reorder(key, after);
      ok := MoveNode(j);
    }

    /** One node of the diff. */
    method Perform(s: Step) returns (ok: bool)
      requires StepFits(yang, s)
      modifies this, aug
      ensures yang == Done(old(yang), s)
      ensures var r := StepApplied(old(yang), old(aug.items), s); ok == r.Some? && (ok ==> aug.items == r.value)
      ensures old(InStep()) && StepSafe(old(yang), s) ==> ok && InStep()
      ensures old(InStep()) && s.Single? && !StepSafe(old(yang), s) ==> !(ok && InStep())
    {
      hide Shown, Good, Uniform, Keys, StepApplied, Done, StepSafe, Safe, MoveSafe, Applied, Changed, MoveApplied,
           MovePlace;
      if InStep() {
        assert Uniform(yang) by { GoodIs(yang); }
        StepInStep(yang, s);
        DoneGood(yang, s);
      }
      match s {
        case Single(c) =>
          SingleIs(yang, aug.items, c);
          ok := Apply(c);
        case Move(key, after) =>
          ok := MoveEntry(key, after);
      }
    }

    /** A diff without unsafe steps: at every step the Augeas siblings are the YANG list with keys dropped. */
    method ApplyAll(d: seq<Step>) returns (ok: bool)
      requires InStep() && AllFit(yang, d) && AllSafe(yang, d)
      modifies this, aug
      ensures ok && InStep() && yang == Run(old(yang), d)
    {
      hide Good, Shown, Done, StepApplied, StepSafe, StepFits;
      ok := true;
      var i := 0;
      assert d[0..] == d;
      while i < |d|
        invariant 0 <= i <= |d| && InStep() && AllFit(yang, d[i..]) && AllSafe(yang, d[i..]) && ok
        invariant Run(yang, d[i..]) == Run(old(yang), d)
      {
        assert d[i..][0] == d[i] && d[i..][1..] == d[i + 1..];
        ok := Perform(d[i]);
        i := i + 1;
      }
    }
  }

  lemma MoveStepIs(y: seq<Entry>, a: seq<Item>, key: nat, after: Option<nat>)
    requires StepFits(y, Move(key, after))
    ensures var j, z := MovePlace(y, Move(key, after)).1, Done(y, Move(key, after));
            j < |z| && StepApplied(y, a, Move(key, after)) == NodeMoved(z, a, j)
  {
    hide PosOf, NodeMoved;
  }

  lemma GoodIs(y: seq<Entry>)
    requires Good(y)
    ensures Uniform(y)
  {
  }

  lemma SingleIs(y: seq<Entry>, a: seq<Item>, c: Change)
    requires Fits(y, c)
    ensures StepApplied(y, a, Single(c)) == Applied(y, a, c) && Done(y, Single(c)) == Changed(y, c)
    ensures StepSafe(y, Single(c)) == Safe(y, c)
  {
  }

  lemma PosIs(y: seq<Entry>, key: nat, p: nat)
    requires p <= |y| && (p < |y| ==> y[p].key == key) && forall i :: 0 <= i < p ==> y[i].key != key
    ensures PosOf(y, key) == p
  {
  }

  lemma CountNext(y: seq<Entry>, i: nat, schema: nat, name: string)
    requires i < |y|
    ensures Count(y[..i + 1], schema, name)
            == Count(y[..i], schema, name) + if y[i].schema == schema && y[i].name == name then 1 else 0
  {
    assert y[..i + 1] == y[..i] + [y[i]] && [y[i]][1..] == [];
    CountConcat(y[..i], [y[i]], schema, name);
  }
}
