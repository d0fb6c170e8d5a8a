/**
 Merging the branches of a choice that begin with the same label: what one merge builds, with types, choices, values,
 flags and when statements.
*/
module CaseMerging {
  import opened YNodes
  import opened RoseTree

  predicate IsCase(t: Tree) {
    t.data.typ == Case
  }

  /** Every case has children and no label. */
  predicate Sound(t: Tree) {
    (IsCase(t) ==> t.kids != [] && t.data.labelLens == None) && SoundF(t.kids)
  }

  predicate SoundF(f: seq<Tree>) {
    forall i :: 0 <= i < |f| ==> Sound(f[i])
  }

  /** The first node of a branch, and the others of a case. */
  function First(b: Tree): Tree
    requires Sound(b)
  {
    if IsCase(b) then b.kids[0] else b
  }

  function Rest(b: Tree): seq<Tree>
    requires Sound(b)
  {
    if IsCase(b) then b.kids[1..] else []
  }

  // ----- Changes of single nodes -----

  function Chosen(t: Tree, c: Option<nat>): Tree {
    t.(data := t.data.(choice := c))
  }

  function Flagged(t: Tree, fs: set<Flag>): Tree {
    t.(data := t.data.(flags := t.data.flags + fs))
  }

  function Timed(t: Tree, w: Option<When>): Tree {
    t.(data := t.data.(when := w))
  }

  function FlagAt(f: seq<Tree>, fs: set<Flag>): seq<Tree> {
    if f == [] then f else f[0 := Flagged(f[0], fs)]
  }

  function WhenAt(f: seq<Tree>, w: Option<When>): seq<Tree> {
    if f == [] || w.None? then f else f[0 := Timed(f[0], w)]
  }

  // ----- Joining siblings -----

  /** ay_ynode_nodes_in_choice */
  predicate InChoice(f: seq<Tree>)
    requires f != []
  {
    f[0].data.choice.Some? && forall i :: 0 <= i < |f| ==> f[i].data.choice == f[0].data.choice
  }

  /** The choice that the program takes if there is none: the first lens. */
  const TOP: nat := 0

  function CaseChoice(c: Option<nat>): Option<nat> {
    if c.Some? then c else Some(TOP)
  }

  /** ay_ynode_case_insert: siblings become a case with the id `n`, a single one only gets the choice. */
  function CaseInsert(f: seq<Tree>, c: Option<nat>, n: nat): (r: seq<Tree>)
    requires f != []
    ensures r != []
  {
    if IsCase(f[0]) then f
    else
      var x := if c.None? || f[0].data.choice.None? then Flagged(f[0], {ChoiceCreated}) else f[0];
      if |f| > 1 then
        [Node(n, BLANK.(typ := Case, choice := CaseChoice(c), flags := {ChoiceCreated}, when := x.data.when),
          [Timed(x, None)] + f[1..])]
      else [Flagged(Chosen(x, CaseChoice(c)), {ChoiceCreated})]
  }

  /** Siblings that come into a choice. */
  function AllChosen(f: seq<Tree>, c: Option<nat>): (r: seq<Tree>)
    ensures |r| == |f| && forall i :: 0 <= i < |f| ==> r[i] == Flagged(Chosen(f[i], c), {ChoiceCreated})
  {
    seq(|f|, i requires 0 <= i < |f| => Flagged(Chosen(f[i], c), {ChoiceCreated}))
  }

  /** ay_ynode_merge_nodes without merge_as_child: the second siblings join the first ones. */
  function Joined(f: seq<Tree>, g: seq<Tree>, n: nat): (r: seq<Tree>)
    requires f != []
    ensures r != []
  {
    if g == [] then f
    else if InChoice(f) && InChoice(g) then f + AllChosen(g, f[0].data.choice)
    else if InChoice(f) then f + CaseInsert(g, f[0].data.choice, n + 1)[..1]
    else if InChoice(g) then
      var a := CaseInsert(f, g[0].data.choice, n);
      a[..1] + g + a[1..]
    else CaseInsert(f, None, n) + CaseInsert(g, None, n + 1)[..1]
  }

  /** Nodes that do not arrive: case_insert leaves siblings alone that begin with a case, and one node is moved. */
  predicate Drops(g: seq<Tree>) {
    |g| > 1 && IsCase(g[0]) && !InChoice(g)
  }

  /** ay_ynode_merge_nodes with merge_as_child: how the children arrive. */
  function Arrived(g: seq<Tree>): seq<Tree> {
    if |g| == 1 then [Chosen(g[0], None)]
    else if g != [] && g[0].data.choice.Some? then FlagAt(g, {ChoiceMandFalse})
    else g
  }

  // ----- Merging the first nodes -----

  /** ay_ynode_merge_cases_set_when: the when for what stands beside the value `v`; `other` is the value of the
      other branch. The branches themselves have no when, so nothing is moved. */
  function Asked(target: nat, v: Option<Lens>, fs: set<Flag>, other: Option<Lens>): Option<When> {
    if v.None? || ValueInChoice in fs || other == v then None else Some(When(target, v.value))
  }

  function When1(x: Tree, y: Tree): Option<When> {
    Asked(x.id, x.data.valueLens, x.data.flags + y.data.flags, y.data.valueLens)
  }

  function When2(x: Tree, y: Tree): Option<When> {
    Asked(x.id, y.data.valueLens, y.data.flags, x.data.valueLens)
  }

  /** The flags that tell how the values came together. */
  function ValueFlags(x: Tree, y: Tree): set<Flag> {
    var v1, v2 := x.data.valueLens, y.data.valueLens;
    var one, two := x.kids != [] && y.kids == [], x.kids == [] && y.kids != [];
    if v1 == v2 then {}
    else if v1.Some? && v2.Some? then (if one || two then {ChildrenMandFalse} else {})
    else if v1.Some? then
      (if one then {ValueMandFalse, ChildrenMandFalse} else if two then {ValueInChoice} else {ValueMandFalse})
    else (if one then {ValueInChoice} else if two then {ValueMandFalse, ChildrenMandFalse} else {ValueMandFalse})
  }

  /** The data of the merged first node; `target` tells that a when looks at it. */
  function FirstData(x: Tree, y: Tree, target: bool): Data {
    var two := x.kids == [] && y.kids != [];
    x.data.(
      typ := if two then (if x.data.typ == List then List else Container) else x.data.typ,
      valueLens := if x.data.valueLens.Some? then x.data.valueLens else y.data.valueLens,
      minElems := if x.data.minElems < y.data.minElems then x.data.minElems else y.data.minElems,
      flags := x.data.flags + y.data.flags + {HintMandTrue} + ValueFlags(x, y)
               + (if target then {WhenTarget} else {}) + (if two && |y.kids| == 1 then {ChildrenMandFalse} else {}))
  }

  function MergeFirst(x: Tree, y: Tree, target: bool, n: nat): Tree {
    var d := FirstData(x, y, target);
    var f, g := WhenAt(x.kids, When1(x, y)), WhenAt(y.kids, When2(x, y));
    var fs := if ValueInChoice in d.flags then {} else {ChoiceMandFalse};
    Node(x.id, d, if g == [] then FlagAt(f, fs) else if f == [] then FlagAt(Arrived(g), fs) else Joined(f, g, n))
  }

  /** Whether a when of the merge looks at the first node. */
  predicate Target(a: Tree, b: Tree)
    requires Sound(a) && Sound(b)
  {
    var x, y := First(a), First(b);
    || (When1(x, y).Some? && (x.kids != [] || IsCase(a)))
    || (When2(x, y).Some? && (y.kids != [] || IsCase(b)))
  }

  // ----- Merging two branches -----

  /** A when is set behind a lone child of a case. */
  predicate WhenFails(a: Tree, b: Tree)
    requires Sound(a) && Sound(b)
  {
    || (IsCase(a) && Rest(a) == [] && When1(First(a), First(b)).Some?)
    || (IsCase(b) && Rest(b) == [] && When2(First(a), First(b)).Some?)
  }

  /** The program follows NULL, behind a lone child of a case. */
  predicate Fails(a: Tree, b: Tree)
    requires Sound(a) && Sound(b)
  {
    WhenFails(a, b) || (IsCase(a) && Rest(a) == [] && (!IsCase(b) || Rest(b) != []))
  }

  /** ay_ynode_merge_cases_: what the first branch becomes. */
  function MergeBranches(a: Tree, b: Tree, n: nat): Tree
    requires Sound(a) && Sound(b) && !Fails(a, b)
  {
    var x := MergeFirst(First(a), First(b), Target(a, b), n);
    var f, g := WhenAt(Rest(a), When1(First(a), First(b))), WhenAt(Rest(b), When2(First(a), First(b)));
    if IsCase(a) && IsCase(b) then
      a.(kids := [x] + if g == [] then f else Joined(f, g, n + 2))
    else if IsCase(a) then
      Flagged(a, {ChildrenMandFalse}).(kids := [x] + FlagAt(f, {ChoiceMandFalse}))
    else if IsCase(b) then
      Node(n + 2, BLANK.(typ := Case, choice := x.data.choice, flags := {ChildrenMandFalse, ChoiceCreated}),
           [Chosen(x, None)] + Arrived(g))
    else x
  }

  /** Whether the merge of two branches loses nodes behind a case. */
  predicate Loses(a: Tree, b: Tree)
    requires Sound(a) && Sound(b)
  {
    || (First(a).kids != [] && Drops(First(b).kids))
    || (IsCase(a) && Rest(a) != [] && Drops(Rest(b)))
  }
}
