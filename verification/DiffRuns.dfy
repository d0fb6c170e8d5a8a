/** Whole runs of a diff: changes and moves, on the YANG list and on the Augeas siblings. */
module DiffRuns {
  import opened YNodes
  import opened AugeasSiblings
  import opened DiffStore
  import opened DiffMoves

  /** One node of the diff; an entry moves to the front (None) or behind the entry with the key. */
  datatype Step = Single(c: Change) | Move(key: nat, after: Option<nat>)

  ghost predicate StepFits(y: seq<Entry>, s: Step) {
    match s
    case Single(c) => Fits(y, c)
    case Move(k, after) =>
      var i := PosOf(y, k);
      && i < |y|
      && (after.Some? ==> PosOf(TakeOut(y, i), after.value) < |TakeOut(y, i)|)
  }

  /** Where a moved entry goes among the others. */
  function MovePlace(y: seq<Entry>, s: Step): (p: (nat, nat))
    requires s.Move? && StepFits(y, s)
    ensures p.0 < |y| && p.1 < |y|
  {
    var i := PosOf(y, s.key);
    (i, Target(TakeOut(y, i), s.after))
  }

  function Done(y: seq<Entry>, s: Step): seq<Entry>
    requires StepFits(y, s)
  {
    match s
    case Single(c) => Changed(y, c)
    case Move(_, _) => var p := MovePlace(y, s); Placed(y, p.0, p.1)
  }

  function StepApplied(y: seq<Entry>, a: seq<Item>, s: Step): Option<seq<Item>>
    requires StepFits(y, s)
  {
    match s
    case Single(c) => Applied(y, a, c)
    case Move(_, _) => var p := MovePlace(y, s); MoveApplied(y, a, p.0, p.1)
  }

  ghost predicate StepSafe(y: seq<Entry>, s: Step)
    requires StepFits(y, s)
  {
    match s
    case Single(c) => Safe(y, c)
    case Move(_, _) => var p := MovePlace(y, s); MoveSafe(y, p.0, p.1)
  }

  /** A safe step keeps both sides in step; so does no other, if values of one label differ where an entry moves. */
  lemma StepInStep(y: seq<Entry>, s: Step)
    requires Uniform(y) && StepFits(y, s)
    ensures StepSafe(y, s) ==> StepApplied(y, Shown(y), s) == Some(Shown(Done(y, s)))
    ensures s.Single? || (y[MovePlace(y, s).0].shown ==> NoTwo(Vals(Shown(y), y[MovePlace(y, s).0].name))) ==>
              (StepApplied(y, Shown(y), s) == Some(Shown(Done(y, s))) <==> StepSafe(y, s))
  {
    hide Applied, MoveApplied, Shown, Changed, Placed, Fits, Uniform, Safe, MoveSafe, NoTwo, Vals, MovePlace;
    match s {
      case Single(c) => ChangeInStep(y, c);
      case Move(_, _) =>
        var p := MovePlace(y, s);
        if MoveSafe(y, p.0, p.1) { SafeMove(y, p.0, p.1); }
        if y[p.0].shown ==> NoTwo(Vals(Shown(y), y[p.0].name)) { MoveInStep(y, p.0, p.1); }
    }
  }

  /** Steps leave good data. */
  lemma DoneGood(y: seq<Entry>, s: Step)
    requires Good(y) && StepFits(y, s)
    ensures Good(Done(y, s))
  {
    match s {
      case Single(c) => ChangedGood(y, c);
      case Move(_, _) =>
        var p := MovePlace(y, s);
        PlacedUniform(y, p.0, p.1);
        TakeGood(y, p.0);
        TakeKey(y, p.0);
        PutKeys(TakeOut(y, p.0), p.1, y[p.0]);
    }
  }

  lemma TakeKey(y: seq<Entry>, p: nat)
    requires Keys(y) && p < |y|
    ensures forall i :: 0 <= i < |TakeOut(y, p)| ==> TakeOut(y, p)[i].key != y[p].key
  {
  }

  ghost predicate AllFit(y: seq<Entry>, d: seq<Step>)
    decreases |d|
  {
    d == [] || (StepFits(y, d[0]) && AllFit(Done(y, d[0]), d[1..]))
  }

  /** No step of the run is one of those that get out of step. */
  ghost predicate AllSafe(y: seq<Entry>, d: seq<Step>)
    requires AllFit(y, d)
    decreases |d|
  {
    d == [] || (StepSafe(y, d[0]) && AllSafe(Done(y, d[0]), d[1..]))
  }

  function Run(y: seq<Entry>, d: seq<Step>): seq<Entry>
    requires AllFit(y, d)
    decreases |d|
  {
    if d == [] then y else Run(Done(y, d[0]), d[1..])
  }

  /** The same run on Augeas; None if an operation fails. */
  function RunApplied(y: seq<Entry>, a: seq<Item>, d: seq<Step>): Option<seq<Item>>
    requires AllFit(y, d)
    decreases |d|
  {
    if d == [] then Some(a)
    else match StepApplied(y, a, d[0])
      case None => None
      case Some(b) => RunApplied(Done(y, d[0]), b, d[1..])
  }

  /** Over a run of safe steps the siblings are the list with keys dropped, at every step. */
  lemma {:induction false} RunInStep(y: seq<Entry>, d: seq<Step>)
    requires Good(y) && AllFit(y, d) && AllSafe(y, d)
    ensures RunApplied(y, Shown(y), d) == Some(Shown(Run(y, d))) && Good(Run(y, d))
    decreases |d|
  {
    if d != [] {
      StepInStep(y, d[0]);
      DoneGood(y, d[0]);
      hide Shown, Good, StepApplied, Done, StepFits, StepSafe;
      RunInStep(Done(y, d[0]), d[1..]);
    }
  }
}
