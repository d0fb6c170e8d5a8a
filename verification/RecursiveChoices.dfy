/**
 The choices below recursions for which ay_ynode_recursive_form_by_copy asks for a grouping, and the numbers that
 ay_ynode_set_ref_recursive_form gives to them.
*/
module RecursiveChoices {
  import opened YNodes
  import opened RoseTree
  import opened Marking

  /** Whether a leafref is below the node. */
  predicate LeadsBack(t: Tree) {
    exists k :: 0 <= k < |t.kids| && (t.kids[k].data.typ == Leafref || LeadsBack(t.kids[k]))
  }

  /** The branches from `k` to `j` are in one choice. */
  predicate OneChoice(f: seq<Tree>, k: int, j: int) {
    0 <= k <= j < |f| && forall a :: k <= a <= j ==> f[a].data.choice == f[k].data.choice
  }

  /** A branch that does not lead back can be in a grouping. */
  predicate Groupable(t: Tree, rules: Rules) {
    t.data.typ != List && t.data.when.None? && rules.fit(t.id)
  }

  /** The siblings `f` have a choice that begins at `k`, with branches that lead back and others; none of the others
      is a list or has a when. */
  ghost predicate ChoiceForGrouping(f: seq<Tree>, k: nat, rules: Rules)
    requires k < |f|
  {
    && f[k].data.choice.Some? && (forall a :: 0 <= a < k ==> f[a].data.choice != f[k].data.choice)
    && (exists j :: OneChoice(f, k, j) && LeadsBack(f[j]))
    && (exists j :: OneChoice(f, k, j) && !LeadsBack(f[j]))
    && forall j :: OneChoice(f, k, j) && !LeadsBack(f[j]) ==> Groupable(f[j], rules)
  }

  ghost predicate Flagged(t: Tree, k: nat, rules: Rules)
    requires k < |t.kids|
  {
    var n := t.kids[k];
    && (GroupingChoice in n.data.flags <==> t.data.typ == Rec && ChoiceForGrouping(t.kids, k, rules))
    && (GroupingChoice in n.data.flags ==> n.data.ref == n.id)
  }

  /** Exactly the first branches of such choices have the flag, and each has its own id as number. */
  ghost predicate ChoicesFlagged(t: Tree, rules: Rules) {
    forall k :: 0 <= k < |t.kids| ==> Flagged(t, k, rules) && ChoicesFlagged(t.kids[k], rules)
  }
}
