# Augyang in Dafny

Augyang reads an Augeas lens and prints a YANG module for it. Between the two stands the ynode tree: an array of
nodes in preorder, each with the number of its descendants, on which about thirty transformations work in place.
Its plugin srds_augeas later applies changes of the YANG data to Augeas. This project models the array with the
transformations that merge branches of choices and turn repeated subtrees into YANG groupings, and the application of
a diff to Augeas siblings, and proves what they keep, when they end, and when they go wrong.

* **The array** (`YNodes`, `RoseTree`, `TreeLinks`, `TreeEdits`, `TreeMoves`, `YTree`, `EditRuns`). `YTree.YTree` is
  the array with its descendant counts, its parent, child and next links, its spare capacity and its id counter.
  `RoseTree.FlatT` and `RoseTree.LinkT` say which array stores which rose tree. Every edit of the program is a method
  on the array that is proved equal to an edit of the rose tree.
* **What a tree means** (`Expansion`). `Meaning` is the tree with every uses replaced by the content of the grouping it
  names (sections 7.12 and 7.13 of RFC 7950). A node that is only marked for a grouping is read as what it will become.
  A node says its type, label, value, flags and minimal number of elements; what a leafref refers to and the when
  statements are left open, because the program itself compares nodes without them.
* **Marking** (`Marking` to `MarkingPass`, `SameContent`, `TreeForms`, `RecursiveChoices`, `MixedExample`,
  `NumberExample`, `TwiceExample`). Which nodes are equal, which are put into one class, and when that keeps the meaning.
* **Creating groupings** (`Conversion` to `GroupingLoop`, `KeyOrder`, `Rewriting`). Each class becomes a grouping and
  uses of it. `GroupingChoices` says in which choices the siblings are afterwards.
* **Reordering** (`GroupOrder` to `GroupsAheadPass`, `GroupSorting`). All groupings are moved in front of the main list,
  each behind those it uses.
* **The passes together** (`GroupingWhole`).
* **Merging branches** (`CaseMerging`, `CaseCounts`, `CaseMerges`, `CaseRuns`, `CaseSteps`, `CasePass`, `CaseTidy`,
  `CaseLoose`, `CaseWhens`, `CaseRoom`, `CaseExamples`, `CaseRoomExample`). Branches of a choice that begin with the same
  label become one, until there are no more, with the values, flags and when statements that this leaves. Why it ends,
  what it keeps, when it loses nodes or fails, and how much space it takes.
* **Applying a diff** (`AugeasSiblings` to `DiffStorePass`, `DiffExamples`). A user-ordered YANG list and the Augeas
  siblings it stands for, addressed as `label[k]`. The index is counted on the YANG data, which has the change already,
  and used on the Augeas data, which has not. `AugeasSiblings.Augeas` is the part of the Augeas interface that is needed.

Nodes are named by paths in the rose tree and by indexes in the array; NULL is -1.

## Findings

* **Mixed classes.** ay_ynode_set_ref may put nodes that equal the first one as a whole and nodes that share only its
  inner nodes into one class (src/augyang.c:5127-5157). The first node then gets AY_GROUPING_CHILDREN, the equal ones do
  not, and each of them is later replaced by the inner nodes alone: its own node is lost.
  `MarkingRun.MarkingKeepsMeaning` says that the pass keeps the meaning exactly if there is no such class.
  `MarkingConditions.Unmixed` is a condition on the tree before the pass that rules them out;
  `MarkingConverse.ConflictLosesMeaning` says when a tree that breaks it loses meaning, and `MixedExample` is such a tree
  of eleven nodes.
* **One number for two things.** ay_ynode_set_ref_recursive_form gives the first branch of a choice below a recursion
  its own id as number. The guard at src/augyang.c:5101 lets such a branch start a class all the same, and then nodes that
  have nothing to do with the choice get that number too (`MarkingNumbers.NumberTaken` and `MatchTaken`, for every tree).
  `NumberExample.NumberStandsForTwo` is such a tree, with the flags and numbers that the two passes before leave
  (`RecursiveChoices.ChoicesFlagged`); ay_ynode_create_groupings_recursive_form takes every node with the number for a
  copy of the choice. `MarkingRecursion.RecSafe` rules this out by looking at the tree before the pass.
* **Choices of inner nodes.** The uses in the first node of a class is put into the choice of the first inner node
  (src/augyang.c:5252), the one in a later node of the class into none (src/augyang.c:5222-5226).
  `GroupingChoices.UsesChoicesAgree`: both are in the same choices exactly if the inner nodes start outside a choice.
  `GroupingChoices.UsesLeaveChoice` are two lists for which they are not.
* **Merged branches lose nodes.** ay_ynode_case_insert leaves siblings alone that begin with a case, and
  ay_ynode_merge_nodes then moves only that case; the nodes behind it are deleted with the second branch
  (src/augyang.c:4188-4209). `CaseMerges.MergeCounts` says that a merge loses nodes exactly then (`CaseMerging.Loses`),
  and `CaseExamples.MergeDropsNodes` is an input. `CaseLoose.Loose` is a condition on the tree before the pass under which
  it never happens.
* **Space for merged branches.** ay_ynode_rule_merge_cases reserves four nodes for each pair of branches that begin with
  the same label, but merges may bring about new pairs. `CaseRoom.ReserveLasts`: with `m` pairs the space is enough for
  the first `2 * m - 1` merges of any run. `CaseRoomExample.ReserveTooSmall` is a tree with one pair in which the second
  merge takes more. `CaseRoom.RunRoom` gives a number that is enough for every run in a tree that is loose.
* **INSERT between hidden entries.** Without a shown neighbour the value is set by path alone, and the node becomes the
  last one. `DiffStore.InsertInStep`: the siblings are right exactly if a neighbour is shown or nothing behind is.
  `DiffExamples.InsertComesLast` is a list for which they are not.
* **MOVE among equal labels, and its direction.** `DiffMoves.MoveInStep`: the siblings are right exactly if there is an
  anchor, the entry passes no other one of its label, and the comparison of keys (srds_augeas/srdsa_store.c:1050-1057)
  tells the direction. `DiffExamples.ReversalLosesValue`: when three entries are reversed, the second move goes the
  wrong way, and a value is lost. A hidden entry may move only behind a shown one; else the program fails on an
  assertion, or on the path that the entry does not have (`DiffMoves.HiddenMove`).

## Model

| member | source | states |
|---|---|---|
| YTree.YTree.TreeCorrection | src/augyang.c:1432-1450 | From the descendant counts alone it rebuilds exactly the parent, child and next links of the tree that the array stores |
| YTree.YTree.MoveBlock | src/augyang.c:2489-2518 | Through the spare capacity or node by node, the block ends up cut out and put in at the target, for targets before, behind and at its place; the id counter grows as in the program |
| YTree.YTree.DeleteNode | src/augyang.c:2221-2278 | The array stores the tree in which the children take the place of the node and inherit its choice and hint, or the node has become a case |
| YTree.YTree.MoveAsSibling | src/augyang.c:2528-2548 | The array stores the tree with the subtree moved behind the other node, wherever both were |
| EditRuns.PerformAll | src/augyang.c:2142-2599 | Any run of insertions, deletions, moves and assignments on the array is the same run on the rose tree, and keeps ids distinct |
| EditRuns.RunKeepsIds | src/augyang.c:2142-2599 | Over every run of edits ids stay distinct and below the counter, and the counter never falls |
| SameContent.CellsSimilarF | src/augyang.c:798-841 | Forests that agree node by node in preorder, counts included, agree as trees |
| MarkingPass.SetRef | src/augyang.c:5091-5159 | The loops over the array mark exactly the nodes that the specification marks |
| MarkingPass.IsRestricted | src/augyang.c:4922-4951 | The search upwards and through the subtree finds out whether a leafref leads back to the recursion that the subtree is in |
| MarkingRun.MarkingKeepsMeaning | src/augyang.c:5091-5159 | For every tree, recursive lenses included, in which classes start apart from each other, the marked tree is ready for the creation of groupings, and its meaning is the one from before if and only if no class is mixed |
| MarkingConditions.UnmixedKeepsMeaning | src/augyang.c:5127-5157 | If no node equals some later nodes as a whole and shares only inner nodes with others, no class is mixed and the meaning stays |
| MarkingConditions.PlainKeepsMeaning | src/augyang.c:5091-5159 | Without recursive lenses nothing else is needed |
| MarkingConverse.ConflictLosesMeaning | src/augyang.c:5127-5157 | A node that does, and whose class no earlier class can take apart, makes the pass lose meaning |
| MarkingRecursion.SafeKeepsMeaning | src/augyang.c:5091-5159 | For recursive lenses a condition on the tree before the pass keeps classes apart, and the equivalence holds |
| MixedExample.MixedLosesMeaning | src/augyang.c:5127-5157 | Three lists with two leaves each on which the pass changes the meaning |
| MarkingNumbers.NumberTaken | src/augyang.c:5098-5157 | Wherever a class starts, also in a child of a recursion that has a number already, some later node without number gets the id of its first node, and keeps it to the end unless it is a child of a recursion itself |
| MarkingNumbers.MatchTaken | src/augyang.c:5098-5157 | At a node that may start a class every later match that is worth a grouping and below no other number gets the id of that node, and keeps it to the end unless it is a child of a recursion |
| MarkingNumbers.ClassLeaves | src/augyang.c:5112-5143 | A class changes only its first node and later nodes that match it |
| NumberExample.NumberStandsForTwo | src/augyang.c:5101-5103 | A tree with a recursion, with a number on the first branch of the choice that gets a grouping and on no other node, on which a container outside the choice gets that number |
| TwiceExample.StartsTwice | src/augyang.c:5101-5103 | A child of a recursion joins a class and then starts another one, without any number of the other pass |
| Conversion.ConvSameT | src/augyang.c:5218-5243 | Replacing the later nodes of a class by uses of its grouping keeps the expansion in every environment in which both are known |
| GroupingRuns.ExtractKeeps | src/augyang.c:5170-5259 | Making one class a grouping keeps the meaning, leaves a tree that is ready for the next class, and stays within the reserved space |
| GroupingRuns.ExtractionKeepsMeaning | src/augyang.c:5170-5259 | Over all classes the meaning stays, no marked node is left, every uses refers to a grouping before it, and the tree grows by no more than was reserved |
| GroupingLoop.CreateGroupings | src/augyang.c:5170-5259 | The edits on the array produce exactly that tree |
| MarkingPass.GroupAll | src/augyang.c:6385-6395 | Marking and creation of groupings on the array: the meaning stays if and only if no class is mixed |
| GroupOrder.OkOrderedT | src/augyang.c:5829-5946 | In a tree whose uses refer to earlier groupings the order in which groupings are complete puts each behind those it uses |
| GroupsAhead.OkTopological | src/augyang.c:5829-5946 | So such a tree can be sorted |
| GroupSorting.SortGroups | src/augyang.c:5882-5918 | The fixpoint loop ends with an order in which each grouping is behind those it uses, whenever there is such an order |
| GroupSorting.Resolvable | src/augyang.c:5882-5918 | As long as groupings are left, one of them uses only sorted ones, so that every pass makes progress |
| GroupsAhead.AheadKeepsMeaning | src/augyang.c:5829-5946 | With the groupings in such an order in front of the main list every uses refers to an earlier grouping, and every assignment of contents to groupings that was right before gives the same expansion |
| GroupsAheadPass.FillDict | src/augyang.c:5861-5880 | The dictionary holds every grouping once, with the uses in it that are in no inner grouping |
| GroupsAheadPass.MoveGroupingsAhead | src/augyang.c:5829-5946 | For acyclic uses that all resolve, later groupings included, the pass ends; the root then holds each grouping once, none in another, each behind those it uses, and the main list last, and the meaning is the one from before |
| GroupingWhole.GroupAndSort | src/augyang.c:6385-6412 | All three passes on one array: groupings ahead and in order, and the meaning of the tree before marking if and only if no class is mixed |
| GroupingChoices.WholeChoices | src/augyang.c:5246-5256 | In place of the first node of a class its uses is in the choice of that node, and the node in the grouping is in none |
| GroupingChoices.UsesChoicesAgree | src/augyang.c:5218-5256 | The uses of inner nodes are in the same choices in the first node and in a later one exactly if the inner nodes start outside a choice |
| GroupingChoices.UsesLeaveChoice | src/augyang.c:5222-5252 | Two lists of one class whose uses are in different choices |
| CaseCounts.JoinedCounts | src/augyang.c:4148-4212 | Joining two groups of siblings keeps every node of both by id and label, unless the second one begins with a case, goes on, and is not in one choice; then nodes are lost |
| CaseMerges.MergeCounts | src/augyang.c:4223-4327 | One merge keeps, by id and label, every node that is no case except the first one of the second branch, exactly if it drops nothing; if that one is a case, more nodes lie below others, or fewer cases begin with a case or their chains are longer |
| CaseSteps.StepBetter | src/augyang.c:4459-4523 | Any merge anywhere in any tree, with the branch then alone in its choice freed, makes progress in an order without infinite descent, makes up no node, and keeps the labels if it drops nothing |
| CaseSteps.NoEndlessRun | src/augyang.c:4534-4546 | In no tree and in no order can merges go on for ever, recursions and nodes without label included |
| CasePass.MergeSiblings | src/augyang.c:4475-4520 | The loop over siblings, with its repetitions at one place, ends and leaves what the specification says |
| CasePass.MergeCases | src/augyang.c:4534-4546 | The repeated pass ends with the specified tree, whens and values included; if it does not fail, no two branches of a choice without a when begin with the same label; no node is made up, and no label is gone if nothing was dropped |
| CasePass.AllSettled | src/augyang.c:4534-4546 | The specified tree has no two branches left to merge |
| CasePass.AllKept | src/augyang.c:4534-4546 | The specified tree has only nodes that were there, and all labels if nothing was dropped |
| CaseTidy.AllTidy | src/augyang.c:4534-4546 | If among all siblings nodes in no choice come first and then at most one choice of two branches or more, and every case begins with a node in no choice and has another one, then the whole pass neither fails nor drops nodes, and leaves such a tree |
| CaseLoose.AllLoose | src/augyang.c:4534-4546 | The same if only the cases and the branches of choices are so: above them there may be several choices, with nodes between and behind |
| CaseRoom.MergeSize | src/augyang.c:4148-4212 | A merge leaves all nodes of both branches and up to four new cases, without the first node of the second branch and its case; fewer exactly if it drops nodes |
| CaseRoom.NoMatches | src/augyang.c:1810-1830 | The program counts no pair exactly if no branches are left to merge, and so may skip the pass |
| CaseRoom.ReserveLasts | src/augyang.c:1828-1829 | Over any run of merges the reserved space is enough as long as there are fewer merges than twice the pairs counted |
| CaseRoom.RunRoom | src/augyang.c:4534-4546 | In every run on a loose tree the array never holds more than twice the nodes that are no cases, and three more |
| CaseRoomExample.ReserveTooSmall | src/augyang.c:1828-1829 | A tree of thirteen nodes with one pair, in which the second merge holds one node more than was reserved |
| CaseWhens.AllDistinct | src/augyang.c:4075-4137 | Whens come only from values: without them the branches of every choice end up with different labels |
| CaseExamples.MergeDropsNodes | src/augyang.c:4188-4209 | Two branches whose merge deletes two nodes |
| DiffStore.PlaceFound | srds_augeas/srdsa_store.c:256-357 | The path made from a label index stands for exactly the node of the entry, hidden entries and other labels between |
| DiffStorePass.Store.LabelPlace | srds_augeas/srdsa_store.c:256-357 | The loop counts that index |
| DiffStore.AnchorFound | srds_augeas/srdsa_store.c:1207-1242 | The path of the anchor, computed with the new entry and corrected if the labels are the same, stands for the anchor in the siblings without it, in front of or behind it |
| DiffStore.InsertInStep | srds_augeas/srdsa_store.c:1310-1340 | INSERT gives the siblings of the new list exactly if the entry is hidden, a neighbour is shown, or nothing behind it is |
| DiffStore.ChangeInStep | srds_augeas/srdsa_store.c:861-965 | DELETE, RENAME and REPLACE always do, and INSERT under that condition |
| DiffMoves.PathKept | srds_augeas/srdsa_store.c:256-357 | The path of a moved entry stays the same exactly if it passes no other entry of its schema node and label |
| DiffMoves.MoveInStep | srds_augeas/srdsa_store.c:920-940 | MOVE gives the siblings of the moved list if and only if there is an anchor, no entry of the label is passed, and keys tell the direction, when values of one label differ; for a hidden entry if and only if a shown one stands in front |
| DiffMoves.HiddenMove | srds_augeas/srdsa_store.c:1375-1407 | Moving a hidden entry leaves the siblings as they are, or fails without a shown entry in front |
| DiffMoves.SafeMove | srds_augeas/srdsa_store.c:920-940 | Under that condition it does whatever the values are |
| DiffMoves.AscendingMove | srds_augeas/srdsa_store.c:1050-1057 | In a list with ascending keys and without hidden entries the condition is only that no entry of the label is passed |
| DiffStorePass.Store.MoveEntry | srds_augeas/srdsa_store.c:1375-1407 | The method moves the entry and does the operations on Augeas that the specification says |
| DiffRuns.RunInStep | srds_augeas/srdsa_store.c:1245-1505 | Over any run of safe changes and moves the siblings are the list with keys dropped, and the list stays well-formed |
| DiffStorePass.Store.ApplyAll | srds_augeas/srdsa_store.c:1245-1505 | The same for the methods on both sides; it is also the invariant of their loop |
| DiffExamples.ReversalLosesValue | srds_augeas/srdsa_store.c:1050-1057 | Two moves that reverse three entries lose a value |
| DiffExamples.InsertComesLast | srds_augeas/srdsa_store.c:885-902 | A new first entry in front of a hidden one becomes the last node |

## Left out

- The other passes (types, choices, creation of cases, lists for files, mandatory statements) and the passes on
  identifiers, the printing of the YANG text, src/parse_regex.c, src/print_yang.c, src/terms.c, the dictionary in
  src/common.c, and loading in srds_augeas/srdsa_load.c.
- CasePass.MergeCases: on rose trees; the edits of the array behind each merge are not modelled, nor the dictionary of
  values. Keys and values as nodes come with a later pass. Ids of new cases are distinct, but not those of the program,
  which also gives numbers to wrappers that it deletes again.
- CaseLoose.AllLoose: for trees that are not loose it is not said whether a whole run fails or drops nodes.
  `CaseMerging.Fails` and `CaseMerging.Loses` say when one merge follows NULL or drops nodes.
- CaseRoom.ReserveLasts: a run with more merges may still fit; how many merges a tree needs is not told beforehand.
- MarkingRun.MarkingKeepsMeaning: for runs in which no class starts at a node with a number of
  ay_ynode_set_ref_recursive_form, or at or below a later node of another class (`MarkingRun.Clean`). The second can
  happen at a child of a recursion (`TwiceExample.StartsTwice`); whether the meaning then stays is not said.
- MarkingConverse.ConflictLosesMeaning: for trees without recursions, and a class that no earlier one takes apart.
- DiffRuns.RunInStep: one list and one level; a value stands for everything in a node. Diffs of nested nodes, recursive
  lists, path strings and their escaping, labels of type uint64 (which have no index), and the second operation for a
  value in a node of its own are not part of this model.
- DiffStore.Fits: what a diff of valid data guarantees (keys occur once, entries of a schema node are all shown or all
  hidden, no label belongs to two schema nodes).
- ay_ynode_copy_subtree: it copies ids too, so that ids are not distinct after it.
- ay_ynode_set_ref_recursive_form, ay_ynode_create_groupings_recursive_form, ay_ynode_delete_ynrec and
  ay_ynode_node_split: their numbers are a parameter of the marking theorems, the passes themselves are not modelled.
- Marking.MarkFrom: whether when paths allow a grouping, which lens a recursion belongs to and whether a label stands for
  several identifiers are parameters, because they depend on lenses and regular expressions.
- GroupingWhole.GroupAndSort: for trees without recursive lenses; for others MarkingPass.GroupAll and
  GroupsAheadPass.MoveGroupingsAhead stand alone.
- ay_ynode_snode_unset_pnode, which only changes which name is printed.
- Integer widths: counts and ids are unbounded; the program limits trees to UINT32_MAX nodes before it starts.
