/** The data of one ynode: `struct ay_ynode` without its position in the tree. */
module YNodes {

  datatype Option<+T> = None | Some(value: T)

  /** `enum yang_type`. */
  datatype YType =
    | Unknown | Leaf | Leafref | List | Container | Case
    | Key | Value | Uses | Grouping | Rec | Root

  /** The ynode flags; the source keeps them as bits of `flags`. */
  datatype Flag =
    | MandTrue | MandFalse | ChoiceMandFalse | ChildrenMandFalse
    | ValueMandFalse | ValueInChoice | GroupingChildren | WhenOrNot
    | GroupingReduction | HintMandTrue | HintMandFalse | ChoiceCreated
    | WhenTarget | GroupingChoice

  /** AY_YNODE_FLAGS_CMP_MASK: the flags two equal nodes must share. */
  const CMP_MASK: set<Flag> :=
    {MandTrue, MandFalse, ChoiceMandFalse, ChildrenMandFalse,
     ValueMandFalse, ValueInChoice, GroupingChildren, WhenOrNot}

  /** What a label or value lens is compared by: its pattern or string, or only its tag. */
  datatype Lens = Pattern(text: string) | Tagged(tag: nat)

  /** A when statement: the id of the node it looks at, and the value that it asks for. */
  datatype When = When(target: nat, value: Lens)

  /** `choice` and `snode` are only ever compared as pointers, so any number can stand for them. */
  datatype Data = Data(
    typ: YType,
    snode: Option<nat>,
    labelLens: Option<Lens>,
    valueLens: Option<Lens>,
    choice: Option<nat>,
    ref: nat,
    flags: set<Flag>,
    minElems: nat,
    when: Option<When>)

  /** A node cleared by memset. */
  const BLANK: Data := Data(Unknown, None, None, None, None, 0, {}, 0, None)
}
