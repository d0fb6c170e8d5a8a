/** What is counted in trees with cases, and what joining siblings and merging branches do to it. */
module CaseCounts {
  import opened YNodes
  import opened RoseTree
  import opened CaseMerging

  // ----- What is counted -----

  /** Nodes that are no cases. */
  function Plain(t: Tree): nat
    decreases t, 1
  {
    (if IsCase(t) then 0 else 1) + PlainF(t.kids)
  }

  function PlainF(f: seq<Tree>): nat
    decreases f, 0
  {
    if f == [] then 0 else Plain(f[0]) + PlainF(f[1..])
  }

  /** Pairs of such nodes, one below the other. */
  function Under(t: Tree): nat
    decreases t, 1
  {
    (if IsCase(t) then 0 else PlainF(t.kids)) + UnderF(t.kids)
  }

  function UnderF(f: seq<Tree>): nat
    decreases f, 0
  {
    if f == [] then 0 else Under(f[0]) + UnderF(f[1..])
  }

  /** Cases below a case, each the first child of the one above. */
  function Chain(t: Tree): nat
    decreases t, 1
  {
    if IsCase(t) then Head(t.kids) else 0
  }

  function Head(f: seq<Tree>): nat
    decreases f, 0
  {
    if f != [] && IsCase(f[0]) then 1 + Chain(f[0]) else 0
  }

  /** Cases that begin with a case. */
  function Nested(t: Tree): nat
    decreases t, 1
  {
    (if Chain(t) > 0 then 1 else 0) + NestedF(t.kids)
  }

  function NestedF(f: seq<Tree>): nat
    decreases f, 0
  {
    if f == [] then 0 else Nested(f[0]) + NestedF(f[1..])
  }

  function Depth(t: Tree): nat
    decreases t, 1
  {
    Chain(t) + DepthF(t.kids)
  }

  function DepthF(f: seq<Tree>): nat
    decreases f, 0
  {
    if f == [] then 0 else Depth(f[0]) + DepthF(f[1..])
  }

  /** What can be asked of nodes that are no cases. */
  datatype Query = Called(id: nat, name: Option<Lens>) | Labelled(lens: Lens)

  predicate Answers(q: Query, t: Tree) {
    && !IsCase(t)
    && match q
       case Called(id, name) => t.id == id && t.data.labelLens == name
       case Labelled(lens) => t.data.labelLens == Some(lens)
  }

  function Bit(b: bool): nat {
    if b then 1 else 0
  }

  /** How many nodes answer. */
  function Among(t: Tree, q: Query): nat
    decreases t, 1
  {
    Bit(Answers(q, t)) + AmongF(t.kids, q)
  }

  function AmongF(f: seq<Tree>, q: Query): nat
    decreases f, 0
  {
    if f == [] then 0 else Among(f[0], q) + AmongF(f[1..], q)
  }

  // ----- Sums -----

  ghost predicate SameCounts(r: seq<Tree>, f: seq<Tree>) {
    && PlainF(r) == PlainF(f) && UnderF(r) == UnderF(f) && NestedF(r) == NestedF(f) && DepthF(r) == DepthF(f)
    && forall q :: AmongF(r, q) == AmongF(f, q)
  }

  /** All that is counted in `f` and `g` is in `r`. */
  ghost predicate Adds(r: seq<Tree>, f: seq<Tree>, g: seq<Tree>) {
    && PlainF(r) == PlainF(f) + PlainF(g) && UnderF(r) == UnderF(f) + UnderF(g)
    && NestedF(r) == NestedF(f) + NestedF(g) && DepthF(r) == DepthF(f) + DepthF(g)
    && forall q :: AmongF(r, q) == AmongF(f, q) + AmongF(g, q)
  }

  /** Something is lost. */
  ghost predicate Less(r: seq<Tree>, f: seq<Tree>, g: seq<Tree>) {
    PlainF(r) < PlainF(f) + PlainF(g) && forall q :: AmongF(r, q) <= AmongF(f, q) + AmongF(g, q)
  }

  lemma {:induction false} CountConcat(f: seq<Tree>, g: seq<Tree>)
    ensures Adds(f + g, f, g)
    decreases |f|
  {
    if f == [] {
      assert f + g == g;
    } else {
      assert (f + g)[1..] == f[1..] + g;
      CountConcat(f[1..], g);
      hide Plain, Under, Nested, Depth, Among;
    }
  }

  lemma CountNone()
    ensures PlainF([]) == 0 && UnderF([]) == 0 && NestedF([]) == 0 && DepthF([]) == 0 && Head([]) == 0
    ensures SoundF([]) && forall q :: AmongF([], q) == 0
  {
  }

  lemma CountOne(t: Tree)
    ensures PlainF([t]) == Plain(t) && UnderF([t]) == Under(t) && NestedF([t]) == Nested(t) && DepthF([t]) == Depth(t)
    ensures forall q :: AmongF([t], q) == Among(t, q)
  {
    assert [t][1..] == [];
    hide Plain, Under, Nested, Depth, Among;
  }

  /** The counts of a node. */
  lemma CountNode(t: Tree)
    ensures Plain(t) == (if IsCase(t) then 0 else 1) + PlainF(t.kids)
    ensures Under(t) == (if IsCase(t) then 0 else PlainF(t.kids)) + UnderF(t.kids)
    ensures Nested(t) == (if Chain(t) > 0 then 1 else 0) + NestedF(t.kids) && Depth(t) == Chain(t) + DepthF(t.kids)
    ensures Chain(t) == if IsCase(t) then Head(t.kids) else 0
    ensures forall q :: Among(t, q) == Bit(Answers(q, t)) + AmongF(t.kids, q)
  {
  }

  /** A first node and the others. */
  lemma KidsSplit(f: seq<Tree>)
    requires f != []
    ensures PlainF(f) == Plain(f[0]) + PlainF(f[1..]) && UnderF(f) == Under(f[0]) + UnderF(f[1..])
    ensures NestedF(f) == Nested(f[0]) + NestedF(f[1..]) && DepthF(f) == Depth(f[0]) + DepthF(f[1..])
    ensures forall q :: AmongF(f, q) == Among(f[0], q) + AmongF(f[1..], q)
    ensures Head(f) == if IsCase(f[0]) then 1 + Chain(f[0]) else 0
    ensures SoundF(f) <==> Sound(f[0]) && SoundF(f[1..])
  {
    assert f == [f[0]] + f[1..];
    if Sound(f[0]) && SoundF(f[1..]) {
      SoundOne(f[0]);
      SoundConcat([f[0]], f[1..]);
    }
  }

  lemma {:induction false} SomePlain(t: Tree)
    requires Sound(t)
    ensures Plain(t) >= 1
    decreases t
  {
    if IsCase(t) { SomePlain(t.kids[0]); }
  }

  lemma SomePlainF(f: seq<Tree>)
    requires f != [] && SoundF(f)
    ensures PlainF(f) >= 1
  {
    SomePlain(f[0]);
  }

  // ----- Sound forests -----

  lemma SoundNode(t: Tree)
    ensures Sound(t) <==> SoundF(t.kids) && (IsCase(t) ==> t.kids != [] && t.data.labelLens == None)
  {
  }

  lemma SoundConcat(f: seq<Tree>, g: seq<Tree>)
    requires SoundF(f) && SoundF(g)
    ensures SoundF(f + g)
  {
  }

  lemma SoundSplit(f: seq<Tree>, k: nat)
    requires SoundF(f) && k <= |f|
    ensures SoundF(f[..k]) && SoundF(f[k..])
  {
  }

  lemma SoundOne(t: Tree)
    requires Sound(t)
    ensures SoundF([t])
  {
  }

  lemma SoundAt(f: seq<Tree>, i: nat)
    requires SoundF(f) && i < |f|
    ensures Sound(f[i])
  {
  }

  // ----- What does not count -----

  /** Other data, of the same kind: a case or no case, and with the same label. */
  ghost predicate Redone(t: Tree, u: Tree) {
    && u.id == t.id && u.kids == t.kids && IsCase(u) == IsCase(t) && u.data.labelLens == t.data.labelLens
  }

  ghost predicate RedoneF(f: seq<Tree>, g: seq<Tree>) {
    |f| == |g| && forall i :: 0 <= i < |f| ==> Redone(f[i], g[i])
  }

  lemma RedoneSame(t: Tree, u: Tree)
    requires Redone(t, u)
    ensures Plain(u) == Plain(t) && Under(u) == Under(t) && Nested(u) == Nested(t) && Depth(u) == Depth(t)
    ensures Chain(u) == Chain(t) && Sound(u) == Sound(t) && forall q :: Among(u, q) == Among(t, q)
  {
  }

  lemma {:induction false} RedoneSameF(f: seq<Tree>, g: seq<Tree>)
    requires RedoneF(f, g)
    ensures SameCounts(g, f) && Head(g) == Head(f) && SoundF(g) == SoundF(f)
    decreases |f|
  {
    if f != [] {
      assert RedoneF(f[1..], g[1..]);
      RedoneSameF(f[1..], g[1..]);
      RedoneSame(f[0], g[0]);
      KidsSplit(f);
      KidsSplit(g);
      hide Plain, Under, Nested, Depth, Among, Chain, Sound, PlainF, UnderF, NestedF, DepthF, AmongF, SoundF, Head;
    }
  }

  /** All changes of single nodes are such. */
  lemma StylesRedone(f: seq<Tree>, fs: set<Flag>, w: Option<When>, c: Option<nat>)
    ensures RedoneF(f, FlagAt(f, fs)) && RedoneF(f, WhenAt(f, w)) && RedoneF(f, AllChosen(f, c))
            && RedoneF(f, Arrived(f))
  {
  }

  lemma ArrivedSame(g: seq<Tree>)
    ensures SameCounts(Arrived(g), g) && Head(Arrived(g)) == Head(g) && (SoundF(g) ==> SoundF(Arrived(g)))
            && |Arrived(g)| == |g|
  {
    StylesRedone(g, {}, None, None);
    RedoneSameF(g, Arrived(g));
  }

  lemma FlagAtSame(g: seq<Tree>, fs: set<Flag>)
    ensures SameCounts(FlagAt(g, fs), g) && Head(FlagAt(g, fs)) == Head(g) && (SoundF(g) ==> SoundF(FlagAt(g, fs)))
    ensures |FlagAt(g, fs)| == |g|
  {
    StylesRedone(g, fs, None, None);
    RedoneSameF(g, FlagAt(g, fs));
  }

  lemma WhenAtSame(g: seq<Tree>, w: Option<When>)
    ensures SameCounts(WhenAt(g, w), g) && Head(WhenAt(g, w)) == Head(g) && (SoundF(g) ==> SoundF(WhenAt(g, w)))
    ensures |WhenAt(g, w)| == |g| && Drops(WhenAt(g, w)) == Drops(g)
    ensures g != [] ==> IsCase(WhenAt(g, w)[0]) == IsCase(g[0])
  {
    StylesRedone(g, {}, w, None);
    RedoneSameF(g, WhenAt(g, w));
  }

  lemma AllChosenSame(g: seq<Tree>, c: Option<nat>)
    ensures SameCounts(AllChosen(g, c), g) && (SoundF(g) ==> SoundF(AllChosen(g, c)))
  {
    StylesRedone(g, {}, None, c);
    RedoneSameF(g, AllChosen(g, c));
  }

  lemma OneSame(t: Tree, u: Tree)
    requires Redone(t, u)
    ensures SameCounts([u], [t]) && Head([u]) == Head([t]) && (Sound(t) ==> SoundF([u]))
  {
    RedoneSame(t, u);
    RedoneSameF([t], [u]);
  }

  // ----- Joining siblings -----

  /** The first node stays, or has become a case of its own. */
  ghost predicate HeadKept(r: seq<Tree>, f: seq<Tree>)
    requires f != []
  {
    if IsCase(f[0]) then Head(r) == Head(f) else Head(r) <= 1
  }

  lemma HeadConcat(f: seq<Tree>, g: seq<Tree>)
    requires f != []
    ensures Head(f + g) == Head(f)
  {
    assert (f + g)[0] == f[0];
  }

  lemma HeadIs(f: seq<Tree>)
    requires f != []
    ensures Head(f) == if IsCase(f[0]) then 1 + Chain(f[0]) else 0
  {
  }

  /** A new case around siblings. */
  lemma NewCase(t: Tree)
    requires IsCase(t) && t.kids != [] && !IsCase(t.kids[0]) && t.data.labelLens == None && SoundF(t.kids)
    ensures SameCounts([t], t.kids) && Head([t]) == 1 && SoundF([t])
  {
    CountOne(t);
    assert Head(t.kids) == 0 && Chain(t) == 0;
    CountNode(t);
    hide Plain, Under, Nested, Depth, Among, PlainF, UnderF, NestedF, DepthF, AmongF;
  }

  lemma InsertCounts(f: seq<Tree>, c: Option<nat>, n: nat)
    requires f != [] && SoundF(f)
    ensures var r := CaseInsert(f, c, n);
            SameCounts(r, f) && SoundF(r) && HeadKept(r, f) && (if IsCase(f[0]) then r == f else |r| == 1)
  {
    hide Plain, Under, Nested, Depth, Among, PlainF, UnderF, NestedF, DepthF, AmongF, Head, Sound, SoundF, Chain;
    if !IsCase(f[0]) {
      var x := if c.None? || f[0].data.choice.None? then Flagged(f[0], {ChoiceCreated}) else f[0];
      if |f| > 1 {
        var g := [Timed(x, None)] + f[1..];
        assert RedoneF(f, g);
        RedoneSameF(f, g);
        NewCase(CaseInsert(f, c, n)[0]);
      } else {
        assert f == [f[0]];
        SoundAt(f, 0);
        OneSame(f[0], CaseInsert(f, c, n)[0]);
        HeadIs(f);
      }
    }
  }

  /** Only the first node of what case_insert leaves is moved. */
  lemma FirstOnly(g: seq<Tree>, c: Option<nat>, n: nat)
    requires g != [] && SoundF(g)
    ensures var r := CaseInsert(g, c, n)[..1];
            && SoundF(r)
            && (!(IsCase(g[0]) && |g| > 1) ==> SameCounts(r, g))
            && (IsCase(g[0]) && |g| > 1 ==> PlainF(r) < PlainF(g) && forall q :: AmongF(r, q) <= AmongF(g, q))
  {
    hide Plain, Under, Nested, Depth, Among, PlainF, UnderF, NestedF, DepthF, AmongF, Head, Sound, SoundF, Chain,
         CaseInsert;
    InsertCounts(g, c, n);
    var r := CaseInsert(g, c, n);
    SoundSplit(r, 1);
    if IsCase(g[0]) && |g| > 1 {
      assert g == g[..1] + g[1..];
      SoundSplit(g, 1);
      CountConcat(g[..1], g[1..]);
      SomePlainF(g[1..]);
    } else {
      assert r[..1] == r;
    }
  }

  /** Joined siblings are all there, unless the second ones begin with a case that is not in one choice with all. */
  lemma JoinedCounts(f: seq<Tree>, g: seq<Tree>, n: nat)
    requires f != [] && SoundF(f) && SoundF(g)
    ensures var r := Joined(f, g, n);
            SoundF(r) && HeadKept(r, f) && if Drops(g) then Less(r, f, g) else Adds(r, f, g)
  {
    hide Plain, Under, Nested, Depth, Among, PlainF, UnderF, NestedF, DepthF, AmongF, Head, Sound, SoundF, Chain,
         CaseInsert;
    NothingAdded(f);
    if g == [] {
    } else if InChoice(f) && InChoice(g) {
      AllChosenSame(g, f[0].data.choice);
      SelfCounts(f);
      Placed(f, f, g, AllChosen(g, f[0].data.choice));
    } else if InChoice(f) {
      FirstOnly(g, f[0].data.choice, n + 1);
      SelfCounts(f);
      Placed(f, f, g, CaseInsert(g, f[0].data.choice, n + 1)[..1]);
    } else if InChoice(g) {
      InsertCounts(f, g[0].data.choice, n);
      Between(f, CaseInsert(f, g[0].data.choice, n), g);
    } else {
      InsertCounts(f, None, n);
      FirstOnly(g, None, n + 1);
      Placed(f, CaseInsert(f, None, n), g, CaseInsert(g, None, n + 1)[..1]);
    }
  }

  lemma SelfCounts(f: seq<Tree>)
    ensures SameCounts(f, f)
  {
  }

  lemma NothingAdded(f: seq<Tree>)
    ensures Adds(f, f, []) && (f != [] ==> HeadKept(f, f))
  {
    hide Plain, Under, Nested, Depth, Among;
  }

  /** Both parts one behind the other. */
  lemma Placed(f: seq<Tree>, a: seq<Tree>, g: seq<Tree>, b: seq<Tree>)
    requires f != [] && a != [] && SoundF(a) && SoundF(b) && SameCounts(a, f) && HeadKept(a, f)
    requires SameCounts(b, g) || (PlainF(b) < PlainF(g) && forall q :: AmongF(b, q) <= AmongF(g, q))
    ensures SoundF(a + b) && HeadKept(a + b, f)
    ensures if SameCounts(b, g) then Adds(a + b, f, g) else Less(a + b, f, g)
  {
    hide PlainF, UnderF, NestedF, DepthF, AmongF, Head, Sound, SoundF;
    SoundConcat(a, b);
    HeadConcat(a, b);
    CountConcat(a, b);
    forall q ensures AmongF(a + b, q) <= AmongF(f, q) + AmongF(g, q) {
      assert AmongF(a, q) == AmongF(f, q);
    }
  }

  lemma Between(f: seq<Tree>, a: seq<Tree>, g: seq<Tree>)
    requires f != [] && a != [] && SoundF(a) && SoundF(g) && SameCounts(a, f) && HeadKept(a, f)
    ensures var r := a[..1] + g + a[1..]; SoundF(r) && HeadKept(r, f) && Adds(r, f, g)
  {
    hide PlainF, UnderF, NestedF, DepthF, AmongF, Head, Sound, SoundF;
    SoundSplit(a, 1);
    SoundConcat(a[..1], g);
    SoundConcat(a[..1] + g, a[1..]);
    CountConcat(a[..1] + g, a[1..]);
    CountConcat(a[..1], g);
    CountConcat(a[..1], a[1..]);
    assert a == a[..1] + a[1..] && a[..1] + g + a[1..] == a[..1] + (g + a[1..]);
    HeadConcat(a[..1], g + a[1..]);
    HeadConcat(a[..1], a[1..]);
  }
}
