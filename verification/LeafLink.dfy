/**
  The doubly linked list of leaves (masstree/btree_leaflink.hh, the concurrent version).

  Every atomic load, store and compare-and-swap of `link_split` and `unlink` is one step;
  any interleaving of the steps of operations on different leaves is a run.  An operation
  belongs to the leaf whose lock its thread holds, so a leaf has at most one operation.
*/
module LeafLink {
  import opened Common

  type Leaf = nat

  /** The `next_` word of a leaf: a pointer whose low bit is the mark. */
  datatype Link = Null | To(leaf: Leaf, marked: bool)

  /** Where the operation that holds a leaf's lock stands, with that thread's local variables. */
  datatype Phase =
    | Idle
    | Unpublished(owner: Leaf)                            // the `nr` of a split of `owner`
    | SplitStart(nr: Leaf)                                // before `nr->prev_ = n`
    | SplitRead(nr: Leaf)                                 // before lock_next's load
    | SplitCas(nr: Leaf, seen: Leaf)                      // before lock_next's compare-and-swap
    | SplitSetNext(nr: Leaf, succ: Option<Leaf>)          // before `nr->next_ = next`
    | SplitSetPrev(nr: Leaf, succ: Option<Leaf>)          // before `next->prev_ = nr`
    | SplitPublish(nr: Leaf, succ: Option<Leaf>)          // before `n->next_ = nr`
    | UnlinkRead
    | UnlinkCas(seen: Leaf)
    | UnlinkReadPrev(succ: Option<Leaf>)                  // before `prev = n->prev_`
    | UnlinkCasPrev(succ: Option<Leaf>, pred: Leaf)       // before the swap on `prev->next_`
    | UnlinkSetPrev(succ: Option<Leaf>, pred: Leaf)       // before `next->prev_ = prev`
    | UnlinkPublish(succ: Option<Leaf>, pred: Leaf)       // before `prev->next_ = next`
    | Dead

  datatype Cell = Cell(bound: nat, next: Link, prev: Option<Leaf>, phase: Phase)

  type State = map<Leaf, Cell>

  const FIRST: Leaf := 0

  function Init(): State {
    map[FIRST := Cell(0, Null, None, Idle)]
  }

  // ----- steps -----

  datatype Step =
    | BeginSplit(n: Leaf, nr: Leaf, bound: nat)
    | BeginUnlink(n: Leaf)
    | Advance(n: Leaf)

  function Strip(l: Link): Option<Leaf> {
    if l.Null? then None else Some(l.leaf)
  }

  function Unmarked(o: Option<Leaf>): Link {
    if o.None? then Null else To(o.value, false)
  }

  /** What the callers guarantee when an operation begins: the leaf is locked, a new right
      sibling's keys lie between the leaf's bound and its successor's, and `remove_leaf`
      returns before `unlink` on a leaf without a predecessor. */
  predicate Enabled(s: State, step: Step) {
    match step
    case BeginSplit(n, nr, bound) =>
      && n in s && s[n].phase.Idle? && nr !in s
      && s[n].bound < bound
      && (s[n].next.To? ==> s[n].next.leaf in s && bound < s[s[n].next.leaf].bound)
    case BeginUnlink(n) => n in s && s[n].phase.Idle? && s[n].prev.Some?
    case Advance(n) =>
      && n in s && !s[n].phase.Idle? && !s[n].phase.Unpublished? && !s[n].phase.Dead?
  }

  function SetPhase(s: State, n: Leaf, p: Phase): State
    requires n in s
  {
    s[n := s[n].(phase := p)]
  }

  function SetNext(s: State, n: Leaf, l: Link): State {
    if n in s then s[n := s[n].(next := l)] else s
  }

  function SetPrev(s: State, n: Option<Leaf>, p: Leaf): State {
    if n.Some? && n.value in s then s[n.value := s[n.value].(prev := Some(p))] else s
  }

  function NextState(s: State, step: Step): State
    requires Enabled(s, step)
  {
    match step
    case BeginSplit(n, nr, bound) =>
      SetPhase(s, n, SplitStart(nr))[nr := Cell(bound, Null, None, Unpublished(n))]
    case BeginUnlink(n) => SetPhase(s, n, UnlinkRead)
    case Advance(n) => AdvanceState(s, n)
  }

  /** One atomic step of the operation that holds the lock of `n`. */
  function AdvanceState(s: State, n: Leaf): State
    requires Enabled(s, Advance(n))
  {
    var c := s[n];
    match c.phase
    case SplitStart(nr) =>
      SetPrev(SetPhase(s, n, SplitRead(nr)), Some(nr), n)
    case SplitRead(nr) =>
      if c.next.Null? then SetPhase(s, n, SplitSetNext(nr, None))
      else if c.next.marked then s
      else SetPhase(s, n, SplitCas(nr, c.next.leaf))
    case SplitCas(nr, seen) =>
      if c.next == To(seen, false)
      then SetNext(SetPhase(s, n, SplitSetNext(nr, Some(seen))), n, To(seen, true))
      else SetPhase(s, n, SplitRead(nr))
    case SplitSetNext(nr, succ) =>
      SetNext(SetPhase(s, n, SplitSetPrev(nr, succ)), nr, Unmarked(succ))
    case SplitSetPrev(nr, succ) =>
      SetPrev(SetPhase(s, n, SplitPublish(nr, succ)), succ, nr)
    case SplitPublish(nr, succ) =>
      var s1 := SetNext(SetPhase(s, n, Idle), n, To(nr, false));
      if nr in s1 then SetPhase(s1, nr, Idle) else s1
    case UnlinkRead =>
      if c.next.Null? then SetPhase(s, n, UnlinkReadPrev(None))
      else if c.next.marked then s
      else SetPhase(s, n, UnlinkCas(c.next.leaf))
    case UnlinkCas(seen) =>
      if c.next == To(seen, false)
      then SetNext(SetPhase(s, n, UnlinkReadPrev(Some(seen))), n, To(seen, true))
      else SetPhase(s, n, UnlinkRead)
    case UnlinkReadPrev(succ) =>
      if c.prev.Some? then SetPhase(s, n, UnlinkCasPrev(succ, c.prev.value)) else s
    case UnlinkCasPrev(succ, pred) =>
      if pred in s && s[pred].next == To(n, false)
      then SetNext(SetPhase(s, n, UnlinkSetPrev(succ, pred)), pred, To(n, true))
      else SetPhase(s, n, UnlinkReadPrev(succ))
    case UnlinkSetPrev(succ, pred) =>
      SetPrev(SetPhase(s, n, UnlinkPublish(succ, pred)), succ, pred)
    case UnlinkPublish(succ, pred) =>
      SetNext(SetPhase(s, n, Dead), pred, Unmarked(succ))
  }

  /** The state after the schedule `steps`, from the one-leaf list `reinitialize` makes; a
      step that is not enabled is skipped. */
  function After(steps: seq<Step>): State {
    if steps == [] then Init()
    else
      var s := After(steps[..|steps| - 1]);
      var step := steps[|steps| - 1];
      if Enabled(s, step) then NextState(s, step) else s
  }

  // ----- what every reachable state satisfies -----

  /** A leaf is linked from its publication until its own `unlink` has finished. */
  predicate Linked(s: State, n: Leaf) {
    n in s && !s[n].phase.Unpublished? && !s[n].phase.Dead?
  }

  /** The leaf reached from `a` by following `k` mark-stripped next pointers. */
  function Follow(s: State, a: Leaf, k: nat): Option<Leaf> {
    if k == 0 then Some(a)
    else
      match Follow(s, a, k - 1)
      case None => None
      case Some(b) => if b in s then Strip(s[b].next) else None
  }

  ghost predicate OnChain(s: State, a: Leaf, b: Leaf) {
    exists k: nat :: Follow(s, a, k) == Some(b)
  }

  /** Every stored next pointer, marked or not, of every leaf ever allocated, goes strictly
      up in bound order; so no chain of next pointers has a cycle. */
  ghost predicate BoundOrdered(s: State) {
    forall n: Leaf {:trigger s[n]} :: n in s && s[n].next.To? ==>
      s[n].next.leaf in s && s[n].bound < s[s[n].next.leaf].bound
  }

  ghost predicate AllReachable(s: State) {
    forall n: Leaf :: Linked(s, n) ==> OnChain(s, FIRST, n)
  }

  /** An unmarked edge out of a linked leaf is mirrored by its target's prev pointer. */
  ghost predicate UnmarkedMirrored(s: State) {
    forall n: Leaf {:trigger s[n]} :: Linked(s, n) && s[n].next.To? && !s[n].next.marked ==>
      Linked(s, s[n].next.leaf) && s[s[n].next.leaf].prev == Some(n)
  }

  ghost predicate Safe(s: State) {
    BoundOrdered(s) && AllReachable(s) && UnmarkedMirrored(s)
  }

  // ----- the inductive invariant -----

  /** The op of `n` holds the mark on `n`'s own next pointer. */
  predicate OwnMark(p: Phase) {
    || p.SplitSetNext? || p.SplitSetPrev? || p.SplitPublish?
    || p.UnlinkReadPrev? || p.UnlinkCasPrev? || p.UnlinkSetPrev? || p.UnlinkPublish?
  }

  predicate Splitting(p: Phase) {
    || p.SplitStart? || p.SplitRead? || p.SplitCas?
    || p.SplitSetNext? || p.SplitSetPrev? || p.SplitPublish?
  }

  predicate Unlinking(p: Phase) {
    || p.UnlinkRead? || p.UnlinkCas? || p.UnlinkReadPrev? || p.UnlinkCasPrev?
    || p.UnlinkSetPrev? || p.UnlinkPublish?
  }

  /** An operation is in progress. */
  predicate Pending(p: Phase) {
    Splitting(p) || Unlinking(p)
  }

  /** `nr` already carries `n`'s outgoing edge. */
  predicate Handed(p: Phase) {
    p.SplitSetPrev? || p.SplitPublish?
  }

  /** The swap on the predecessor has succeeded. */
  predicate Captured(p: Phase) {
    p.UnlinkSetPrev? || p.UnlinkPublish?
  }

  /** The next pointer that stands for `n`'s place in the list. */
  function EffLink(s: State, n: Leaf): Link
    requires n in s
  {
    if Handed(s[n].phase) && s[n].phase.nr in s then s[s[n].phase.nr].next else s[n].next
  }

  /** What `m.prev_` must be when `p` is `m`'s predecessor in the list. */
  function ExpectedPrev(p: Leaf, c: Cell): Leaf {
    match c.phase
    case SplitPublish(nr, _) => nr
    case UnlinkPublish(_, pred) => pred
    case _ => p
  }

  /** History: `pv` maps each linked leaf but the first to its list predecessor; `dz` maps a
      dead leaf on the detour of a split about to publish to the splitting leaf. */
  datatype Aux = Aux(pv: map<Leaf, Leaf>, dz: map<Leaf, Leaf>)

  /** `p` is not a new leaf whose successor has not heard of it yet. */
  predicate Settled(s: State, p: Leaf) {
    p in s && (s[p].phase.Unpublished? ==>
      s[p].phase.owner in s && s[s[p].phase.owner].phase.SplitPublish?)
  }

  predicate EdgeUp(s: State, n: Leaf)
    requires n in s
  {
    s[n].next.To? ==> s[n].next.leaf in s && s[n].bound < s[s[n].next.leaf].bound
  }

  /** A new leaf lies above its owner and below the edge it takes over. */
  predicate SplitOk(s: State, n: Leaf)
    requires n in s
  {
    Splitting(s[n].phase) ==>
      var nr := s[n].phase.nr;
      && nr in s && s[nr].phase == Unpublished(n) && s[n].bound < s[nr].bound
      && (EffLink(s, n).To? ==>
            EffLink(s, n).leaf in s && s[nr].bound < s[EffLink(s, n).leaf].bound)
      && (s[n].phase.SplitSetPrev? ==> s[nr].next == Unmarked(s[n].phase.succ))
      && (!Handed(s[n].phase) ==> s[nr].next.Null?)
      && (!s[n].phase.SplitStart? ==> s[nr].prev == Some(n))
  }

  predicate NewOk(s: State, r: Leaf)
    requires r in s
  {
    s[r].phase.Unpublished? ==>
      var n := s[r].phase.owner;
      n in s && Splitting(s[n].phase) && s[n].phase.nr == r
  }

  /** The list order seen through `pv`: where a leaf's predecessor is. */
  predicate SpineIn(s: State, x: Aux, n: Leaf)
    requires n in s
  {
    && (n == FIRST ==> n !in x.pv && s[n].prev == None && Linked(s, n) && !Unlinking(s[n].phase))
    && (n in x.pv ==>
          && Linked(s, n) && Linked(s, x.pv[n]) && Strip(EffLink(s, x.pv[n])) == Some(n)
          && s[n].prev == Some(ExpectedPrev(x.pv[n], s[x.pv[n]])))
    && (Linked(s, n) && n != FIRST ==> n in x.pv)
  }

  /** And its successor. */
  predicate SpineOut(s: State, x: Aux, n: Leaf)
    requires n in s
  {
    Linked(s, n) && EffLink(s, n).To? ==>
      EffLink(s, n).leaf in x.pv && x.pv[EffLink(s, n).leaf] == n
  }

  predicate SpineOk(s: State, x: Aux, n: Leaf)
    requires n in s
  {
    SpineIn(s, x, n) && SpineOut(s, x, n)
  }

  /** The leaf that `n`'s next pointer is marked for is being unlinked through `n`. */
  predicate CapturedBy(s: State, m: Leaf, n: Leaf) {
    m in s && Captured(s[m].phase) && s[m].phase.pred == n
  }

  predicate MarksOk(s: State, n: Leaf)
    requires n in s
  {
    var c := s[n];
    && (OwnMark(c.phase) ==>
          c.next == if c.phase.succ.None? then Null else To(c.phase.succ.value, true))
    && (!c.phase.Dead? && !OwnMark(c.phase) && c.next.To? && c.next.marked ==>
          CapturedBy(s, c.next.leaf, n))
    && (c.phase.Dead? && c.next.To? ==> c.next.marked)
  }

  /** The local `prev` of an unlink between its load and its swap, and after the swap. */
  predicate PredOk(s: State, x: Aux, n: Leaf)
    requires n in s
  {
    && (s[n].phase.UnlinkCasPrev? ==> Settled(s, s[n].phase.pred))
    && (Captured(s[n].phase) ==>
          var pred := s[n].phase.pred;
          && pred in s && s[pred].next == To(n, true) && !OwnMark(s[pred].phase) && !s[pred].phase.Dead?
          && n in x.pv && x.pv[n] in s
          && pred == (if s[x.pv[n]].phase.SplitPublish? then s[x.pv[n]].phase.nr else x.pv[n]))
  }

  /** From a split about to publish, the old successor leads through dead leaves to the
      current one: the start of that detour. */
  predicate DetourStarts(s: State, x: Aux, n: Leaf)
    requires n in s
  {
    s[n].phase.SplitPublish? ==>
      var succ := s[n].phase.succ;
      succ == Strip(EffLink(s, n)) || (succ.Some? && succ.value in x.dz && x.dz[succ.value] == n)
  }

  /** And each dead leaf on it. */
  predicate DetourGoesOn(s: State, x: Aux, n: Leaf)
    requires n in s
  {
    n in x.dz ==>
      var p := x.dz[n];
      && s[n].phase.Dead? && p in s && s[p].phase.SplitPublish?
      && (EffLink(s, p).To? ==> EffLink(s, p).leaf in s && s[n].bound < s[EffLink(s, p).leaf].bound)
      && (Strip(s[n].next) == Strip(EffLink(s, p))
          || (s[n].next.To? && s[n].next.leaf in x.dz && x.dz[s[n].next.leaf] == p))
  }

  predicate DetourOk(s: State, x: Aux, n: Leaf)
    requires n in s
  {
    DetourStarts(s, x, n) && DetourGoesOn(s, x, n)
  }

  predicate ShapeOk(s: State, n: Leaf)
    requires n in s
  {
    EdgeUp(s, n) && SplitOk(s, n) && NewOk(s, n)
  }

  ghost predicate Inv(s: State, x: Aux) {
    && FIRST in s && x.pv.Keys <= s.Keys && x.dz.Keys <= s.Keys
    && (forall n {:trigger ShapeOk(s, n)} :: n in s ==> ShapeOk(s, n))
    && (forall n {:trigger SpineOk(s, x, n)} :: n in s ==> SpineOk(s, x, n))
    && (forall n {:trigger MarksOk(s, n)} :: n in s ==> MarksOk(s, n))
    && (forall n {:trigger PredOk(s, x, n)} :: n in s ==> PredOk(s, x, n))
    && (forall n {:trigger DetourOk(s, x, n)} :: n in s ==> DetourOk(s, x, n))
  }

  predicate Quiet(p: Phase) {
    !OwnMark(p) && !p.Unpublished? && !p.Dead?
  }

  /** The same new leaf, if any, is being linked in. */
  predicate SameSplit(p: Phase, q: Phase) {
    Splitting(p) == Splitting(q) && (Splitting(p) ==> p.nr == q.nr && (p.SplitStart? ==> q.SplitStart?))
  }

  function Locked(succ: Option<Leaf>): Link {
    if succ.None? then Null else To(succ.value, true)
  }

  /** The leaf whose unmarked next pointer an unlink is about to swap is the predecessor, or
      the new leaf a split of the predecessor is about to publish. */
  lemma Predecessor(s: State, x: Aux, n: Leaf)
    requires Inv(s, x) && n in s && s[n].phase.UnlinkCasPrev?
    requires s[n].phase.pred in s && s[s[n].phase.pred].next == To(n, false)
    ensures var pred := s[n].phase.pred;
      && !OwnMark(s[pred].phase) && !s[pred].phase.Dead?
      && n in x.pv && x.pv[n] in s
      && pred == (if s[x.pv[n]].phase.SplitPublish? then s[x.pv[n]].phase.nr else x.pv[n])
  {
    var pred := s[n].phase.pred;
    assert PredOk(s, x, n) && MarksOk(s, pred) && SpineOk(s, x, pred) && ShapeOk(s, pred);
    if s[pred].phase.Unpublished? {
      var o := s[pred].phase.owner;
      assert SpineOk(s, x, o) && ShapeOk(s, o);
    }
  }


  /** History after a split publishes its new leaf. */
  function PublishAux(s: State, x: Aux, n: Leaf): Aux
    requires n in s && s[n].phase.SplitPublish? && s[n].phase.nr in s
  {
    var nr := s[n].phase.nr;
    Aux(if s[nr].next.To? then x.pv[nr := n][s[nr].next.leaf := nr] else x.pv[nr := n],
        map d | d in x.dz && x.dz[d] != n :: x.dz[d])
  }

  /** History after an unlink finishes. */
  function UnlinkAux(s: State, x: Aux, n: Leaf): Aux
    requires n in s && s[n].phase.UnlinkPublish? && n in x.pv && x.pv[n] in s
  {
    var p := x.pv[n];
    var pv := map m | m in x.pv && m != n :: x.pv[m];
    Aux(if s[n].phase.succ.Some? then pv[s[n].phase.succ.value := p] else pv,
        if s[p].phase.SplitPublish? then x.dz[n := p] else x.dz)
  }

  /** A phase change before any write: the first steps and failed retries of both operations. */
  ghost predicate QuietStep(s: State, x: Aux, n: Leaf, ph: Phase, t: State) {
    && Inv(s, x) && n in s
    && Quiet(s[n].phase) && Quiet(ph) && SameSplit(s[n].phase, ph)
    && (Unlinking(ph) ==> n != FIRST)
    && t == SetPhase(s, n, ph)
  }

  lemma QuietLocal(s: State, x: Aux, n: Leaf, ph: Phase, t: State, m: Leaf)
    requires QuietStep(s, x, n, ph, t) && m in s
    ensures ShapeOk(t, m) && MarksOk(t, m) && DetourOk(t, x, m)
  {
    assert ShapeOk(s, m);
    assert MarksOk(s, m);
    assert DetourOk(s, x, m);
  }

  lemma QuietOrder(s: State, x: Aux, n: Leaf, ph: Phase, t: State, m: Leaf)
    requires QuietStep(s, x, n, ph, t) && m in s
    ensures SpineOk(t, x, m) && PredOk(t, x, m)
  {
    assert SpineOk(s, x, m);
    assert PredOk(s, x, m);
  }

  lemma QuietInv(s: State, x: Aux, n: Leaf, ph: Phase, t: State)
    requires QuietStep(s, x, n, ph, t)
    ensures Inv(t, x)
  {
    forall m | m in t
      ensures ShapeOk(t, m) && MarksOk(t, m) && DetourOk(t, x, m) && SpineOk(t, x, m) && PredOk(t, x, m)
    {
      QuietLocal(s, x, n, ph, t, m);
      QuietOrder(s, x, n, ph, t, m);
    }
  }

  /** The successful swap of `lock_next`, or its load of a null pointer. */
  ghost predicate LockStep(s: State, x: Aux, n: Leaf, ph: Phase, t: State) {
    && Inv(s, x) && n in s
    && (Quiet(s[n].phase) && (ph.SplitSetNext? || ph.UnlinkReadPrev?) && SameSplit(s[n].phase, ph))
    && (Unlinking(ph) ==> n != FIRST)
    && !s[n].phase.SplitStart? && s[n].next == Unmarked(ph.succ)
    && t == s[n := s[n].(phase := ph, next := Locked(ph.succ))]
  }

  lemma LockLocal(s: State, x: Aux, n: Leaf, ph: Phase, t: State, m: Leaf)
    requires LockStep(s, x, n, ph, t) && m in s
    ensures ShapeOk(t, m) && MarksOk(t, m) && DetourOk(t, x, m)
  {
    assert ShapeOk(s, m);
    assert MarksOk(s, m);
    assert DetourOk(s, x, m) && ShapeOk(s, m) && ShapeOk(s, n);
    if m in x.dz { assert ShapeOk(s, x.dz[m]); }
  }

  lemma LockOrder(s: State, x: Aux, n: Leaf, ph: Phase, t: State, m: Leaf)
    requires LockStep(s, x, n, ph, t) && m in s
    ensures SpineOk(t, x, m) && PredOk(t, x, m)
  {
    assert SpineOk(s, x, m) && ShapeOk(s, m);
    assert PredOk(s, x, m);
  }

  lemma LockInv(s: State, x: Aux, n: Leaf, ph: Phase, t: State)
    requires LockStep(s, x, n, ph, t)
    ensures Inv(t, x)
  {
    forall m | m in t
      ensures ShapeOk(t, m) && MarksOk(t, m) && DetourOk(t, x, m) && SpineOk(t, x, m) && PredOk(t, x, m)
    {
      LockLocal(s, x, n, ph, t, m);
      LockOrder(s, x, n, ph, t, m);
    }
  }

  /** An unlink loads its predecessor, or its swap failed. */
  ghost predicate RetryStep(s: State, x: Aux, n: Leaf, ph: Phase, t: State) {
    && Inv(s, x) && n in s
    && (s[n].phase.UnlinkReadPrev? || s[n].phase.UnlinkCasPrev?)
    && (ph.UnlinkReadPrev? || ph.UnlinkCasPrev?) && ph.succ == s[n].phase.succ
    && (ph.UnlinkCasPrev? ==> Settled(s, ph.pred))
    && t == SetPhase(s, n, ph)
  }

  lemma RetryLocal(s: State, x: Aux, n: Leaf, ph: Phase, t: State, m: Leaf)
    requires RetryStep(s, x, n, ph, t) && m in s
    ensures ShapeOk(t, m) && MarksOk(t, m) && DetourOk(t, x, m)
  {
    assert ShapeOk(s, m);
    assert MarksOk(s, m);
    assert DetourOk(s, x, m);
  }

  lemma RetryOrder(s: State, x: Aux, n: Leaf, ph: Phase, t: State, m: Leaf)
    requires RetryStep(s, x, n, ph, t) && m in s
    ensures SpineOk(t, x, m) && PredOk(t, x, m)
  {
    assert SpineOk(s, x, m);
    assert PredOk(s, x, m);
  }

  lemma RetryInv(s: State, x: Aux, n: Leaf, ph: Phase, t: State)
    requires RetryStep(s, x, n, ph, t)
    ensures Inv(t, x)
  {
    forall m | m in t
      ensures ShapeOk(t, m) && MarksOk(t, m) && DetourOk(t, x, m) && SpineOk(t, x, m) && PredOk(t, x, m)
    {
      RetryLocal(s, x, n, ph, t, m);
      RetryOrder(s, x, n, ph, t, m);
    }
  }

  lemma SplitStartLocal(s: State, x: Aux, n: Leaf, t: State, m: Leaf)
    requires Inv(s, x) && n in s && m in s
    requires s[n].phase.SplitStart?
    requires t == AdvanceState(s, n)
    ensures ShapeOk(t, m) && MarksOk(t, m) && DetourOk(t, x, m)
  {
    assert ShapeOk(s, m) && ShapeOk(s, n);
    assert MarksOk(s, m);
    assert DetourOk(s, x, m);
  }

  lemma SplitStartOrder(s: State, x: Aux, n: Leaf, t: State, m: Leaf)
    requires Inv(s, x) && n in s && m in s
    requires s[n].phase.SplitStart?
    requires t == AdvanceState(s, n)
    ensures SpineOk(t, x, m) && PredOk(t, x, m)
  {
    assert SpineOk(s, x, m) && ShapeOk(s, n);
    assert PredOk(s, x, m);
  }

  lemma SplitStartInv(s: State, x: Aux, n: Leaf, t: State)
    requires Inv(s, x) && n in s
    requires s[n].phase.SplitStart?
    requires t == AdvanceState(s, n)
    ensures Inv(t, x)
  {
    forall m | m in t
      ensures ShapeOk(t, m) && MarksOk(t, m) && DetourOk(t, x, m) && SpineOk(t, x, m) && PredOk(t, x, m)
    {
      SplitStartLocal(s, x, n, t, m);
      SplitStartOrder(s, x, n, t, m);
    }
  }

  lemma SplitSetNextLocal(s: State, x: Aux, n: Leaf, t: State, m: Leaf)
    requires Inv(s, x) && n in s && m in s
    requires s[n].phase.SplitSetNext?
    requires t == AdvanceState(s, n)
    ensures ShapeOk(t, m) && MarksOk(t, m) && DetourOk(t, x, m)
  {
    assert ShapeOk(s, m) && ShapeOk(s, n) && MarksOk(s, n);
    assert MarksOk(s, m) && ShapeOk(s, n);
    assert DetourOk(s, x, m) && ShapeOk(s, m) && ShapeOk(s, n);
    if m in x.dz { assert ShapeOk(s, x.dz[m]); }
  }

  lemma SplitSetNextOrder(s: State, x: Aux, n: Leaf, t: State, m: Leaf)
    requires Inv(s, x) && n in s && m in s
    requires s[n].phase.SplitSetNext?
    requires t == AdvanceState(s, n)
    ensures SpineOk(t, x, m) && PredOk(t, x, m)
  {
    assert SpineOk(s, x, m) && ShapeOk(s, m) && ShapeOk(s, n) && MarksOk(s, n);
    assert PredOk(s, x, m) && ShapeOk(s, n) && ShapeOk(s, m);
  }

  lemma SplitSetNextInv(s: State, x: Aux, n: Leaf, t: State)
    requires Inv(s, x) && n in s
    requires s[n].phase.SplitSetNext?
    requires t == AdvanceState(s, n)
    ensures Inv(t, x)
  {
    forall m | m in t
      ensures ShapeOk(t, m) && MarksOk(t, m) && DetourOk(t, x, m) && SpineOk(t, x, m) && PredOk(t, x, m)
    {
      SplitSetNextLocal(s, x, n, t, m);
      SplitSetNextOrder(s, x, n, t, m);
    }
  }

  /** The store of the old successor's `prev_`. */
  ghost predicate SplitSetPrevStep(s: State, x: Aux, n: Leaf, t: State) {
    && Inv(s, x) && n in s
    && s[n].phase.SplitSetPrev?
    && t == SetPrev(SetPhase(s, n, SplitPublish(s[n].phase.nr, s[n].phase.succ)), s[n].phase.succ, s[n].phase.nr)
  }

  lemma SplitSetPrevShape(s: State, x: Aux, n: Leaf, t: State, m: Leaf)
    requires SplitSetPrevStep(s, x, n, t) && m in s
    ensures ShapeOk(t, m)
  {
    assert ShapeOk(s, m) && ShapeOk(s, n) && SpineOk(s, x, n);
    if Splitting(s[m].phase) { assert SpineOk(s, x, s[m].phase.nr); }
  }

  lemma SplitSetPrevMarks(s: State, x: Aux, n: Leaf, t: State, m: Leaf)
    requires SplitSetPrevStep(s, x, n, t) && m in s
    ensures MarksOk(t, m)
  {
    assert ShapeOk(s, m) && ShapeOk(s, n) && SpineOk(s, x, n) && MarksOk(s, m);
  }

  lemma SplitSetPrevDetours(s: State, x: Aux, n: Leaf, t: State, m: Leaf)
    requires SplitSetPrevStep(s, x, n, t) && m in s
    ensures DetourOk(t, x, m)
  {
    assert DetourOk(s, x, m) && ShapeOk(s, n) && MarksOk(s, n);
  }

  lemma SplitSetPrevOrder(s: State, x: Aux, n: Leaf, t: State, m: Leaf)
    requires SplitSetPrevStep(s, x, n, t) && m in s
    ensures SpineOk(t, x, m)
  {
    assert SpineOk(s, x, m) && SpineOk(s, x, n) && ShapeOk(s, n) && MarksOk(s, n);
  }

  lemma SplitSetPrevPreds(s: State, x: Aux, n: Leaf, t: State, m: Leaf)
    requires SplitSetPrevStep(s, x, n, t) && m in s
    ensures PredOk(t, x, m)
  {
    assert PredOk(s, x, m) && SpineOk(s, x, m) && ShapeOk(s, n) && SpineOk(s, x, n) && MarksOk(s, n);
  }

  lemma SplitSetPrevInv(s: State, x: Aux, n: Leaf, t: State)
    requires SplitSetPrevStep(s, x, n, t)
    ensures Inv(t, x)
  {
    forall m | m in t
      ensures ShapeOk(t, m) && MarksOk(t, m) && DetourOk(t, x, m) && SpineOk(t, x, m) && PredOk(t, x, m)
    {
      SplitSetPrevShape(s, x, n, t, m);
      SplitSetPrevMarks(s, x, n, t, m);
      SplitSetPrevDetours(s, x, n, t, m);
      SplitSetPrevOrder(s, x, n, t, m);
      SplitSetPrevPreds(s, x, n, t, m);
    }
  }

  /** The successful swap of the predecessor's next pointer. */
  ghost predicate CaptureStep(s: State, x: Aux, n: Leaf, t: State) {
    && Inv(s, x) && n in s
    && s[n].phase.UnlinkCasPrev?
    && s[n].phase.pred in s && s[s[n].phase.pred].next == To(n, false)
    && t == AdvanceState(s, n)
  }

  lemma CaptureLocal(s: State, x: Aux, n: Leaf, t: State, m: Leaf)
    requires CaptureStep(s, x, n, t) && m in s
    ensures ShapeOk(t, m) && MarksOk(t, m)
  {
    assert PredOk(s, x, n) && ShapeOk(s, s[n].phase.pred);
    Predecessor(s, x, n);
    assert ShapeOk(s, m);
    assert MarksOk(s, m);
  }

  lemma CaptureDetours(s: State, x: Aux, n: Leaf, t: State, m: Leaf)
    requires CaptureStep(s, x, n, t) && m in s
    ensures DetourOk(t, x, m)
  {
    assert PredOk(s, x, n) && ShapeOk(s, s[n].phase.pred);
    Predecessor(s, x, n);
    assert DetourOk(s, x, m);
    if m in x.dz { assert ShapeOk(s, x.dz[m]); }
  }

  lemma CaptureOrder(s: State, x: Aux, n: Leaf, t: State, m: Leaf)
    requires CaptureStep(s, x, n, t) && m in s
    ensures SpineOk(t, x, m)
  {
    assert PredOk(s, x, n) && ShapeOk(s, s[n].phase.pred);
    Predecessor(s, x, n);
    assert SpineOk(s, x, m) && ShapeOk(s, m);
  }

  lemma CapturePreds(s: State, x: Aux, n: Leaf, t: State, m: Leaf)
    requires CaptureStep(s, x, n, t) && m in s
    ensures PredOk(t, x, m)
  {
    assert PredOk(s, x, n) && ShapeOk(s, s[n].phase.pred);
    Predecessor(s, x, n);
    assert PredOk(s, x, m);
  }

  lemma CaptureInv(s: State, x: Aux, n: Leaf, t: State)
    requires CaptureStep(s, x, n, t)
    ensures Inv(t, x)
  {
    forall m | m in t
      ensures ShapeOk(t, m) && MarksOk(t, m) && DetourOk(t, x, m) && SpineOk(t, x, m) && PredOk(t, x, m)
    {
      CaptureLocal(s, x, n, t, m);
      CaptureDetours(s, x, n, t, m);
      CaptureOrder(s, x, n, t, m);
      CapturePreds(s, x, n, t, m);
    }
  }

  /** The store of the successor's `prev_`. */
  ghost predicate UnlinkSetPrevStep(s: State, x: Aux, n: Leaf, t: State) {
    && Inv(s, x) && n in s
    && s[n].phase.UnlinkSetPrev?
    && t == SetPrev(SetPhase(s, n, UnlinkPublish(s[n].phase.succ, s[n].phase.pred)), s[n].phase.succ, s[n].phase.pred)
  }

  lemma UnlinkSetPrevLocal(s: State, x: Aux, n: Leaf, t: State, m: Leaf)
    requires UnlinkSetPrevStep(s, x, n, t) && m in s
    ensures ShapeOk(t, m) && MarksOk(t, m)
  {
    assert ShapeOk(s, m) && MarksOk(s, n) && SpineOk(s, x, n);
    if Splitting(s[m].phase) { assert SpineOk(s, x, s[m].phase.nr); }
    assert MarksOk(s, m);
  }

  lemma UnlinkSetPrevDetours(s: State, x: Aux, n: Leaf, t: State, m: Leaf)
    requires UnlinkSetPrevStep(s, x, n, t) && m in s
    ensures DetourOk(t, x, m)
  {
    assert DetourOk(s, x, m);
  }

  lemma UnlinkSetPrevOrder(s: State, x: Aux, n: Leaf, t: State, m: Leaf)
    requires UnlinkSetPrevStep(s, x, n, t) && m in s
    ensures SpineOk(t, x, m)
  {
    assert SpineOk(s, x, m) && SpineOk(s, x, n) && MarksOk(s, n);
  }

  lemma UnlinkSetPrevPreds(s: State, x: Aux, n: Leaf, t: State, m: Leaf)
    requires UnlinkSetPrevStep(s, x, n, t) && m in s
    ensures PredOk(t, x, m)
  {
    assert PredOk(s, x, m);
  }

  lemma UnlinkSetPrevInv(s: State, x: Aux, n: Leaf, t: State)
    requires UnlinkSetPrevStep(s, x, n, t)
    ensures Inv(t, x)
  {
    forall m | m in t
      ensures ShapeOk(t, m) && MarksOk(t, m) && DetourOk(t, x, m) && SpineOk(t, x, m) && PredOk(t, x, m)
    {
      UnlinkSetPrevLocal(s, x, n, t, m);
      UnlinkSetPrevDetours(s, x, n, t, m);
      UnlinkSetPrevOrder(s, x, n, t, m);
      UnlinkSetPrevPreds(s, x, n, t, m);
    }
  }

  /** The last store of a split. */
  ghost predicate SplitPublishStep(s: State, x: Aux, n: Leaf, y: Aux, t: State) {
    && Inv(s, x) && n in s
    && s[n].phase.SplitPublish?
    && s[n].phase.nr in s && y == PublishAux(s, x, n)
    && t == SetPhase(SetNext(SetPhase(s, n, Idle), n, To(s[n].phase.nr, false)), s[n].phase.nr, Idle)
  }

  lemma SplitPublishLocal(s: State, x: Aux, n: Leaf, y: Aux, t: State, m: Leaf)
    requires SplitPublishStep(s, x, n, y, t) && m in s
    ensures ShapeOk(t, m) && MarksOk(t, m)
  {
    assert ShapeOk(s, n) && ShapeOk(s, s[n].phase.nr) && SpineOk(s, x, s[n].phase.nr);
    assert ShapeOk(s, m);
    assert MarksOk(s, m);
  }

  lemma SplitPublishDetours(s: State, x: Aux, n: Leaf, y: Aux, t: State, m: Leaf)
    requires SplitPublishStep(s, x, n, y, t) && m in s
    ensures DetourOk(t, y, m)
  {
    assert ShapeOk(s, n) && ShapeOk(s, s[n].phase.nr) && SpineOk(s, x, s[n].phase.nr);
    assert DetourOk(s, x, m) && ShapeOk(s, m);
    if m in x.dz { assert ShapeOk(s, x.dz[m]); }
  }

  lemma SplitPublishIn(s: State, x: Aux, n: Leaf, y: Aux, t: State, m: Leaf)
    requires SplitPublishStep(s, x, n, y, t) && m in s
    ensures SpineIn(t, y, m)
  {
    assert ShapeOk(s, n) && ShapeOk(s, s[n].phase.nr) && SpineOk(s, x, s[n].phase.nr);
    assert SpineOk(s, x, m) && SpineOk(s, x, n) && ShapeOk(s, m);
    if m in x.pv { assert ShapeOk(s, x.pv[m]); }
  }

  lemma SplitPublishOut(s: State, x: Aux, n: Leaf, y: Aux, t: State, m: Leaf)
    requires SplitPublishStep(s, x, n, y, t) && m in s
    ensures SpineOut(t, y, m)
  {
    assert ShapeOk(s, n) && ShapeOk(s, s[n].phase.nr) && SpineOk(s, x, s[n].phase.nr);
    assert SpineOk(s, x, m) && SpineOk(s, x, n) && ShapeOk(s, m);
    if m in x.pv { assert ShapeOk(s, x.pv[m]); }
  }

  lemma SplitPublishOrder(s: State, x: Aux, n: Leaf, y: Aux, t: State, m: Leaf)
    requires SplitPublishStep(s, x, n, y, t) && m in s
    ensures SpineOk(t, y, m)
  {
    SplitPublishIn(s, x, n, y, t, m);
    SplitPublishOut(s, x, n, y, t, m);
  }

  lemma SplitPublishPreds(s: State, x: Aux, n: Leaf, y: Aux, t: State, m: Leaf)
    requires SplitPublishStep(s, x, n, y, t) && m in s
    ensures PredOk(t, y, m)
  {
    assert ShapeOk(s, n) && ShapeOk(s, s[n].phase.nr) && SpineOk(s, x, s[n].phase.nr);
    assert PredOk(s, x, m) && SpineOk(s, x, m) && SpineOk(s, x, n);
    if s[m].phase.UnlinkCasPrev? { assert ShapeOk(s, s[m].phase.pred); }
    if m in x.pv { assert ShapeOk(s, x.pv[m]); }
  }

  lemma SplitPublishInv(s: State, x: Aux, n: Leaf, y: Aux, t: State)
    requires SplitPublishStep(s, x, n, y, t)
    ensures Inv(t, y)
  {
    assert ShapeOk(s, n) && ShapeOk(s, s[n].phase.nr) && SpineOk(s, x, s[n].phase.nr);
    forall m | m in t
      ensures ShapeOk(t, m) && MarksOk(t, m) && DetourOk(t, y, m) && SpineOk(t, y, m) && PredOk(t, y, m)
    {
      SplitPublishLocal(s, x, n, y, t, m);
      SplitPublishDetours(s, x, n, y, t, m);
      SplitPublishOrder(s, x, n, y, t, m);
      SplitPublishPreds(s, x, n, y, t, m);
    }
  }

  /** The last store of an unlink. */
  ghost predicate UnlinkPublishStep(s: State, x: Aux, n: Leaf, y: Aux, t: State) {
    && Inv(s, x) && n in s
    && s[n].phase.UnlinkPublish?
    && n in x.pv && x.pv[n] in s && y == UnlinkAux(s, x, n)
    && t == SetNext(SetPhase(s, n, Dead), s[n].phase.pred, Unmarked(s[n].phase.succ))
  }

  lemma UnlinkPublishShape(s: State, x: Aux, n: Leaf, y: Aux, t: State, m: Leaf)
    requires UnlinkPublishStep(s, x, n, y, t) && m in s
    ensures ShapeOk(t, m)
  {
    assert MarksOk(s, n) && PredOk(s, x, n) && ShapeOk(s, n) && ShapeOk(s, s[n].phase.pred) && ShapeOk(s, x.pv[n]);
    assert ShapeOk(s, m);
  }

  lemma UnlinkPublishMarks(s: State, x: Aux, n: Leaf, y: Aux, t: State, m: Leaf)
    requires UnlinkPublishStep(s, x, n, y, t) && m in s
    ensures MarksOk(t, m)
  {
    assert MarksOk(s, n) && PredOk(s, x, n) && ShapeOk(s, n) && ShapeOk(s, s[n].phase.pred) && ShapeOk(s, x.pv[n]);
    assert MarksOk(s, m);
  }

  lemma UnlinkPublishDetourStarts(s: State, x: Aux, n: Leaf, y: Aux, t: State, m: Leaf)
    requires UnlinkPublishStep(s, x, n, y, t) && m in s
    ensures DetourStarts(t, y, m)
  {
    assert MarksOk(s, n) && PredOk(s, x, n) && ShapeOk(s, n) && ShapeOk(s, s[n].phase.pred) && ShapeOk(s, x.pv[n]);
    assert DetourOk(s, x, m) && DetourOk(s, x, n) && SpineOk(s, x, n);
    if m in x.dz { assert ShapeOk(s, x.dz[m]); } else { assert ShapeOk(s, m); }
  }

  lemma UnlinkPublishDetourGoesOn(s: State, x: Aux, n: Leaf, y: Aux, t: State, m: Leaf)
    requires UnlinkPublishStep(s, x, n, y, t) && m in s
    ensures DetourGoesOn(t, y, m)
  {
    assert MarksOk(s, n) && PredOk(s, x, n) && ShapeOk(s, n) && ShapeOk(s, s[n].phase.pred) && ShapeOk(s, x.pv[n]);
    assert DetourOk(s, x, m) && DetourOk(s, x, n) && SpineOk(s, x, n);
    if m in x.dz { assert ShapeOk(s, x.dz[m]); } else { assert ShapeOk(s, m); }
  }

  lemma UnlinkPublishDetours(s: State, x: Aux, n: Leaf, y: Aux, t: State, m: Leaf)
    requires UnlinkPublishStep(s, x, n, y, t) && m in s
    ensures DetourOk(t, y, m)
  {
    UnlinkPublishDetourStarts(s, x, n, y, t, m);
    UnlinkPublishDetourGoesOn(s, x, n, y, t, m);
  }

  lemma UnlinkPublishIn(s: State, x: Aux, n: Leaf, y: Aux, t: State, m: Leaf)
    requires UnlinkPublishStep(s, x, n, y, t) && m in s
    ensures SpineIn(t, y, m)
  {
    assert MarksOk(s, n) && PredOk(s, x, n) && ShapeOk(s, n) && ShapeOk(s, s[n].phase.pred) && ShapeOk(s, x.pv[n]);
    assert SpineOk(s, x, m) && SpineOk(s, x, n) && ShapeOk(s, m);
  }

  lemma UnlinkPublishOut(s: State, x: Aux, n: Leaf, y: Aux, t: State, m: Leaf)
    requires UnlinkPublishStep(s, x, n, y, t) && m in s
    ensures SpineOut(t, y, m)
  {
    assert MarksOk(s, n) && PredOk(s, x, n) && ShapeOk(s, n) && ShapeOk(s, s[n].phase.pred) && ShapeOk(s, x.pv[n]);
    assert SpineOk(s, x, m) && SpineOk(s, x, n) && ShapeOk(s, m);
  }

  lemma UnlinkPublishOrder(s: State, x: Aux, n: Leaf, y: Aux, t: State, m: Leaf)
    requires UnlinkPublishStep(s, x, n, y, t) && m in s
    ensures SpineOk(t, y, m)
  {
    UnlinkPublishIn(s, x, n, y, t, m);
    UnlinkPublishOut(s, x, n, y, t, m);
  }

  lemma UnlinkPublishPreds(s: State, x: Aux, n: Leaf, y: Aux, t: State, m: Leaf)
    requires UnlinkPublishStep(s, x, n, y, t) && m in s
    ensures PredOk(t, y, m)
  {
    assert MarksOk(s, n) && PredOk(s, x, n) && ShapeOk(s, n) && ShapeOk(s, s[n].phase.pred) && ShapeOk(s, x.pv[n]);
    assert PredOk(s, x, m) && SpineOk(s, x, m) && SpineOk(s, x, n);
  }

  lemma UnlinkPublishInv(s: State, x: Aux, n: Leaf, y: Aux, t: State)
    requires UnlinkPublishStep(s, x, n, y, t)
    ensures Inv(t, y)
  {
    assert MarksOk(s, n) && PredOk(s, x, n) && ShapeOk(s, n) && ShapeOk(s, s[n].phase.pred) && ShapeOk(s, x.pv[n]);
    forall m | m in t
      ensures ShapeOk(t, m) && MarksOk(t, m) && DetourOk(t, y, m) && SpineOk(t, y, m) && PredOk(t, y, m)
    {
      UnlinkPublishShape(s, x, n, y, t, m);
      UnlinkPublishMarks(s, x, n, y, t, m);
      UnlinkPublishDetours(s, x, n, y, t, m);
      UnlinkPublishOrder(s, x, n, y, t, m);
      UnlinkPublishPreds(s, x, n, y, t, m);
    }
  }

  lemma BeginSplitLocal(s: State, x: Aux, n: Leaf, nr: Leaf, bound: nat, t: State, m: Leaf)
    requires Inv(s, x) && Enabled(s, BeginSplit(n, nr, bound)) && m in s
    requires t == NextState(s, BeginSplit(n, nr, bound))
    ensures ShapeOk(t, m) && MarksOk(t, m) && DetourOk(t, x, m)
  {
    assert ShapeOk(s, m) && MarksOk(s, m) && DetourOk(s, x, m);
    if m in x.dz { assert ShapeOk(s, x.dz[m]); }
  }

  lemma BeginSplitOrder(s: State, x: Aux, n: Leaf, nr: Leaf, bound: nat, t: State, m: Leaf)
    requires Inv(s, x) && Enabled(s, BeginSplit(n, nr, bound)) && m in s
    requires t == NextState(s, BeginSplit(n, nr, bound))
    ensures SpineOk(t, x, m) && PredOk(t, x, m)
  {
    assert SpineOk(s, x, m) && PredOk(s, x, m) && ShapeOk(s, m);
    if m in x.pv { assert ShapeOk(s, x.pv[m]); }
  }

  lemma BeginSplitInv(s: State, x: Aux, n: Leaf, nr: Leaf, bound: nat, t: State)
    requires Inv(s, x) && Enabled(s, BeginSplit(n, nr, bound))
    requires t == NextState(s, BeginSplit(n, nr, bound))
    ensures Inv(t, x)
  {
    forall m | m in t
      ensures ShapeOk(t, m) && MarksOk(t, m) && DetourOk(t, x, m) && SpineOk(t, x, m) && PredOk(t, x, m)
    {
      if m in s {
        BeginSplitLocal(s, x, n, nr, bound, t, m);
        BeginSplitOrder(s, x, n, nr, bound, t, m);
      }
    }
  }

  // ----- runs -----

  lemma SplitStepInv(s: State, x: Aux, n: Leaf) returns (y: Aux)
    requires Inv(s, x) && n in s && Splitting(s[n].phase)
    ensures Inv(AdvanceState(s, n), y)
  {
    var t := AdvanceState(s, n);
    assert ShapeOk(s, n);
    y := x;
    match s[n].phase
    case SplitStart(nr) => SplitStartInv(s, x, n, t);
    case SplitRead(nr) =>
      if s[n].next.Null? { LockInv(s, x, n, SplitSetNext(nr, None), t); }
      else if !s[n].next.marked { QuietInv(s, x, n, SplitCas(nr, s[n].next.leaf), t); }
    case SplitCas(nr, seen) =>
      if s[n].next == To(seen, false) { LockInv(s, x, n, SplitSetNext(nr, Some(seen)), t); }
      else { QuietInv(s, x, n, SplitRead(nr), t); }
    case SplitSetNext(_, _) => SplitSetNextInv(s, x, n, t);
    case SplitSetPrev(_, _) => SplitSetPrevInv(s, x, n, t);
    case SplitPublish(_, _) => y := PublishAux(s, x, n); SplitPublishInv(s, x, n, y, t);
  }

  lemma UnlinkStepInv(s: State, x: Aux, n: Leaf) returns (y: Aux)
    requires Inv(s, x) && n in s && Unlinking(s[n].phase)
    ensures Inv(AdvanceState(s, n), y)
  {
    var t := AdvanceState(s, n);
    assert SpineOk(s, x, n);
    y := x;
    match s[n].phase
    case UnlinkRead =>
      if s[n].next.Null? { LockInv(s, x, n, UnlinkReadPrev(None), t); }
      else if !s[n].next.marked { QuietInv(s, x, n, UnlinkCas(s[n].next.leaf), t); }
    case UnlinkCas(seen) =>
      if s[n].next == To(seen, false) { LockInv(s, x, n, UnlinkReadPrev(Some(seen)), t); }
      else { QuietInv(s, x, n, UnlinkRead, t); }
    case UnlinkReadPrev(succ) =>
      PrevSettled(s, x, n);
      RetryInv(s, x, n, UnlinkCasPrev(succ, s[n].prev.value), t);
    case UnlinkCasPrev(succ, pred) =>
      if pred in s && s[pred].next == To(n, false) { CaptureInv(s, x, n, t); }
      else { RetryInv(s, x, n, UnlinkReadPrev(succ), t); }
    case UnlinkSetPrev(_, _) => UnlinkSetPrevInv(s, x, n, t);
    case UnlinkPublish(_, _) =>
      assert PredOk(s, x, n);
      y := UnlinkAux(s, x, n);
      UnlinkPublishInv(s, x, n, y, t);
  }

  lemma PrevSettled(s: State, x: Aux, n: Leaf)
    requires Inv(s, x) && n in s && Linked(s, n) && n != FIRST
    ensures s[n].prev.Some? && Settled(s, s[n].prev.value)
  {
    assert SpineOk(s, x, n);
    var p := x.pv[n];
    assert ShapeOk(s, p) && PredOk(s, x, p);
    if s[p].phase.UnlinkPublish? {
      var q := x.pv[p];
      assert SpineOk(s, x, p) && ShapeOk(s, q);
    }
  }

  lemma StepInv(s: State, x: Aux, step: Step) returns (y: Aux)
    requires Inv(s, x) && Enabled(s, step)
    ensures Inv(NextState(s, step), y)
  {
    match step
    case BeginSplit(n, nr, bound) =>
      y := x;
      BeginSplitInv(s, x, n, nr, bound, NextState(s, step));
    case BeginUnlink(n) =>
      y := x;
      assert SpineOk(s, x, n);
      QuietInv(s, x, n, UnlinkRead, NextState(s, step));
    case Advance(n) =>
      if Splitting(s[n].phase) { y := SplitStepInv(s, x, n); } else { y := UnlinkStepInv(s, x, n); }
  }

  /** Some history explains every reachable state. */
  lemma {:induction false} RunInv(steps: seq<Step>) returns (x: Aux)
    ensures Inv(After(steps), x)
  {
    if steps == [] {
      x := Aux(map[], map[]);
      assert Init().Keys == {FIRST};
    } else {
      x := RunInv(steps[..|steps| - 1]);
      var s := After(steps[..|steps| - 1]);
      var step := steps[|steps| - 1];
      if Enabled(s, step) { x := StepInv(s, x, step); }
    }
  }

  // ----- safety -----

  lemma OnChainStep(s: State, a: Leaf, b: Leaf, c: Leaf)
    requires OnChain(s, a, b) && b in s && Strip(s[b].next) == Some(c)
    ensures OnChain(s, a, c)
  {
    var k: nat :| Follow(s, a, k) == Some(b);
    assert Follow(s, a, k + 1) == Some(c);
  }

  /** A detour of dead leaves ends at the current successor. */
  lemma {:induction false} DetourReaches(s: State, x: Aux, d: Leaf, p: Leaf, e: Leaf)
    requires Inv(s, x) && d in x.dz && x.dz[d] == p && p in s
    requires Strip(EffLink(s, p)) == Some(e) && e in s && OnChain(s, FIRST, d)
    ensures OnChain(s, FIRST, e)
    decreases if d in s && s[d].bound < s[e].bound then s[e].bound - s[d].bound else 0
  {
    assert DetourOk(s, x, d) && ShapeOk(s, d);
    OnChainStep(s, FIRST, d, s[d].next.leaf);
    if s[d].next.leaf != e {
      assert DetourOk(s, x, s[d].next.leaf);
      DetourReaches(s, x, s[d].next.leaf, p, e);
    }
  }

  lemma {:induction false} LinkedReachable(s: State, x: Aux, n: Leaf)
    requires Inv(s, x) && Linked(s, n)
    ensures OnChain(s, FIRST, n)
    decreases s[n].bound
  {
    assert SpineOk(s, x, n);
    if n == FIRST {
      assert Follow(s, FIRST, 0) == Some(FIRST);
    } else {
      var p := x.pv[n];
      assert ShapeOk(s, p) && MarksOk(s, p) && DetourOk(s, x, p);
      LinkedReachable(s, x, p);
      if s[p].next.To? && s[p].next.leaf == n {
        OnChainStep(s, FIRST, p, n);
      } else {
        var d := s[p].phase.succ.value;
        OnChainStep(s, FIRST, p, d);
        DetourReaches(s, x, d, p, n);
      }
    }
  }

  /** Unmarked edges are mirrored. */
  lemma UnmarkedIsMirrored(s: State, x: Aux, n: Leaf)
    requires Inv(s, x) && Linked(s, n) && s[n].next.To? && !s[n].next.marked
    ensures Linked(s, s[n].next.leaf) && s[s[n].next.leaf].prev == Some(n)
  {
    assert MarksOk(s, n) && SpineOk(s, x, n);
    assert SpineOk(s, x, s[n].next.leaf);
  }

  /** In every interleaving, next pointers go up in bound order, every linked leaf is on the
      mark-stripped chain from the first leaf, and unmarked edges are mirrored by `prev_`. */
  lemma RunsAreSafe(steps: seq<Step>)
    ensures Safe(After(steps))
  {
    var s := After(steps);
    var x := RunInv(steps);
    forall n: Leaf | n in s && s[n].next.To?
      ensures s[n].next.leaf in s && s[n].bound < s[s[n].next.leaf].bound
    {
      assert ShapeOk(s, n);
    }
    forall n: Leaf | Linked(s, n) ensures OnChain(s, FIRST, n) {
      LinkedReachable(s, x, n);
    }
    forall n: Leaf | Linked(s, n) && s[n].next.To? && !s[n].next.marked
      ensures Linked(s, s[n].next.leaf) && s[s[n].next.leaf].prev == Some(n)
    {
      UnmarkedIsMirrored(s, x, n);
    }
  }

  /** No chain of next pointers returns to a leaf it has left. */
  lemma {:induction false} ChainsAscend(steps: seq<Step>, a: Leaf, k: nat)
    requires a in After(steps) && k > 0 && Follow(After(steps), a, k).Some?
    ensures Follow(After(steps), a, k).value in After(steps)
    ensures After(steps)[a].bound < After(steps)[Follow(After(steps), a, k).value].bound
  {
    RunsAreSafe(steps);
    if k > 1 { ChainsAscend(steps, a, k - 1); }
  }

  ghost predicate Quiescent(s: State) {
    forall n: Leaf {:trigger s[n]} :: n in s ==> s[n].phase.Idle? || s[n].phase.Dead?
  }

  /** When no operation is in progress the list is an ordinary doubly linked list of exactly
      the linked leaves. */
  lemma {:induction false} QuiescentList(steps: seq<Step>, k: nat)
    requires Quiescent(After(steps)) && Follow(After(steps), FIRST, k).Some?
    ensures var s, n := After(steps), Follow(After(steps), FIRST, k).value;
      && Linked(s, n)
      && (s[n].next.To? ==> !s[n].next.marked && s[n].next.leaf in s && s[s[n].next.leaf].prev == Some(n))
  {
    var s := After(steps);
    RunsAreSafe(steps);
    var x := RunInv(steps);
    if k == 0 {
      assert SpineOk(s, x, FIRST);
    } else {
      QuiescentList(steps, k - 1);
    }
    var n := Follow(s, FIRST, k).value;
    assert MarksOk(s, n);
    if s[n].next.To? { assert ShapeOk(s, n); }
  }

  // ----- operations take effect -----

  /** Two stages of one operation. */
  predicate SameOperation(p: Phase, q: Phase) {
    (Splitting(p) && Splitting(q) && p.nr == q.nr) || (Unlinking(p) && Unlinking(q))
  }

  /** What `n`'s operation, once in phase `p`, has done when it is over: the new leaf is linked to the right of
      `n`, or `n` is gone. */
  predicate Completed(p: Phase, t: State, n: Leaf) {
    n in t && if Splitting(p) then t[n].phase.Idle? && t[n].next == To(p.nr, false) && p.nr in t && t[p.nr].phase.Idle?
    else t[n].phase.Dead?
  }

  /** One step of an operation goes on with it or completes it, and leaves other operations where they are. */
  lemma AdvanceEffect(s: State, x: Aux, n: Leaf)
    requires Inv(s, x) && Enabled(s, Advance(n))
    ensures var t := AdvanceState(s, n);
      && t.Keys == s.Keys && Pending(s[n].phase)
      && (SameOperation(s[n].phase, t[n].phase) || Completed(s[n].phase, t, n))
      && forall m :: m in s && m != n ==>
           if Splitting(s[n].phase) && m == s[n].phase.nr then s[m].phase == Unpublished(n) && (Pending(t[n].phase) ==> t[m].phase == s[m].phase)
           else t[m].phase == s[m].phase
  {
    assert ShapeOk(s, n) && PredOk(s, x, n);
  }

  /** No linked leaf leads to a dead one, except in the last step of its own split. */
  lemma DeadIsOut(s: State, x: Aux, n: Leaf, m: Leaf)
    requires Inv(s, x) && n in s && s[n].phase.Dead? && Linked(s, m) && !s[m].phase.SplitPublish?
    ensures Strip(s[m].next) != Some(n)
  {
    assert SpineOk(s, x, m) && SpineOk(s, x, n) && ShapeOk(s, m) && MarksOk(s, m);
  }

  /** In every run, a step that ends an `unlink` leaves the leaf dead and off the list, and one that ends a
      `link_split` leaves the new leaf linked as the successor. */
  lemma OperationsTakeEffect(steps: seq<Step>, n: Leaf)
    requires Enabled(After(steps), Advance(n)) && !Pending(AdvanceState(After(steps), n)[n].phase)
    ensures var s, t := After(steps), AdvanceState(After(steps), n);
      && Pending(s[n].phase) && Completed(s[n].phase, t, n)
      && (Unlinking(s[n].phase) ==>
            forall m :: Linked(t, m) && !t[m].phase.SplitPublish? ==> Strip(t[m].next) != Some(n))
      && (Splitting(s[n].phase) ==> t[s[n].phase.nr].prev == Some(n))
  {
    var s, t := After(steps), AdvanceState(After(steps), n);
    var x := RunInv(steps);
    AdvanceEffect(s, x, n);
    var y := StepInv(s, x, Advance(n));
    assert ShapeOk(s, n);
    forall m | Unlinking(s[n].phase) && Linked(t, m) && !t[m].phase.SplitPublish? ensures Strip(t[m].next) != Some(n) {
      DeadIsOut(t, y, n, m);
    }
  }

  // ----- the list as a tally of operations -----

  /** Operations counted on the steps of a schedule: those begun and not over, the leaves whose split is over
      and the leaves whose unlink is. */
  datatype Tally = Tally(splits: map<Leaf, Leaf>, unlinks: set<Leaf>, made: set<Leaf>, gone: set<Leaf>)

  /** A step was taken, to state `t`. */
  function Counted(l: Tally, step: Step, t: State): Tally {
    match step
    case BeginSplit(n, nr, _) => l.(splits := l.splits[n := nr])
    case BeginUnlink(n) => l.(unlinks := l.unlinks + {n})
    case Advance(n) =>
      if n in t && Pending(t[n].phase) then l
      else if n in l.splits then l.(splits := l.splits - {n}, made := l.made + {l.splits[n]})
      else l.(unlinks := l.unlinks - {n}, gone := l.gone + {n})
  }

  function TallyOf(steps: seq<Step>): Tally {
    if steps == [] then Tally(map[], {}, {}, {})
    else
      var s, l := After(steps[..|steps| - 1]), TallyOf(steps[..|steps| - 1]);
      var step := steps[|steps| - 1];
      if Enabled(s, step) then Counted(l, step, NextState(s, step)) else l
  }

  /** The leaves that should be on the list. */
  predicate Present(l: Tally, n: Leaf) {
    (n == FIRST || n in l.made) && n !in l.gone
  }

  predicate AgreesAt(s: State, l: Tally, n: Leaf) {
    && (n in l.splits <==> n in s && Splitting(s[n].phase)) && (n in l.splits && n in s ==> SameOperation(s[n].phase, SplitStart(l.splits[n])))
    && (n in l.unlinks <==> n in s && Unlinking(s[n].phase))
    && (n in l.gone <==> n in s && s[n].phase.Dead?)
    && (n == FIRST || n in l.made <==> n in s && !s[n].phase.Unpublished?)
  }

  ghost predicate Agrees(s: State, l: Tally) {
    forall n: Leaf {:trigger AgreesAt(s, l, n)} :: AgreesAt(s, l, n)
  }

  lemma AdvanceAgrees(s: State, x: Aux, l: Tally, n: Leaf)
    requires Inv(s, x) && Agrees(s, l) && Enabled(s, Advance(n))
    ensures Agrees(AdvanceState(s, n), Counted(l, Advance(n), AdvanceState(s, n)))
  {
    var t := AdvanceState(s, n);
    var k := Counted(l, Advance(n), t);
    AdvanceEffect(s, x, n);
    assert AgreesAt(s, l, n);
    forall m: Leaf ensures AgreesAt(t, k, m) { assert AgreesAt(s, l, m); }
  }

  lemma CountedAgrees(s: State, x: Aux, l: Tally, step: Step)
    requires Inv(s, x) && Agrees(s, l) && Enabled(s, step)
    ensures Agrees(NextState(s, step), Counted(l, step, NextState(s, step)))
  {
    if step.Advance? {
      AdvanceAgrees(s, x, l, step.n);
    } else {
      var t := NextState(s, step);
      assert SpineOk(s, x, FIRST) && AgreesAt(s, l, FIRST);
      forall m: Leaf ensures AgreesAt(t, Counted(l, step, t), m) { assert AgreesAt(s, l, m); }
    }
  }

  lemma {:induction false} RunAgrees(steps: seq<Step>)
    ensures Agrees(After(steps), TallyOf(steps))
  {
    if steps != [] {
      var s, step := After(steps[..|steps| - 1]), steps[|steps| - 1];
      RunAgrees(steps[..|steps| - 1]);
      var x := RunInv(steps[..|steps| - 1]);
      if Enabled(s, step) { CountedAgrees(s, x, TallyOf(steps[..|steps| - 1]), step); }
    }
  }

  lemma QuietTally(s: State, x: Aux, l: Tally)
    requires Inv(s, x) && Agrees(s, l) && l.splits == map[] && l.unlinks == {}
    ensures Quiescent(s)
  {
    forall m | m in s ensures !Pending(s[m].phase) { assert AgreesAt(s, l, m); }
    forall m | m in s ensures s[m].phase.Idle? || s[m].phase.Dead? { assert ShapeOk(s, m); }
  }

  /** In every run the leaves whose split is over and whose unlink is not are on the list; and when no operation
      is between its first and its last step, no others are. */
  lemma ListIsTally(steps: seq<Step>, n: Leaf)
    ensures Present(TallyOf(steps), n) ==> OnChain(After(steps), FIRST, n)
    ensures TallyOf(steps).splits == map[] && TallyOf(steps).unlinks == {} ==>
      (Present(TallyOf(steps), n) <==> OnChain(After(steps), FIRST, n))
  {
    var s, l := After(steps), TallyOf(steps);
    RunAgrees(steps);
    RunsAreSafe(steps);
    assert AgreesAt(s, l, n);
    if l.splits == map[] && l.unlinks == {} && OnChain(s, FIRST, n) {
      var x := RunInv(steps);
      QuietTally(s, x, l);
      var k: nat :| Follow(s, FIRST, k) == Some(n);
      QuiescentList(steps, k);
    }
  }

  // ----- no deadlock -----

  /** The operation of `n` run alone for `k` steps. */
  function Alone(s: State, n: Leaf, k: nat): State
    decreases k
  {
    if k > 0 && Enabled(s, Advance(n)) then Alone(AdvanceState(s, n), n, k - 1) else s
  }

  ghost predicate CanFinish(s: State, n: Leaf) {
    n in s && exists k: nat :: Completed(s[n].phase, Alone(s, n, k), n)
  }

  lemma FinishLater(s: State, n: Leaf)
    requires Enabled(s, Advance(n)) && CanFinish(AdvanceState(s, n), n)
    requires SameOperation(s[n].phase, AdvanceState(s, n)[n].phase)
    ensures CanFinish(s, n)
  {
    var t := AdvanceState(s, n);
    var k: nat :| Completed(t[n].phase, Alone(t, n, k), n);
    assert Alone(s, n, k + 1) == Alone(t, n, k);
  }

  lemma FinishNow(s: State, n: Leaf)
    requires Enabled(s, Advance(n))
    requires Completed(s[n].phase, AdvanceState(s, n), n)
    ensures CanFinish(s, n)
  {
    var t := AdvanceState(s, n);
    assert Alone(t, n, 0) == t;
    assert Alone(s, n, 1) == Alone(t, n, 0);
  }

  /** After `lock_next` a split never waits. */
  lemma SplitFinishes(s: State, n: Leaf)
    requires n in s
    requires s[n].phase.SplitSetNext? || s[n].phase.SplitSetPrev? || s[n].phase.SplitPublish?
    requires s[n].phase.nr in s && s[n].phase.nr != n
    ensures CanFinish(s, n)
    decreases if s[n].phase.SplitSetNext? then 2 else if s[n].phase.SplitSetPrev? then 1 else 0
  {
    if s[n].phase.SplitPublish? { FinishNow(s, n); }
    else { SplitFinishes(AdvanceState(s, n), n); FinishLater(s, n); }
  }

  lemma SplitFinishesUnmarked(s: State, n: Leaf)
    requires n in s && (s[n].phase.SplitStart? || s[n].phase.SplitRead? || s[n].phase.SplitCas?)
    requires s[n].phase.nr in s && s[n].phase.nr != n && (s[n].next.To? ==> !s[n].next.marked)
    ensures CanFinish(s, n)
    decreases if s[n].phase.SplitStart? then 3 else if s[n].phase.SplitCas? && s[n].next != To(s[n].phase.seen, false) then 2
              else if s[n].phase.SplitRead? then 1 else 0
  {
    var t := AdvanceState(s, n);
    if t[n].phase.SplitSetNext? { SplitFinishes(t, n); } else { SplitFinishesUnmarked(t, n); }
    FinishLater(s, n);
  }

  /** Once its predecessor is captured an unlink never waits. */
  lemma CapturedFinishes(s: State, n: Leaf)
    requires n in s && Captured(s[n].phase)
    ensures CanFinish(s, n)
    decreases s[n].phase.UnlinkSetPrev?
  {
    if s[n].phase.UnlinkPublish? { FinishNow(s, n); }
    else { CapturedFinishes(AdvanceState(s, n), n); FinishLater(s, n); }
  }

  /** The predecessor's next pointer is free for the swap. */
  predicate PredFree(s: State, n: Leaf) {
    n in s && s[n].prev.Some? && s[n].prev.value in s && s[n].prev.value != n
    && s[s[n].prev.value].next == To(n, false)
  }

  lemma UnlinkFinishes(s: State, n: Leaf)
    requires PredFree(s, n) && (s[n].phase.UnlinkReadPrev? || s[n].phase.UnlinkCasPrev?)
    ensures CanFinish(s, n)
    decreases if s[n].phase.UnlinkReadPrev? then 1
              else if Some(s[n].phase.pred) == s[n].prev then 0 else 2
  {
    var t := AdvanceState(s, n);
    if Captured(t[n].phase) { CapturedFinishes(t, n); } else { UnlinkFinishes(t, n); }
    FinishLater(s, n);
  }

  lemma UnlinkFinishesUnmarked(s: State, n: Leaf)
    requires PredFree(s, n) && (s[n].phase.UnlinkRead? || s[n].phase.UnlinkCas?)
    requires s[n].next.To? ==> !s[n].next.marked
    ensures CanFinish(s, n)
    decreases if s[n].phase.UnlinkRead? then 1
              else if s[n].next == To(s[n].phase.seen, false) then 0 else 2
  {
    var t := AdvanceState(s, n);
    if t[n].phase.UnlinkReadPrev? { UnlinkFinishes(t, n); } else { UnlinkFinishesUnmarked(t, n); }
    FinishLater(s, n);
  }

  /** A pending operation, or one it waits for further left, can finish alone. */
  lemma {:induction false} SomeFinishes(s: State, x: Aux, n: Leaf) returns (m: Leaf)
    requires Inv(s, x) && n in s && Pending(s[n].phase)
    ensures m in s && Pending(s[m].phase) && CanFinish(s, m)
    decreases s[n].bound
  {
    m := n;
    assert MarksOk(s, n) && ShapeOk(s, n) && SpineOk(s, x, n);
    if OwnMark(s[n].phase) && Splitting(s[n].phase) {
      SplitFinishes(s, n);
    } else if Captured(s[n].phase) {
      CapturedFinishes(s, n);
    } else if !OwnMark(s[n].phase) && s[n].next.To? && s[n].next.marked {
      m := s[n].next.leaf;
      CapturedFinishes(s, m);
    } else if Splitting(s[n].phase) {
      SplitFinishesUnmarked(s, n);
    } else {
      var p := x.pv[n];
      assert MarksOk(s, p) && ShapeOk(s, p);
      if OwnMark(s[p].phase) {
        m := SomeFinishes(s, x, p);
      } else {
        assert PredFree(s, n);
        if OwnMark(s[n].phase) { UnlinkFinishes(s, n); } else { UnlinkFinishesUnmarked(s, n); }
      }
    }
  }

  /** No reachable state is deadlocked: while any operation is in progress, some operation
      completes if it alone is scheduled. */
  lemma NoDeadlock(steps: seq<Step>, n: Leaf)
    requires n in After(steps) && Pending(After(steps)[n].phase)
    ensures exists m: Leaf ::
      m in After(steps) && Pending(After(steps)[m].phase) && CanFinish(After(steps), m)
  {
    var x := RunInv(steps);
    var m := SomeFinishes(After(steps), x, n);
  }
}
