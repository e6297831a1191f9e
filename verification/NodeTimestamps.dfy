/**
  Leaf timestamps access by access (masstree/kvrow.hh `apply_remove`, masstree/masstree_remove.hh
  `remove_leaf`, masstree/masstree_split.hh `finish_split`).

  A leaf's `node_ts_` is written by the removals in it, which hold its lock, and raised by the deletion of
  the leaf after it, which does not.  Here every access to such a field is a step of its own: a removal reads
  and then writes, a split copies and later links the new leaf in, a deletion loads its predecessor, loads
  that leaf's timestamp, swaps, checks the predecessor again and later unlinks.  Linking and unlinking are one
  step each (`LeafLink` has their own steps).  The question is when a removed key's timestamp stays below its
  leaf's, so that a re-insertion is later than the removal.
*/
module NodeTimestamps {
  import opened Common
  import opened Replay
  import opened Timestamps

  /** What the holder of a leaf's lock is about to do. */
  datatype Phase =
    | Idle
    | Removing(key: Key, ts: nat, seen: nat)       // `*node_ts` read, not yet written
    | Splitting(child: nat)                        // the new leaf is made, not yet linked
    | New
    | Deleting                                     // before `prev = leaf->prev_`
    | HavePrev(prev: nat)                          // before `prev_ts = prev->node_ts_`
    | HaveTs(prev: nat, seen: nat)                 // before the comparison and the swap
    | Merged(prev: nat, value: nat)                // before `prev == leaf->prev_`
    | Settled(prev: nat, value: nat)               // before `unlink`
    | Gone

  datatype Cell = Cell(ts: nat, phase: Phase)

  /** `list` is the leaf list, `home` the leaf responsible for a key, `log` the operations on each key. */
  datatype State = State(cells: seq<Cell>, list: seq<nat>, home: Key -> nat, clocks: seq<nat>, log: map<Key, seq<Record>>)

  datatype Step =
    | PutRow(thread: nat, key: Key, change: Columns)
    | RemoveRead(thread: nat, key: Key)
    | RemoveWrite(leaf: nat)
    | SplitCopy(leaf: nat)
    | SplitLink(leaf: nat, moved: Key -> bool)
    | DeleteBegin(leaf: nat)
    | LoadPrev(leaf: nat)
    | LoadTs(leaf: nat)
    | Swap(leaf: nat)
    | Check(leaf: nat)
    | Unlink(leaf: nat)

  // ----- keys -----

  function Log(s: State, k: Key): seq<Record> {
    LogOf(s.log, k)
  }

  function Last(s: State, k: Key): nat {
    LastTs(Log(s, k))
  }

  predicate Live(s: State, k: Key) {
    Log(s, k) != [] && !Log(s, k)[|Log(s, k)| - 1].Remove?
  }

  /** Stored once and removed since. */
  predicate Removed(s: State, k: Key) {
    Log(s, k) != [] && Log(s, k)[|Log(s, k)| - 1].Remove?
  }

  function HomeTs(s: State, k: Key): nat {
    if s.home(k) < |s.cells| then s.cells[s.home(k)].ts else 0
  }

  /** The responsible leaf's timestamp is above the key's removal. */
  predicate Covered(s: State, k: Key) {
    Removed(s, k) ==> Last(s, k) < HomeTs(s, k)
  }

  // ----- steps -----

  /** The leaf before `l` in the list. */
  function Pred(list: seq<nat>, l: nat): (p: nat)
    requires l in list && list[0] != l
    ensures p in list
  {
    if list[1] == l then list[0] else Pred(list[1..], l)
  }

  predicate HasPred(s: State, l: nat) {
    l in s.list && s.list[0] != l
  }

  /** The phase of a leaf; leaves not made yet have none. */
  function PhaseOf(s: State, l: nat): Phase {
    if l < |s.cells| then s.cells[l].phase else Gone
  }

  ghost predicate Enabled(s: State, step: Step) {
    match step
    case PutRow(t, k, _) => t < |s.clocks| && PhaseOf(s, s.home(k)).Idle?
    case RemoveRead(t, k) => t < |s.clocks| && PhaseOf(s, s.home(k)).Idle? && Live(s, k)
    case RemoveWrite(l) => PhaseOf(s, l).Removing?
    case SplitCopy(l) => PhaseOf(s, l).Idle?
    case SplitLink(l, _) => PhaseOf(s, l).Splitting? && PhaseOf(s, l).child < |s.cells| && l in s.list
    case DeleteBegin(l) => PhaseOf(s, l).Idle? && HasPred(s, l) && forall k :: s.home(k) == l ==> !Live(s, k)
    case LoadPrev(l) => PhaseOf(s, l).Deleting? && HasPred(s, l)
    case LoadTs(l) => PhaseOf(s, l).HavePrev? && PhaseOf(s, l).prev < |s.cells|
    case Swap(l) => PhaseOf(s, l).HaveTs? && PhaseOf(s, l).prev < |s.cells|
    case Check(l) => PhaseOf(s, l).Merged? && HasPred(s, l)
    case Unlink(l) => PhaseOf(s, l).Settled? && HasPred(s, l)
  }

  function SetPhase(s: State, l: nat, ph: Phase): State
    requires l < |s.cells|
  {
    s.(cells := s.cells[l := s.cells[l].(phase := ph)])
  }

  function SetTs(s: State, l: nat, ts: nat): State
    requires l < |s.cells|
  {
    s.(cells := s.cells[l := s.cells[l].(ts := ts)])
  }

  function Logged(s: State, k: Key, q: Record): State {
    s.(log := s.log[k := Log(s, k) + [q]])
  }

  /** `update_timestamp(x)` for a row's timestamp `x` */
  function Updated(clock: nat, x: nat): nat {
    if clock <= x then Mark(x) + 1 else clock
  }

  /** The timestamp a put gives the row: `update_timestamp` on a live row, else `advance_timestamp` by the
      leaf's. */
  function PutTs(s: State, t: nat, k: Key): nat
    requires t < |s.clocks|
  {
    if Live(s, k) then Updated(s.clocks[t], Last(s, k))
    else if s.clocks[t] < HomeTs(s, k) then HomeTs(s, k) else s.clocks[t]
  }

  function After(list: seq<nat>, l: nat, c: nat): seq<nat>
    requires l in list
  {
    if list[0] == l then [l, c] + list[1..] else [list[0]] + After(list[1..], l, c)
  }

  function Dropped(list: seq<nat>, l: nat): seq<nat> {
    if list == [] then [] else if list[0] == l then list[1..] else [list[0]] + Dropped(list[1..], l)
  }

  function Next(s: State, step: Step): State
    requires Enabled(s, step)
  {
    match step
    case PutRow(t, k, change) =>
      var ts := PutTs(s, t, k);
      Logged(s.(clocks := s.clocks[t := ts]), k,
             if Live(s, k) then Modify(ts, Last(s, k), change) else Record.Put(ts, change))
    case RemoveRead(t, k) =>
      var ts := Updated(s.clocks[t], Last(s, k));
      SetPhase(s.(clocks := s.clocks[t := ts]), s.home(k), Removing(k, ts, HomeTs(s, k)))
    case RemoveWrite(l) =>
      var ph := s.cells[l].phase;
      Logged(SetPhase(if ph.seen <= ph.ts then SetTs(s, l, ph.ts + 2) else s, l, Idle), ph.key, Remove(ph.ts))
    case SplitCopy(l) =>
      SetPhase(s, l, Splitting(|s.cells|)).(cells := SetPhase(s, l, Splitting(|s.cells|)).cells + [Cell(s.cells[l].ts, New)])
    case SplitLink(l, moved) =>
      var c := s.cells[l].phase.child;
      SetPhase(SetPhase(s, c, Idle), l, Idle).(
        list := After(s.list, l, c), home := k => if s.home(k) == l && moved(k) then c else s.home(k))
    case DeleteBegin(l) => SetPhase(s, l, Deleting)
    case LoadPrev(l) => SetPhase(s, l, HavePrev(Pred(s.list, l)))
    case LoadTs(l) => SetPhase(s, l, HaveTs(s.cells[l].phase.prev, s.cells[s.cells[l].phase.prev].ts))
    case Swap(l) =>
      var p, seen, mine := s.cells[l].phase.prev, s.cells[l].phase.seen, s.cells[l].ts;
      if seen >= mine then SetPhase(s, l, Merged(p, mine))
      else if s.cells[p].ts == seen then SetPhase(SetTs(s, p, mine), l, Merged(p, mine))
      else SetPhase(s, l, HavePrev(p))
    case Check(l) =>
      var ph := s.cells[l].phase;
      SetPhase(s, l, if Pred(s.list, l) == ph.prev then Settled(ph.prev, ph.value) else Deleting)
    case Unlink(l) =>
      var p := Pred(s.list, l);
      SetPhase(s, l, Gone).(list := Dropped(s.list, l), home := k => if s.home(k) == l then p else s.home(k))
  }

  /** The first leaf, and clocks as threads start with them. */
  function Init(threads: nat): State {
    State([Cell(0, Idle)], [0], _ => 0, seq(threads, _ => 2), map[])
  }

  ghost function Run(threads: nat, steps: seq<Step>): State {
    if steps == [] then Init(threads)
    else
      var s := Run(threads, steps[..|steps| - 1]);
      if Enabled(s, steps[|steps| - 1]) then Next(s, steps[|steps| - 1]) else s
  }

  // ----- what holds in every run -----

  ghost predicate CellOk(s: State, l: nat)
    requires l < |s.cells|
  {
    match s.cells[l].phase
    case Removing(k, ts, seen) =>
      s.home(k) == l && Live(s, k) && Last(s, k) < ts && seen <= s.cells[l].ts && ts % 2 == 0
    case Splitting(c) => c < |s.cells|
    case HavePrev(p) => p < |s.cells|
    case HaveTs(p, _) => p < |s.cells|
    case Merged(p, _) => p < |s.cells|
    case Settled(p, _) => p < |s.cells|
    case _ => true
  }

  ghost predicate Shape(s: State) {
    && (forall k {:trigger s.home(k)} :: s.home(k) < |s.cells|)
    && (forall i {:trigger s.list[i]} :: 0 <= i < |s.list| ==> s.list[i] < |s.cells|)
    && (forall l {:trigger CellOk(s, l)} :: 0 <= l < |s.cells| ==> CellOk(s, l) && s.cells[l].ts % 2 == 0)
    && (forall t {:trigger s.clocks[t]} :: 0 <= t < |s.clocks| ==> s.clocks[t] % 2 == 0 && s.clocks[t] > 0)
  }

  // ----- when a step loses a removal -----

  /** The step leaves the key with a leaf whose timestamp is not above its removal. */
  ghost predicate Loses(s: State, step: Step, k: Key)
    requires Enabled(s, step)
  {
    Removed(s, k) && match step
      case RemoveWrite(l) =>
        s.home(k) == l && s.cells[l].phase.seen <= s.cells[l].phase.ts && s.cells[l].phase.ts + 2 <= Last(s, k)
      case SplitLink(l, moved) => s.home(k) == l && moved(k) && s.cells[s.cells[l].phase.child].ts <= Last(s, k)
      case Unlink(l) =>
        s.home(k) == l && Pred(s.list, l) < |s.cells| && s.cells[Pred(s.list, l)].ts <= Last(s, k)
      case _ => false
  }

  /** A removal's write: the leaf may end below another key's removal. */
  lemma WriteKeeps(s: State, step: Step, k: Key)
    requires Shape(s) && Enabled(s, step) && Covered(s, k) && step.RemoveWrite?
    ensures Covered(Next(s, step), k) <==> !Loses(s, step, k)
  {
    assert s.home(k) < |s.cells| && CellOk(s, step.leaf);
  }

  /** Linking and unlinking give keys another leaf. */
  lemma MoveKeeps(s: State, step: Step, k: Key)
    requires Shape(s) && Enabled(s, step) && Covered(s, k) && (step.SplitLink? || step.Unlink?)
    ensures Covered(Next(s, step), k) <==> !Loses(s, step, k)
  {
    assert s.home(k) < |s.cells| && CellOk(s, step.leaf);
    if step.Unlink? { PredIn(s, step.leaf); }
  }

  /** A covered key stays covered through a step exactly if the step is not the write of a removal that
      read too early, the link of a leaf copied too early, or an unlink toward a leaf that does not have the
      timestamp. */
  lemma NodeTsKept(s: State, step: Step, k: Key)
    requires Shape(s) && Enabled(s, step) && Covered(s, k)
    ensures Covered(Next(s, step), k) <==> !Loses(s, step, k)
  {
    match step
    case RemoveWrite(_) => WriteKeeps(s, step, k);
    case SplitLink(_, _) => MoveKeeps(s, step, k);
    case Unlink(_) => MoveKeeps(s, step, k);
    case Swap(l) => assert s.home(k) < |s.cells| && CellOk(s, l);
    case _ => assert s.home(k) < |s.cells|;
  }

  lemma PredIn(s: State, l: nat)
    requires Shape(s) && HasPred(s, l)
    ensures Pred(s.list, l) < |s.cells|
  {
    var i :| 0 <= i < |s.list| && s.list[i] == Pred(s.list, l);
  }

  // ----- every step keeps the shape -----

  /** Changing one leaf's cell to something right, and nothing else. */
  lemma OneCell(s: State, t: State, l: nat)
    requires Shape(s) && l < |s.cells| && t == s.(cells := t.cells) && |t.cells| == |s.cells|
    requires forall m {:trigger t.cells[m]} :: 0 <= m < |s.cells| && m != l ==> t.cells[m] == s.cells[m]
    requires CellOk(t, l) && t.cells[l].ts % 2 == 0
    ensures Shape(t)
  {
    forall m | 0 <= m < |t.cells| ensures CellOk(t, m) && t.cells[m].ts % 2 == 0 {
      if m != l { assert CellOk(s, m); }
    }
  }

  lemma PutShape(s: State, step: Step)
    requires Shape(s) && Enabled(s, step) && step.PutRow?
    ensures Shape(Next(s, step))
  {
    var t, h := Next(s, step), s.home(step.key);
    assert CellOk(s, h);
    forall m | 0 <= m < |t.cells| ensures CellOk(t, m) && t.cells[m].ts % 2 == 0 {
      assert CellOk(s, m);
    }
  }

  lemma RemoveReadShape(s: State, step: Step)
    requires Shape(s) && Enabled(s, step) && step.RemoveRead?
    ensures Shape(Next(s, step))
  {
    var t, h := Next(s, step), s.home(step.key);
    forall m | 0 <= m < |t.cells| ensures CellOk(t, m) && t.cells[m].ts % 2 == 0 {
      assert CellOk(s, m);
    }
  }

  lemma RemoveWriteShape(s: State, step: Step)
    requires Shape(s) && Enabled(s, step) && step.RemoveWrite?
    ensures Shape(Next(s, step))
  {
    var t := Next(s, step);
    assert CellOk(s, step.leaf);
    forall m | 0 <= m < |t.cells| ensures CellOk(t, m) && t.cells[m].ts % 2 == 0 {
      assert CellOk(s, m);
    }
  }

  lemma SplitShape(s: State, step: Step)
    requires Shape(s) && Enabled(s, step) && (step.SplitCopy? || step.SplitLink?)
    ensures Shape(Next(s, step))
  {
    var t := Next(s, step);
    assert CellOk(s, step.leaf);
    forall m | 0 <= m < |t.cells| ensures CellOk(t, m) && t.cells[m].ts % 2 == 0 {
      if m < |s.cells| { assert CellOk(s, m); }
    }
    if step.SplitLink? {
      AfterIn(s.list, step.leaf, s.cells[step.leaf].phase.child);
      forall i | 0 <= i < |t.list| ensures t.list[i] < |t.cells| {
        assert t.list[i] in t.list;
      }
    }
  }

  lemma {:induction false} AfterIn(list: seq<nat>, l: nat, c: nat)
    requires l in list
    ensures forall x :: x in After(list, l, c) ==> x in list || x == c
  {
    if list[0] != l { AfterIn(list[1..], l, c); }
  }

  lemma {:induction false} DroppedIn(list: seq<nat>, l: nat)
    ensures forall x :: x in Dropped(list, l) ==> x in list
  {
    if list != [] && list[0] != l { DroppedIn(list[1..], l); }
  }

  lemma DeleteShape(s: State, step: Step)
    requires Shape(s) && Enabled(s, step) && (step.DeleteBegin? || step.LoadPrev? || step.LoadTs? || step.Check?)
    ensures Shape(Next(s, step))
  {
    assert CellOk(s, step.leaf);
    if step.LoadPrev? { PredIn(s, step.leaf); }
    OneCell(s, Next(s, step), step.leaf);
  }

  lemma SwapShape(s: State, step: Step)
    requires Shape(s) && Enabled(s, step) && step.Swap?
    ensures Shape(Next(s, step))
  {
    var t := Next(s, step);
    assert CellOk(s, step.leaf);
    forall m | 0 <= m < |t.cells| ensures CellOk(t, m) && t.cells[m].ts % 2 == 0 {
      assert CellOk(s, m);
    }
  }

  lemma UnlinkShape(s: State, step: Step)
    requires Shape(s) && Enabled(s, step) && step.Unlink?
    ensures Shape(Next(s, step))
  {
    var t := Next(s, step);
    PredIn(s, step.leaf);
    DroppedIn(s.list, step.leaf);
    forall i | 0 <= i < |t.list| ensures t.list[i] < |t.cells| {
      assert t.list[i] in t.list;
    }
    forall m | 0 <= m < |t.cells| ensures CellOk(t, m) && t.cells[m].ts % 2 == 0 {
      assert CellOk(s, m);
    }
  }

  lemma StepShape(s: State, step: Step)
    requires Shape(s) && Enabled(s, step)
    ensures Shape(Next(s, step))
  {
    match step
    case PutRow(_, _, _) => PutShape(s, step);
    case RemoveRead(_, _) => RemoveReadShape(s, step);
    case RemoveWrite(_) => RemoveWriteShape(s, step);
    case SplitCopy(_) => SplitShape(s, step);
    case SplitLink(_, _) => SplitShape(s, step);
    case Swap(_) => SwapShape(s, step);
    case Unlink(_) => UnlinkShape(s, step);
    case _ => DeleteShape(s, step);
  }

  lemma {:induction false} RunShape(threads: nat, steps: seq<Step>)
    ensures Shape(Run(threads, steps))
  {
    if steps != [] {
      RunShape(threads, steps[..|steps| - 1]);
      var s := Run(threads, steps[..|steps| - 1]);
      if Enabled(s, steps[|steps| - 1]) { StepShape(s, steps[|steps| - 1]); }
    } else {
      assert CellOk(Init(threads), 0);
    }
  }

  // ----- exactly when -----

  ghost predicate AllCovered(s: State) {
    forall k {:trigger Covered(s, k)} :: Covered(s, k)
  }

  ghost predicate LosesSome(s: State, step: Step) {
    Enabled(s, step) && exists k :: Loses(s, step, k)
  }

  function Prefix(steps: seq<Step>, i: nat): seq<Step> {
    if i <= |steps| then steps[..i] else steps
  }

  /** At every moment of the run every removed key is covered. */
  ghost predicate AlwaysCovered(threads: nat, steps: seq<Step>) {
    forall i {:trigger Prefix(steps, i)} :: 0 <= i <= |steps| ==> AllCovered(Run(threads, Prefix(steps, i)))
  }

  /** No step of the run loses a key. */
  ghost predicate NeverLoses(threads: nat, steps: seq<Step>) {
    forall i {:trigger Prefix(steps, i)} :: 0 <= i < |steps| ==> !LosesSome(Run(threads, Prefix(steps, i)), steps[i])
  }

  lemma RunNext(threads: nat, steps: seq<Step>, i: nat)
    requires i < |steps|
    ensures var s := Run(threads, Prefix(steps, i));
      Run(threads, Prefix(steps, i + 1)) == if Enabled(s, steps[i]) then Next(s, steps[i]) else s
  {
    assert Prefix(steps, i + 1)[..i] == Prefix(steps, i);
  }

  lemma CoveredStep(threads: nat, steps: seq<Step>, i: nat)
    requires i < |steps| && AllCovered(Run(threads, Prefix(steps, i)))
    ensures AllCovered(Run(threads, Prefix(steps, i + 1))) <==> !LosesSome(Run(threads, Prefix(steps, i)), steps[i])
  {
    var s, t := Run(threads, Prefix(steps, i)), Run(threads, Prefix(steps, i + 1));
    RunShape(threads, Prefix(steps, i));
    RunNext(threads, steps, i);
    if Enabled(s, steps[i]) {
      forall k ensures Covered(t, k) <==> !Loses(s, steps[i], k) {
        assert Covered(s, k);
        NodeTsKept(s, steps[i], k);
      }
    }
  }

  lemma {:induction false} CoveredUpTo(threads: nat, steps: seq<Step>, n: nat)
    requires n <= |steps| && NeverLoses(threads, steps)
    ensures AllCovered(Run(threads, Prefix(steps, n)))
  {
    if n > 0 {
      CoveredUpTo(threads, steps, n - 1);
      CoveredStep(threads, steps, n - 1);
    }
  }

  /** For every run: all removed keys are covered all the time if and only if no step loses one. */
  lemma CoveredExactly(threads: nat, steps: seq<Step>)
    ensures AlwaysCovered(threads, steps) <==> NeverLoses(threads, steps)
  {
    if NeverLoses(threads, steps) {
      forall i | 0 <= i <= |steps| ensures AllCovered(Run(threads, Prefix(steps, i))) { CoveredUpTo(threads, steps, i); }
    }
    if AlwaysCovered(threads, steps) {
      forall i | 0 <= i < |steps| ensures !LosesSome(Run(threads, Prefix(steps, i)), steps[i]) {
        assert Prefix(steps, i + 1) == steps[..i + 1];
        CoveredStep(threads, steps, i);
      }
    }
  }

  // ----- what it means for the logs -----

  /** The next timestamp of a removed key is later than its removal exactly if the thread's clock is, or the
      key is covered. */
  lemma ReinsertedLater(s: State, t: nat, k: Key, change: Columns)
    requires Enabled(s, PutRow(t, k, change)) && Removed(s, k)
    ensures Last(Next(s, PutRow(t, k, change)), k) > Last(s, k) <==> s.clocks[t] > Last(s, k) || Covered(s, k)
  {
    var n := Next(s, PutRow(t, k, change));
    assert Log(n, k) == Log(s, k) + [Record.Put(PutTs(s, t, k), change)];
  }

  /** A re-insertion by a thread whose clock is not past the removal, in a leaf whose timestamp is not either. */
  ghost predicate Late(s: State, step: Step)
    requires Enabled(s, step)
  {
    && step.PutRow? && Removed(s, step.key)
    && s.clocks[step.thread] <= Last(s, step.key) && HomeTs(s, step.key) <= Last(s, step.key)
  }

  lemma HistoryKept(s: State, step: Step, k: Key)
    requires Shape(s) && Enabled(s, step) && !Late(s, step) && History(Log(s, k))
    ensures History(Log(Next(s, step), k))
  {
    var n, h := Next(s, step), Log(s, k);
    match step
    case PutRow(t, key, change) =>
      if key == k {
        assert CellOk(s, s.home(k));
        assert s.clocks[t] % 2 == 0;
        assert Log(n, k) == h + [if Live(s, k) then Modify(PutTs(s, t, k), Last(s, k), change) else Record.Put(PutTs(s, t, k), change)];
        HistoryGrows(h, Log(n, k)[|h|]);
      }
    case RemoveWrite(l) =>
      assert CellOk(s, l);
      if s.cells[l].phase.key == k {
        assert Log(n, k) == h + [Remove(s.cells[l].phase.ts)];
        HistoryGrows(h, Remove(s.cells[l].phase.ts));
      }
    case _ =>
  }

  lemma LateBreaks(s: State, step: Step)
    requires Enabled(s, step) && Late(s, step)
    ensures !History(Log(Next(s, step), step.key))
  {
    var n, h := Next(s, step), Log(s, step.key);
    assert Log(n, step.key) == h + [Record.Put(PutTs(s, step.thread, step.key), step.change)];
    assert Log(n, step.key)[|h| - 1].ts >= Log(n, step.key)[|h|].ts;
  }

  ghost predicate AllHistories(s: State) {
    forall k {:trigger Log(s, k)} :: History(Log(s, k))
  }

  /** At every moment of the run every key's timestamps strictly increase. */
  ghost predicate AlwaysHistories(threads: nat, steps: seq<Step>) {
    forall i {:trigger Prefix(steps, i)} :: 0 <= i <= |steps| ==> AllHistories(Run(threads, Prefix(steps, i)))
  }

  ghost predicate LateAt(threads: nat, steps: seq<Step>, i: nat)
    requires i < |steps|
  {
    var s := Run(threads, Prefix(steps, i));
    Enabled(s, steps[i]) && Late(s, steps[i])
  }

  ghost predicate NeverLate(threads: nat, steps: seq<Step>) {
    forall i {:trigger LateAt(threads, steps, i)} :: 0 <= i < |steps| ==> !LateAt(threads, steps, i)
  }

  lemma HistoriesStep(threads: nat, steps: seq<Step>, i: nat)
    requires i < |steps| && AllHistories(Run(threads, Prefix(steps, i)))
    ensures AllHistories(Run(threads, Prefix(steps, i + 1))) <==> !LateAt(threads, steps, i)
  {
    var s, n := Run(threads, Prefix(steps, i)), Run(threads, Prefix(steps, i + 1));
    RunShape(threads, Prefix(steps, i));
    RunNext(threads, steps, i);
    if LateAt(threads, steps, i) {
      LateBreaks(s, steps[i]);
    } else if Enabled(s, steps[i]) {
      forall k ensures History(Log(n, k)) {
        assert History(Log(s, k));
        HistoryKept(s, steps[i], k);
      }
    }
  }

  lemma {:induction false} HistoriesUpTo(threads: nat, steps: seq<Step>, n: nat)
    requires n <= |steps| && NeverLate(threads, steps)
    ensures AllHistories(Run(threads, Prefix(steps, n)))
  {
    if n > 0 {
      HistoriesUpTo(threads, steps, n - 1);
      assert !LateAt(threads, steps, n - 1);
      HistoriesStep(threads, steps, n - 1);
    }
  }

  /** For every run: every key's log is a history all the time if and only if no re-insertion is late. */
  lemma HistoriesExactly(threads: nat, steps: seq<Step>)
    ensures AlwaysHistories(threads, steps) <==> NeverLate(threads, steps)
  {
    if NeverLate(threads, steps) {
      forall i | 0 <= i <= |steps| ensures AllHistories(Run(threads, Prefix(steps, i))) { HistoriesUpTo(threads, steps, i); }
    }
    if AlwaysHistories(threads, steps) {
      forall i | 0 <= i < |steps| ensures !LateAt(threads, steps, i) {
        assert Prefix(steps, i + 1) == steps[..i + 1];
        HistoriesStep(threads, steps, i);
      }
    }
  }

  /** Without a loss no re-insertion is late, whatever the clocks are, so every log is a history. */
  lemma HistoriesWithoutLoss(threads: nat, steps: seq<Step>)
    requires NeverLoses(threads, steps)
    ensures NeverLate(threads, steps) && AlwaysHistories(threads, steps)
  {
    forall i | 0 <= i < |steps| ensures !LateAt(threads, steps, i) {
      CoveredUpTo(threads, steps, i);
      if steps[i].PutRow? { assert Covered(Run(threads, Prefix(steps, i)), steps[i].key); }
    }
    HistoriesExactly(threads, steps);
  }

  // ----- runs that do not interfere -----

  /** A step finds the timestamps it has read, and an unlink the predecessor it has merged into, as they were. */
  ghost predicate Unchanged(s: State, step: Step)
    requires Enabled(s, step)
  {
    match step
    case RemoveWrite(l) => s.cells[l].ts == s.cells[l].phase.seen
    case SplitLink(l, _) => s.cells[l].ts == s.cells[s.cells[l].phase.child].ts
    case Unlink(l) => Pred(s.list, l) == s.cells[l].phase.prev && s.cells[l].ts == s.cells[l].phase.value
    case _ => true
  }

  /** What a deletion has read or merged is still there. */
  ghost predicate Fresh(s: State, l: nat)
    requires l < |s.cells|
  {
    match s.cells[l].phase
    case HaveTs(p, seen) => p < |s.cells| && s.cells[p].ts >= seen
    case Merged(p, v) => p < |s.cells| && s.cells[p].ts >= v
    case Settled(p, v) => p < |s.cells| && s.cells[p].ts >= v
    case _ => true
  }

  ghost predicate AllFresh(s: State) {
    forall l {:trigger Fresh(s, l)} :: 0 <= l < |s.cells| ==> Fresh(s, l)
  }

  /** A calm step lowers no leaf's timestamp. */
  lemma CalmGrows(s: State, step: Step, m: nat)
    requires Shape(s) && Enabled(s, step) && Unchanged(s, step) && m < |s.cells|
    ensures m < |Next(s, step).cells| && s.cells[m].ts <= Next(s, step).cells[m].ts
  {
    if step.RemoveWrite? || step.SplitLink? || step.Swap? { assert CellOk(s, step.leaf); }
  }

  /** The leaf a deletion's own step is about. */
  lemma FreshHere(s: State, step: Step)
    requires Shape(s) && AllFresh(s) && Enabled(s, step) && (step.LoadTs? || step.Swap? || step.Check?)
    ensures step.leaf < |Next(s, step).cells| && Fresh(Next(s, step), step.leaf)
  {
    assert CellOk(s, step.leaf) && Fresh(s, step.leaf);
  }

  /** Any other leaf: its phase stays, or is none of a deletion's. */
  lemma FreshThere(s: State, step: Step, m: nat)
    requires Shape(s) && AllFresh(s) && Enabled(s, step) && Unchanged(s, step) && m < |Next(s, step).cells|
    requires (step.LoadTs? || step.Swap? || step.Check?) ==> m != step.leaf
    ensures Fresh(Next(s, step), m)
  {
    if m < |s.cells| {
      var ph := s.cells[m].phase;
      assert Fresh(s, m);
      if (ph.HaveTs? || ph.Merged? || ph.Settled?) && ph.prev < |s.cells| { CalmGrows(s, step, ph.prev); }
    }
  }

  lemma CalmFresh(s: State, step: Step)
    requires Shape(s) && AllFresh(s) && Enabled(s, step) && Unchanged(s, step)
    ensures AllFresh(Next(s, step))
  {
    forall m | 0 <= m < |Next(s, step).cells| ensures Fresh(Next(s, step), m) {
      if (step.LoadTs? || step.Swap? || step.Check?) && m == step.leaf { FreshHere(s, step); } else { FreshThere(s, step, m); }
    }
  }

  lemma CalmKeeps(s: State, step: Step)
    requires Shape(s) && AllFresh(s) && AllCovered(s) && Enabled(s, step) && Unchanged(s, step)
    ensures !LosesSome(s, step)
  {
    forall k ensures !Loses(s, step, k) {
      assert Covered(s, k) && s.home(k) < |s.cells|;
      if step.Unlink? { assert Fresh(s, step.leaf); }
      if step.RemoveWrite? { assert CellOk(s, step.leaf); }
    }
  }

  // ----- history -----

  /** What has happened to a leaf: how often its timestamp has changed, how often it had when an operation in
      progress read it last, and which leaf was before it when a deletion checked. */
  datatype Note = Note(writes: nat, since: nat, at: nat)

  predicate ReadsTs(s: State, step: Step, m: nat) {
    match step
    case RemoveRead(_, k) => s.home(k) == m
    case SplitCopy(l) => l == m
    case Swap(l) => l == m
    case _ => false
  }

  /** A leaf's note after a step from `s` to `t`. */
  function NoteOf(notes: seq<Note>, s: State, step: Step, t: State, m: nat): Note {
    var was := if m < |notes| then notes[m] else Note(0, 0, 0);
    var writes := if m < |s.cells| && m < |t.cells| && s.cells[m].ts != t.cells[m].ts then was.writes + 1 else was.writes;
    Note(writes, if ReadsTs(s, step, m) then writes else was.since,
         if step == Check(m) && HasPred(s, m) then Pred(s.list, m) else was.at)
  }

  function NotesAfter(notes: seq<Note>, s: State, step: Step, t: State): seq<Note> {
    seq(|t.cells|, m requires 0 <= m < |t.cells| => NoteOf(notes, s, step, t, m))
  }

  ghost function NotesOf(threads: nat, steps: seq<Step>): seq<Note> {
    if steps == [] then [Note(0, 0, 0)]
    else
      var front, step := steps[..|steps| - 1], steps[|steps| - 1];
      var s := Run(threads, front);
      if Enabled(s, step) then NotesAfter(NotesOf(threads, front), s, step, Next(s, step)) else NotesOf(threads, front)
  }

  /** What an operation in progress has read is there unless somebody has written meanwhile. */
  ghost predicate Remembers(s: State, notes: seq<Note>, l: nat)
    requires l < |s.cells| == |notes|
  {
    var c, n := s.cells[l], notes[l];
    n.since <= n.writes && match c.phase
      case Removing(_, _, seen) => n.since == n.writes ==> c.ts == seen
      case Splitting(r) => r < |s.cells| && (n.since == n.writes && notes[r].writes == 0 ==> s.cells[r].ts == c.ts)
      case Merged(_, value) => n.since == n.writes ==> c.ts == value
      case Settled(prev, value) => n.at == prev && (n.since == n.writes ==> c.ts == value)
      case _ => true
  }

  ghost predicate AllRemember(s: State, notes: seq<Note>) {
    |notes| == |s.cells| && forall l {:trigger Remembers(s, notes, l)} :: 0 <= l < |s.cells| ==> Remembers(s, notes, l)
  }

  /** The leaf whose operation takes the step. */
  function Actor(s: State, step: Step): nat {
    match step
    case PutRow(_, k, _) => s.home(k)
    case RemoveRead(_, k) => s.home(k)
    case _ => step.leaf
  }

  /** The leaf that acts. */
  lemma ActorRemembers(s: State, notes: seq<Note>, step: Step)
    requires Shape(s) && AllRemember(s, notes) && Enabled(s, step)
    ensures var t, l := Next(s, step), Actor(s, step); l < |t.cells| && Remembers(t, NotesAfter(notes, s, step, t), l)
  {
    assert Remembers(s, notes, Actor(s, step)) && CellOk(s, Actor(s, step));
  }

  /** A leaf whose operation stands still remembers what it did, whatever was written. */
  lemma StillRemembers(s: State, notes: seq<Note>, step: Step, t: State, m: nat)
    requires |notes| == |s.cells| <= |t.cells| && m < |s.cells| && Remembers(s, notes, m)
    requires t.cells[m].phase == s.cells[m].phase && !ReadsTs(s, step, m) && step != Check(m)
    ensures Remembers(t, NotesAfter(notes, s, step, t), m)
  {}

  /** Other leaves stand still, or are new, or become idle. */
  lemma OthersStand(s: State, step: Step, m: nat)
    requires Shape(s) && Enabled(s, step) && m < |Next(s, step).cells| && m != Actor(s, step)
    ensures |s.cells| <= |Next(s, step).cells|
    ensures var ph := Next(s, step).cells[m].phase; ph.Idle? || ph.New? || (m < |s.cells| && ph == s.cells[m].phase)
  {
    if step.Swap? || step.SplitLink? { assert CellOk(s, step.leaf); }
  }

  /** The others. */
  lemma OthersRemember(s: State, notes: seq<Note>, step: Step, m: nat)
    requires Shape(s) && AllRemember(s, notes) && Enabled(s, step) && m < |Next(s, step).cells| && m != Actor(s, step)
    ensures Remembers(Next(s, step), NotesAfter(notes, s, step, Next(s, step)), m)
  {
    OthersStand(s, step, m);
    if m < |s.cells| {
      assert Remembers(s, notes, m);
      if Next(s, step).cells[m].phase == s.cells[m].phase { StillRemembers(s, notes, step, Next(s, step), m); }
    }
  }

  lemma {:induction false} RunRemembers(threads: nat, steps: seq<Step>)
    ensures AllRemember(Run(threads, steps), NotesOf(threads, steps))
  {
    if steps != [] {
      var front, step := steps[..|steps| - 1], steps[|steps| - 1];
      var s, notes := Run(threads, front), NotesOf(threads, front);
      RunRemembers(threads, front);
      RunShape(threads, front);
      if Enabled(s, step) {
        forall m | 0 <= m < |Next(s, step).cells| ensures Remembers(Next(s, step), NotesAfter(notes, s, step, Next(s, step)), m) {
          if m == Actor(s, step) { ActorRemembers(s, notes, step); } else { OthersRemember(s, notes, step, m); }
        }
      }
    }
  }

  /** Nobody changed the leaf's timestamp between a removal's read and its write, or that of either leaf between a
      split's copy and its link; and nobody changed the timestamp of a leaf being deleted after the swap, or put
      another leaf before it after the check. */
  ghost predicate Calm(s: State, notes: seq<Note>, step: Step)
    requires Enabled(s, step)
  {
    match step
    case RemoveWrite(l) => l < |notes| && notes[l].writes == notes[l].since
    case SplitLink(l, _) =>
      var c := s.cells[l].phase.child;
      l < |notes| && c < |notes| && notes[l].writes == notes[l].since && notes[c].writes == 0
    case Unlink(l) => l < |notes| && Pred(s.list, l) == notes[l].at && notes[l].writes == notes[l].since
    case _ => true
  }

  lemma CalmIsUnchanged(s: State, notes: seq<Note>, step: Step)
    requires AllRemember(s, notes) && Enabled(s, step) && Calm(s, notes, step)
    ensures Unchanged(s, step)
  {
    if step.RemoveWrite? || step.SplitLink? || step.Unlink? { assert Remembers(s, notes, step.leaf); }
  }

  ghost predicate CalmRun(threads: nat, steps: seq<Step>) {
    forall i {:trigger Prefix(steps, i)} :: 0 <= i < |steps| && Enabled(Run(threads, Prefix(steps, i)), steps[i]) ==>
      Calm(Run(threads, Prefix(steps, i)), NotesOf(threads, Prefix(steps, i)), steps[i])
  }

  lemma CalmStep(threads: nat, steps: seq<Step>, n: nat)
    requires n < |steps| && CalmRun(threads, steps)
    requires AllCovered(Run(threads, Prefix(steps, n))) && AllFresh(Run(threads, Prefix(steps, n)))
    ensures !LosesSome(Run(threads, Prefix(steps, n)), steps[n])
    ensures AllCovered(Run(threads, Prefix(steps, n + 1))) && AllFresh(Run(threads, Prefix(steps, n + 1)))
  {
    var s := Run(threads, Prefix(steps, n));
    RunShape(threads, Prefix(steps, n));
    if Enabled(s, steps[n]) {
      RunRemembers(threads, Prefix(steps, n));
      CalmIsUnchanged(s, NotesOf(threads, Prefix(steps, n)), steps[n]);
      CalmFresh(s, steps[n]);
      CalmKeeps(s, steps[n]);
    }
    CoveredStep(threads, steps, n);
    RunNext(threads, steps, n);
  }

  /** Calm runs keep everything, whatever the timestamps are. */
  lemma {:induction false} CalmIsCovered(threads: nat, steps: seq<Step>, n: nat)
    requires n <= |steps| && CalmRun(threads, steps)
    ensures AllCovered(Run(threads, Prefix(steps, n))) && AllFresh(Run(threads, Prefix(steps, n)))
  {
    if n > 0 {
      CalmIsCovered(threads, steps, n - 1);
      CalmStep(threads, steps, n - 1);
    }
  }

  /** So with operations that do not interfere, timestamps strictly increase. */
  lemma CalmHistories(threads: nat, steps: seq<Step>)
    requires CalmRun(threads, steps)
    ensures AlwaysCovered(threads, steps) && AlwaysHistories(threads, steps)
  {
    forall i | 0 <= i < |steps| ensures !LosesSome(Run(threads, Prefix(steps, i)), steps[i]) {
      CalmIsCovered(threads, steps, i);
      CalmStep(threads, steps, i);
    }
    CoveredExactly(threads, steps);
    HistoriesWithoutLoss(threads, steps);
  }

  // ----- runs that lose a removal -----

  ghost predicate Reachable(s: State) {
    exists steps :: Run(3, steps) == s
  }

  lemma Reach(s: State, step: Step)
    requires Reachable(s) && Enabled(s, step)
    ensures Reachable(Next(s, step))
  {
    var steps :| Run(3, steps) == s;
    assert (steps + [step])[..|steps|] == steps;
    assert Run(3, steps + [step]) == Next(s, step);
  }

  /** A key's log goes back in time. */
  predicate Backwards(s: State, k: Key) {
    exists i :: 0 < i < |Log(s, k)| && Log(s, k)[i].ts <= Log(s, k)[i - 1].ts
  }

  const P: Key := [1]
  const Q: Key := [2]

  /** What matters of a state with only these two keys. */
  datatype KeyView = KeyView(home: nat, live: bool, last: nat)
  datatype View = View(cells: seq<Cell>, list: seq<nat>, p: KeyView, q: KeyView, clocks: seq<nat>)

  predicate KeyLooks(s: State, k: Key, v: KeyView) {
    s.home(k) == v.home && (if v.live then Live(s, k) else Removed(s, k)) && Last(s, k) == v.last
  }

  ghost predicate Looks(s: State, v: View) {
    && Reachable(s) && s.cells == v.cells && s.list == v.list && s.clocks == v.clocks
    && KeyLooks(s, P, v.p) && KeyLooks(s, Q, v.q)
    && forall k {:trigger Log(s, k)} :: k != P && k != Q ==> Log(s, k) == []
  }

  lemma TwoKeys()
    ensures P != Q
  {
    assert P[0] != Q[0];
  }

  /** The re-insertion that shows the loss. */
  lemma ShowLoss(s: State, v: View) returns (n: State)
    requires Looks(s, v) && |v.clocks| == 3 && v.clocks[2] == 2 && !v.q.live && v.q.last == 8
    requires v.q.home < |v.cells| && v.cells[v.q.home].phase.Idle? && v.cells[v.q.home].ts <= 8
    ensures Reachable(n) && Backwards(n, Q)
  {
    var step := PutRow(2, Q, map[]);
    Reach(s, step);
    n := Next(s, step);
    var i := |Log(s, Q)|;
    assert Log(n, Q)[i].ts <= Log(n, Q)[i - 1].ts;
  }

  /** The loads of a deletion. */
  lemma LoadReaches(s: State, l: nat, p: nat) returns (n: State)
    requires Reachable(s) && l < |s.cells| && p < |s.cells| && l != p && s.cells[l].phase.Idle?
    requires HasPred(s, l) && Pred(s.list, l) == p && (forall k :: s.home(k) == l ==> !Live(s, k))
    ensures Reachable(n) && n == s.(cells := s.cells[l := Cell(s.cells[l].ts, HaveTs(p, s.cells[p].ts))])
  {
    Reach(s, DeleteBegin(l));
    var a := Next(s, DeleteBegin(l));
    Reach(a, LoadPrev(l));
    var b := Next(a, LoadPrev(l));
    Reach(b, LoadTs(l));
    n := Next(b, LoadTs(l));
  }

  /** The steps of a deletion up to the check, when nothing interferes with them. */
  lemma DeleteReaches(s: State, l: nat, p: nat) returns (n: State)
    requires Reachable(s) && l < |s.cells| && p < |s.cells| && l != p && s.cells[l].phase.Idle?
    requires HasPred(s, l) && Pred(s.list, l) == p && (forall k :: s.home(k) == l ==> !Live(s, k))
    requires s.cells[p].ts < s.cells[l].ts
    ensures Reachable(n) && n == s.(cells := n.cells)
    ensures n.cells == s.cells[p := s.cells[p].(ts := s.cells[l].ts)][l := Cell(s.cells[l].ts, Settled(p, s.cells[l].ts))]
  {
    var c := LoadReaches(s, l, p);
    Reach(c, Swap(l));
    var d := Next(c, Swap(l));
    Reach(d, Check(l));
    n := Next(d, Check(l));
  }

  lemma Delete(s: State, v: View, l: nat, p: nat) returns (n: State, w: View)
    requires Looks(s, v) && l < |v.cells| && p < |v.cells| && l != p && v.cells[l].phase.Idle? && v.cells[p].ts < v.cells[l].ts
    requires l in v.list && v.list[0] != l && Pred(v.list, l) == p
    requires (v.p.home == l ==> !v.p.live) && (v.q.home == l ==> !v.q.live)
    ensures Looks(n, w)
    ensures w == v.(cells := v.cells[p := v.cells[p].(ts := v.cells[l].ts)][l := Cell(v.cells[l].ts, Settled(p, v.cells[l].ts))])
  {
    forall k | s.home(k) == l ensures !Live(s, k) {
      if k != P && k != Q { assert Log(s, k) == []; }
    }
    n := DeleteReaches(s, l, p);
    w := v.(cells := n.cells);
    forall k | k != P && k != Q ensures Log(n, k) == [] { assert Log(s, k) == []; }
  }

  lemma Unlinks(s: State, v: View, l: nat) returns (n: State, w: View)
    requires Looks(s, v) && l < |v.cells| && v.cells[l].phase.Settled? && l in v.list && v.list[0] != l
    ensures Looks(n, w)
    ensures var p := Pred(v.list, l);
      w == View(v.cells[l := v.cells[l].(phase := Gone)], Dropped(v.list, l),
                v.p.(home := if v.p.home == l then p else v.p.home), v.q.(home := if v.q.home == l then p else v.q.home), v.clocks)
  {
    Reach(s, Unlink(l));
    n := Next(s, Unlink(l));
    var p := Pred(v.list, l);
    w := View(v.cells[l := v.cells[l].(phase := Gone)], Dropped(v.list, l),
              v.p.(home := if v.p.home == l then p else v.p.home), v.q.(home := if v.q.home == l then p else v.q.home), v.clocks);
    forall k | k != P && k != Q ensures Log(n, k) == [] { assert Log(s, k) == []; }
  }

  lemma Copies(s: State, v: View, l: nat) returns (n: State, w: View)
    requires Looks(s, v) && l < |v.cells| && v.cells[l].phase.Idle?
    ensures Looks(n, w)
    ensures w == v.(cells := v.cells[l := Cell(v.cells[l].ts, Splitting(|v.cells|))] + [Cell(v.cells[l].ts, New)])
  {
    Reach(s, SplitCopy(l));
    n := Next(s, SplitCopy(l));
    w := v.(cells := n.cells);
    forall k | k != P && k != Q ensures Log(n, k) == [] { assert Log(s, k) == []; }
  }

  lemma Linking(s: State, l: nat, moved: Key -> bool) returns (n: State)
    requires Reachable(s) && PhaseOf(s, l).Splitting? && l in s.list && PhaseOf(s, l).child < |s.cells| && PhaseOf(s, l).child != l
    ensures var c := s.cells[l].phase.child;
      && Reachable(n) && n.cells == s.cells[c := Cell(s.cells[c].ts, Idle)][l := Cell(s.cells[l].ts, Idle)]
      && n.list == After(s.list, l, c) && n.clocks == s.clocks && n.log == s.log
      && n.home(P) == (if s.home(P) == l && moved(P) then c else s.home(P))
      && n.home(Q) == (if s.home(Q) == l && moved(Q) then c else s.home(Q))
  {
    Reach(s, SplitLink(l, moved));
    n := Next(s, SplitLink(l, moved));
  }

  lemma Links(s: State, v: View, l: nat, moveP: bool, moveQ: bool) returns (n: State, w: View)
    requires Looks(s, v) && l < |v.cells| && v.cells[l].phase.Splitting? && l in v.list
    requires v.cells[l].phase.child < |v.cells| && v.cells[l].phase.child != l
    ensures Looks(n, w)
    ensures var c := v.cells[l].phase.child;
      w == View(v.cells[c := Cell(v.cells[c].ts, Idle)][l := Cell(v.cells[l].ts, Idle)], After(v.list, l, c),
                v.p.(home := if v.p.home == l && moveP then c else v.p.home),
                v.q.(home := if v.q.home == l && moveQ then c else v.q.home), v.clocks)
  {
    TwoKeys();
    n := Linking(s, l, k => (k == P && moveP) || (k == Q && moveQ));
    w := View(n.cells, n.list, v.p.(home := n.home(P)), v.q.(home := n.home(Q)), v.clocks);
    forall k | k != P && k != Q ensures Log(n, k) == [] { assert Log(s, k) == []; }
  }

  /** The view of one key, changed. */
  function SetKey(v: View, k: Key, kv: KeyView): View {
    if k == P then v.(p := kv) else v.(q := kv)
  }

  lemma Puts(s: State, v: View, t: nat, k: Key) returns (n: State, w: View)
    requires Looks(s, v) && t < |v.clocks| && (k == P || k == Q)
    requires var kv := if k == P then v.p else v.q;
      kv.live && kv.home < |v.cells| && v.cells[kv.home].phase.Idle? && v.clocks[t] == kv.last && kv.last % 2 == 0
    ensures Looks(n, w)
    ensures var kv := if k == P then v.p else v.q;
      w == SetKey(v, k, kv.(last := kv.last + 2)).(clocks := v.clocks[t := kv.last + 2])
  {
    TwoKeys();
    var kv := if k == P then v.p else v.q;
    Reach(s, PutRow(t, k, map[]));
    n := Next(s, PutRow(t, k, map[]));
    assert Log(n, k)[|Log(s, k)|].ts == kv.last + 2;
    w := SetKey(v, k, kv.(last := kv.last + 2)).(clocks := v.clocks[t := kv.last + 2]);
    forall j | j != P && j != Q ensures Log(n, j) == [] { assert Log(s, j) == []; }
  }

  lemma Reads(s: State, v: View, t: nat, k: Key) returns (n: State, w: View)
    requires Looks(s, v) && t < |v.clocks| && (k == P || k == Q)
    requires var kv := if k == P then v.p else v.q;
      kv.live && kv.home < |v.cells| && v.cells[kv.home].phase.Idle? && v.clocks[t] == kv.last && kv.last % 2 == 0
    ensures Looks(n, w)
    ensures var kv := if k == P then v.p else v.q;
      var ts := v.cells[kv.home].ts;
      w == v.(cells := v.cells[kv.home := Cell(ts, Removing(k, kv.last + 2, ts))], clocks := v.clocks[t := kv.last + 2])
  {
    Reach(s, RemoveRead(t, k));
    n := Next(s, RemoveRead(t, k));
    w := v.(cells := n.cells, clocks := n.clocks);
    forall j | j != P && j != Q ensures Log(n, j) == [] { assert Log(s, j) == []; }
  }

  lemma Writes(s: State, v: View, l: nat) returns (n: State, w: View)
    requires Looks(s, v) && l < |v.cells| && v.cells[l].phase.Removing? && v.cells[l].phase.seen <= v.cells[l].phase.ts
    requires var k := v.cells[l].phase.key; k == P || k == Q
    ensures Looks(n, w)
    ensures var ph := v.cells[l].phase;
      w == SetKey(v, ph.key, KeyView((if ph.key == P then v.p else v.q).home, false, ph.ts)).(cells := v.cells[l := Cell(ph.ts + 2, Idle)])
  {
    TwoKeys();
    var ph := v.cells[l].phase;
    Reach(s, RemoveWrite(l));
    n := Next(s, RemoveWrite(l));
    assert Log(n, ph.key)[|Log(s, ph.key)|].ts == ph.ts;
    w := SetKey(v, ph.key, KeyView((if ph.key == P then v.p else v.q).home, false, ph.ts)).(cells := v.cells[l := Cell(ph.ts + 2, Idle)]);
    forall j | j != P && j != Q ensures Log(n, j) == [] { assert Log(s, j) == []; }
  }

  /** Both keys are put once, into one leaf. */
  lemma FirstPuts() returns (s: State, v: View)
    ensures Looks(s, v) && v == View([Cell(0, Idle)], [0], KeyView(0, true, 2), KeyView(0, true, 2), [2, 2, 2])
  {
    TwoKeys();
    var s0 := Init(3);
    assert Run(3, []) == s0;
    Reach(s0, PutRow(0, Q, map[]));
    var s1 := Next(s0, PutRow(0, Q, map[]));
    assert s1.clocks == [2, 2, 2] && Log(s1, Q) == [Record.Put(2, map[])];
    Reach(s1, PutRow(1, P, map[]));
    s := Next(s1, PutRow(1, P, map[]));
    assert s.clocks == [2, 2, 2] && Log(s, P) == [Record.Put(2, map[])] && Log(s, Q) == Log(s1, Q);
    v := View([Cell(0, Idle)], [0], KeyView(0, true, 2), KeyView(0, true, 2), [2, 2, 2]);
  }

  lemma LaterPuts() returns (s: State, v: View)
    ensures Looks(s, v) && v == View([Cell(0, Idle)], [0], KeyView(0, true, 2), KeyView(0, true, 6), [6, 2, 2])
  {
    TwoKeys();
    s, v := FirstPuts();
    s, v := Puts(s, v, 0, Q);
    s, v := Puts(s, v, 0, Q);
    assert v.clocks == [6, 2, 2];
  }

  lemma FirstSplit() returns (s: State, v: View)
    ensures Looks(s, v) && v == View([Cell(0, Idle), Cell(0, Idle)], [0, 1], KeyView(1, true, 2), KeyView(1, true, 6), [6, 2, 2])
  {
    assert After([0], 0, 1) == [0, 1] by { Neighbours(); }
    s, v := LaterPuts();
    s, v := Copies(s, v, 0);
    assert v.cells == [Cell(0, Splitting(1)), Cell(0, New)];
    s, v := Links(s, v, 0, true, true);
    assert v.cells == [Cell(0, Idle), Cell(0, Idle)];
  }

  lemma SecondSplit() returns (s: State, v: View)
    ensures Looks(s, v)
    ensures v == View([Cell(0, Idle), Cell(0, Idle), Cell(0, Idle)], [0, 1, 2], KeyView(1, true, 2), KeyView(2, true, 6), [6, 2, 2])
  {
    assert After([0, 1], 1, 2) == [0, 1, 2] by { Neighbours(); }
    s, v := FirstSplit();
    s, v := Copies(s, v, 1);
    assert v.cells == [Cell(0, Idle), Cell(0, Splitting(2)), Cell(0, New)];
    s, v := Links(s, v, 1, false, true);
    assert v.cells == [Cell(0, Idle), Cell(0, Idle), Cell(0, Idle)];
  }

  /** Three leaves; `Q` was removed from the last at 8, and `P` is live in the one before. */
  function Scene(): View {
    View([Cell(0, Idle), Cell(0, Idle), Cell(10, Idle)], [0, 1, 2], KeyView(1, true, 2), KeyView(2, false, 8), [8, 2, 2])
  }

  lemma SetScene() returns (s: State, v: View)
    ensures Looks(s, v) && v == Scene()
  {
    TwoKeys();
    s, v := SecondSplit();
    s, v := Reads(s, v, 0, Q);
    assert v.cells == [Cell(0, Idle), Cell(0, Idle), Cell(0, Removing(Q, 8, 0))];
    s, v := Writes(s, v, 2);
    assert v.cells == [Cell(0, Idle), Cell(0, Idle), Cell(10, Idle)];
    assert v.clocks == [8, 2, 2];
  }

  lemma Neighbours()
    ensures Pred([0, 1, 2], 2) == 1 && Pred([0, 1, 2], 1) == 0 && Pred([0, 2], 2) == 0 && Pred([0, 1], 1) == 0
    ensures Pred([0, 1, 3, 2], 2) == 3 && After([0, 1, 2], 1, 3) == [0, 1, 3, 2]
    ensures After([0], 0, 1) == [0, 1] && After([0, 1], 1, 2) == [0, 1, 2]
    ensures Dropped([0, 1, 2], 2) == [0, 1] && Dropped([0, 1, 2], 1) == [0, 2]
  {
    assert [0, 1, 2][1..] == [1, 2] && [1, 2][1..] == [2] && [2][1..] == [] && [0][1..] == [] && [0, 1][1..] == [1];
    assert [0, 1, 3, 2][1..] == [1, 3, 2] && [1, 3, 2][1..] == [3, 2];
    assert Dropped([2], 2) == [] && Dropped([1, 2], 2) == [1] + Dropped([2], 2);
    assert Pred([1, 3, 2], 2) == Pred([3, 2], 2);
    assert After([1], 1, 2) == [1, 2];
  }

  /** A removal of `P` has read its leaf's timestamp. */
  lemma RemovalStarts() returns (s: State, v: View)
    ensures Looks(s, v)
    ensures v == Scene().(cells := [Cell(0, Idle), Cell(0, Removing(P, 4, 0)), Cell(10, Idle)], clocks := [8, 4, 2])
  {
    s, v := SetScene();
    s, v := Reads(s, v, 1, P);
    assert v.cells == [Cell(0, Idle), Cell(0, Removing(P, 4, 0)), Cell(10, Idle)] && v.clocks == [8, 4, 2];
  }

  /** A split of the middle leaf has copied its timestamp, and the last leaf has merged into it since. */
  lemma SplitStarts() returns (s: State, v: View)
    ensures Looks(s, v)
    ensures v == Scene().(cells := [Cell(0, Idle), Cell(10, Splitting(3)), Cell(10, Settled(1, 10)), Cell(0, New)])
  {
    assert Pred([0, 1, 2], 2) == 1 by { Neighbours(); }
    s, v := SetScene();
    s, v := Copies(s, v, 1);
    assert v.cells == [Cell(0, Idle), Cell(0, Splitting(3)), Cell(10, Idle), Cell(0, New)];
    s, v := Delete(s, v, 2, 1);
    assert v.cells == [Cell(0, Idle), Cell(10, Splitting(3)), Cell(10, Settled(1, 10)), Cell(0, New)];
  }

  /** A merge between a removal's read and its write is overwritten. */
  lemma NodeTsLost() returns (n: State)
    ensures Reachable(n) && Backwards(n, Q)
  {
    assert Pred([0, 1, 2], 2) == 1 && Dropped([0, 1, 2], 2) == [0, 1] by { Neighbours(); }
    TwoKeys();
    var s, v := RemovalStarts();
    s, v := Delete(s, v, 2, 1);
    assert v.cells == [Cell(0, Idle), Cell(10, Removing(P, 4, 0)), Cell(10, Settled(1, 10))];
    s, v := Unlinks(s, v, 2);
    assert v.cells == [Cell(0, Idle), Cell(10, Removing(P, 4, 0)), Cell(10, Gone)];
    s, v := Writes(s, v, 1);
    n := ShowLoss(s, v);
  }

  /** The new leaf is linked between the two. */
  lemma LinkedMeanwhile() returns (s: State, v: View)
    ensures Looks(s, v) && v.list == [0, 1, 3, 2] && v.q == KeyView(2, false, 8) && |v.clocks| == 3 && v.clocks[2] == 2
    ensures v.cells == [Cell(0, Idle), Cell(10, Idle), Cell(10, Settled(1, 10)), Cell(0, Idle)]
  {
    assert After([0, 1, 2], 1, 3) == [0, 1, 3, 2] by { Neighbours(); }
    s, v := SplitStarts();
    s, v := Links(s, v, 1, false, false);
    assert v.cells == [Cell(0, Idle), Cell(10, Idle), Cell(10, Settled(1, 10)), Cell(0, Idle)];
  }

  /** A leaf split off from the predecessor takes its place with a timestamp copied before the merge. */
  lemma LostToNewLeaf() returns (n: State)
    ensures Reachable(n) && Backwards(n, Q)
  {
    var s, v := LinkedMeanwhile();
    var p := Pred(v.list, 2);
    assert p == 3 by { Neighbours(); }
    s, v := Unlinks(s, v, 2);
    n := ShowLoss(s, v);
  }

  /** Or it takes over the deleted leaf's keys itself, when the deletion ends before the link. */
  lemma LostByLink() returns (n: State)
    ensures Reachable(n) && Backwards(n, Q)
  {
    assert Pred([0, 1, 2], 2) == 1 && Dropped([0, 1, 2], 2) == [0, 1] by { Neighbours(); }
    var s, v := SplitStarts();
    s, v := Unlinks(s, v, 2);
    assert v.cells == [Cell(0, Idle), Cell(10, Splitting(3)), Cell(10, Gone), Cell(0, New)];
    s, v := Links(s, v, 1, false, true);
    n := ShowLoss(s, v);
  }

  /** The middle leaf is on the way out, merged into the first. */
  lemma OneDeletion() returns (s: State, v: View)
    ensures Looks(s, v) && v.list == [0, 1, 2] && v.p == KeyView(1, false, 4) && v.q == KeyView(2, false, 8)
    ensures |v.clocks| == 3 && v.clocks[2] == 2 && v.cells == [Cell(6, Idle), Cell(6, Settled(0, 6)), Cell(10, Idle)]
  {
    assert Pred([0, 1, 2], 1) == 0 by { Neighbours(); }
    TwoKeys();
    s, v := RemovalStarts();
    s, v := Writes(s, v, 1);
    assert v.cells == [Cell(0, Idle), Cell(6, Idle), Cell(10, Idle)];
    s, v := Delete(s, v, 1, 0);
    assert v.cells == [Cell(6, Idle), Cell(6, Settled(0, 6)), Cell(10, Idle)];
  }

  /** The last leaf is too, merged into the middle one afterwards. */
  lemma TwoDeletions() returns (s: State, v: View)
    ensures Looks(s, v) && v.list == [0, 1, 2] && v.q == KeyView(2, false, 8) && |v.clocks| == 3 && v.clocks[2] == 2
    ensures v.cells == [Cell(6, Idle), Cell(10, Settled(0, 6)), Cell(10, Settled(1, 10))]
  {
    assert Pred([0, 1, 2], 2) == 1 by { Neighbours(); }
    s, v := OneDeletion();
    s, v := Delete(s, v, 2, 1);
    assert v.cells == [Cell(6, Idle), Cell(10, Settled(0, 6)), Cell(10, Settled(1, 10))];
  }

  /** The leaf before goes first, and its own predecessor never got the timestamp. */
  lemma LostToPredecessor() returns (n: State)
    ensures Reachable(n) && Backwards(n, Q)
  {
    assert Pred([0, 1, 2], 1) == 0 && Dropped([0, 1, 2], 1) == [0, 2] && Pred([0, 2], 2) == 0 by { Neighbours(); }
    var s, v := TwoDeletions();
    s, v := Unlinks(s, v, 1);
    assert v.cells == [Cell(6, Idle), Cell(10, Gone), Cell(10, Settled(1, 10))];
    s, v := Unlinks(s, v, 2);
    n := ShowLoss(s, v);
  }

  /** The leaf goes first, and its keys move on with the one before, which merged too early. */
  lemma LostWithPredecessor() returns (n: State)
    ensures Reachable(n) && Backwards(n, Q)
  {
    assert Pred([0, 1, 2], 2) == 1 && Dropped([0, 1, 2], 2) == [0, 1] && Pred([0, 1], 1) == 0 by { Neighbours(); }
    var s, v := TwoDeletions();
    s, v := Unlinks(s, v, 2);
    assert v.cells == [Cell(6, Idle), Cell(10, Settled(0, 6)), Cell(10, Gone)];
    s, v := Unlinks(s, v, 1);
    n := ShowLoss(s, v);
  }
}
