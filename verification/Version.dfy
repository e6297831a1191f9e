/**
  The version word of a node (masstree/nodeversion.hh with nodeversion32_parameters).

  A word is given by its fields: bit 0 lock, 1 inserting, 2 splitting, bits 3 to 8 the insert
  counter, 9 to 27 the split counter, 28 unused, 29 deleted, 30 root, 31 leaf.  `AddInsert` and
  `AddSplit` are the additions of `unlock` to the whole word, with their carries.  `Value` is the 32-bit
  integer, and the second half shows that the masks on it do the same.
*/
module Version {
  import opened Common

  const INSERTS: nat := 64
  const SPLITS: nat := 0x8_0000

  datatype Word = Word(locked: bool, inserting: bool, splitting: bool, vinsert: nat, vsplit: nat,
                       unused: bool, deleted: bool, root: bool, leaf: bool)

  function Bit(b: bool): nat { if b then 1 else 0 }

  /** The counters with the bit above them, as one number. */
  function Counter(w: Word): nat {
    w.vinsert + 64 * w.vsplit + 0x200_0000 * Bit(w.unused)
  }

  /** Words the operations below produce: the unused bit is clear, and only a lock holder has
      marked the word. */
  predicate WellFormed(w: Word) {
    w.vinsert < INSERTS && w.vsplit < SPLITS && !w.unused && (Dirty(w) ==> w.locked)
  }

  /** `v_ & dirty_mask` */
  predicate Dirty(w: Word) { w.inserting || w.splitting }

  /** `v + vsplit_lowbit`: the split counter carries into the unused bit. */
  function AddSplit(w: Word): Word
    requires WellFormed(w)
  {
    if w.vsplit + 1 < SPLITS then w.(vsplit := w.vsplit + 1) else w.(vsplit := 0, unused := true)
  }

  /** `v + vinsert_lowbit`: the insert counter carries into the split counter. */
  function AddInsert(w: Word): Word
    requires WellFormed(w)
  {
    if w.vinsert + 1 < INSERTS then w.(vinsert := w.vinsert + 1)
    else if w.vsplit + 1 < SPLITS then w.(vinsert := 0, vsplit := w.vsplit + 1)
    else w.(vinsert := 0, vsplit := 0, unused := true)
  }

  predicate SameFlags(w: Word, x: Word) {
    && w.locked == x.locked && w.inserting == x.inserting && w.splitting == x.splitting
    && w.deleted == x.deleted && w.root == x.root && w.leaf == x.leaf
  }

  /** Both add to the 32-bit integer: the insert counter's lowest bit is bit 3, the split counter's bit 9. */
  lemma AddSplitAdds(w: Word)
    requires WellFormed(w)
    ensures Counter(AddSplit(w)) == Counter(w) + 64 && SameFlags(AddSplit(w), w)
  {}

  lemma AddInsertAdds(w: Word)
    requires WellFormed(w)
    ensures Counter(AddInsert(w)) == Counter(w) + 1 && SameFlags(AddInsert(w), w)
  {}

  /** `unlock`: the masks clear the three low bits and bit 28, after a split also the insert
      counter and the root bit. */
  function UnlockWord(w: Word): Word
    requires WellFormed(w)
  {
    if w.splitting then
      var x := AddSplit(w);
      Word(false, false, false, 0, x.vsplit, false, x.deleted, false, x.leaf)
    else
      var x := if w.inserting then AddInsert(w) else w;
      Word(false, false, false, x.vinsert, x.vsplit, false, x.deleted, x.root, x.leaf)
  }

  /** `(x.v_ ^ v_) > lock_bit`: some bit but the lock differs. */
  predicate HasChanged(w: Word, x: Word) { w.(locked := false) != x.(locked := false) }

  /** `(x.v_ ^ v_) >= vsplit_lowbit`: some bit from the split counter up differs. */
  predicate HasSplit(w: Word, x: Word) {
    || w.vsplit != x.vsplit || w.unused != x.unused || w.deleted != x.deleted
    || w.root != x.root || w.leaf != x.leaf
  }

  // ----- runs of one node's word -----

  datatype Op = Lock | MarkInsert | MarkSplit | MarkDeleted | MarkRoot | MarkNonroot | Unlock

  predicate Enabled(w: Word, op: Op) {
    if op.Lock? then !w.locked else w.locked
  }

  function Next(w: Word, op: Op): (r: Word)
    requires WellFormed(w) && Enabled(w, op)
    ensures WellFormed(r)
  {
    match op
    case Lock => w.(locked := true)
    case MarkInsert => w.(inserting := true)
    case MarkSplit => w.(splitting := true)
    case MarkDeleted => w.(deleted := true, splitting := true)
    case MarkRoot => w.(root := true)
    case MarkNonroot => w.(root := false)
    case Unlock => UnlockWord(w)
  }

  /** The word after `ops`, skipping operations that are not the lock holder's to do. */
  function After(x: Word, ops: seq<Op>): (r: Word)
    requires WellFormed(x)
    ensures WellFormed(r)
  {
    if ops == [] then x
    else
      var w := After(x, ops[..|ops| - 1]);
      if Enabled(w, ops[|ops| - 1]) then Next(w, ops[|ops| - 1]) else w
  }

  predicate MarkedUnlock(w: Word, op: Op) {
    op.Unlock? && Enabled(w, op) && Dirty(w)
  }

  /** How many unlocks in the run ended a section with an insert or split mark. */
  function MarkedUnlocks(x: Word, ops: seq<Op>): nat
    requires WellFormed(x)
  {
    if ops == [] then 0
    else
      MarkedUnlocks(x, ops[..|ops| - 1]) + Bit(MarkedUnlock(After(x, ops[..|ops| - 1]), ops[|ops| - 1]))
  }

  /** How many of them ended a split. */
  function SplitUnlocks(x: Word, ops: seq<Op>): nat
    requires WellFormed(x)
  {
    if ops == [] then 0
    else
      var w := After(x, ops[..|ops| - 1]);
      SplitUnlocks(x, ops[..|ops| - 1]) + Bit(MarkedUnlock(w, ops[|ops| - 1]) && w.splitting)
  }

  // ----- what a validating reader knows -----

  /** Both counters as one number. */
  function Counts(w: Word): nat { 64 * w.vsplit + w.vinsert }

  /** A marked unlock moves the counters on by 1 to 64, the split counter by at most 1, and by
      exactly 1 after a split. */
  lemma UnlockMoves(w: Word) returns (lap: nat)
    requires WellFormed(w) && Dirty(w)
    ensures 1 <= Counts(UnlockWord(w)) + 0x200_0000 * lap - Counts(w) <= 64
    ensures Bit(w.splitting) <= UnlockWord(w).vsplit + 0x8_0000 * lap - w.vsplit <= 1
  {
    assert Moved(w.vinsert, w.vsplit, w.splitting, UnlockWord(w).vinsert, UnlockWord(w).vsplit) by { UnlockCounters(w); }
    lap := CountersMove(w.vinsert, w.vsplit, w.splitting, UnlockWord(w).vinsert, UnlockWord(w).vsplit);
  }

  /** How one marked unlock changes the counters. */
  predicate Moved(vinsert: nat, vsplit: nat, splitting: bool, vinsert': nat, vsplit': nat) {
    if splitting || vinsert + 1 == INSERTS
    then vinsert' == 0 && vsplit' == (if vsplit + 1 < SPLITS then vsplit + 1 else 0)
    else vinsert' == vinsert + 1 && vsplit' == vsplit
  }

  lemma CountersMove(vinsert: nat, vsplit: nat, splitting: bool, vinsert': nat, vsplit': nat) returns (lap: nat)
    requires vinsert < INSERTS && vsplit < SPLITS
    requires Moved(vinsert, vsplit, splitting, vinsert', vsplit')
    ensures 1 <= (64 * vsplit' + vinsert') + 0x200_0000 * lap - (64 * vsplit + vinsert) <= 64
    ensures Bit(splitting) <= vsplit' + 0x8_0000 * lap - vsplit <= 1
  {
    lap := if vsplit + 1 == SPLITS && (splitting || vinsert + 1 == INSERTS) then 1 else 0;
  }

  lemma UnlockCounters(w: Word)
    requires WellFormed(w) && Dirty(w)
    ensures w.splitting || w.vinsert + 1 == INSERTS ==>
      UnlockWord(w).vinsert == 0 && UnlockWord(w).vsplit == if w.vsplit + 1 < SPLITS then w.vsplit + 1 else 0
    ensures !(w.splitting || w.vinsert + 1 == INSERTS) ==>
      UnlockWord(w).vinsert == w.vinsert + 1 && UnlockWord(w).vsplit == w.vsplit
  {}

  lemma MarkKeepsCounts(w: Word, op: Op)
    requires WellFormed(w) && Enabled(w, op) && !MarkedUnlock(w, op)
    ensures Next(w, op).vinsert == w.vinsert && Next(w, op).vsplit == w.vsplit
  {
  }

  /** In a run with `k` marked unlocks, `j` of them after splits, the counters move on by at
      least `k` and at most `64 * k`, and the split counter by at least `j` and at most `k`;
      `laps` is how often they ran past the end of their field. */
  lemma {:induction false} CountsMove(x: Word, ops: seq<Op>) returns (laps: nat)
    requires WellFormed(x)
    ensures var w, k := After(x, ops), MarkedUnlocks(x, ops);
      && k <= Counts(w) + 0x200_0000 * laps - Counts(x) <= 64 * k
      && SplitUnlocks(x, ops) <= w.vsplit + 0x8_0000 * laps - x.vsplit <= k
  {
    laps := 0;
    if ops != [] {
      var front, op := ops[..|ops| - 1], ops[|ops| - 1];
      laps := CountsMove(x, front);
      var w := After(x, front);
      if MarkedUnlock(w, op) {
        var lap := UnlockMoves(w);
        laps := laps + lap;
      } else if Enabled(w, op) {
        MarkKeepsCounts(w, op);
      }
    }
  }

  /** Reading a stable word `x`, a marked section that ended since, and fewer than 2^19 of them,
      make validation fail; so does a marked section still open. */
  lemma ChangeIsDetected(x: Word, ops: seq<Op>)
    requires WellFormed(x) && !Dirty(x) && MarkedUnlocks(x, ops) < SPLITS
    ensures MarkedUnlocks(x, ops) > 0 || Dirty(After(x, ops)) ==> HasChanged(After(x, ops), x)
  {
    var laps := CountsMove(x, ops);
  }

  /** A split that ended since is seen as a split. */
  lemma SplitIsDetected(x: Word, ops: seq<Op>)
    requires WellFormed(x) && MarkedUnlocks(x, ops) < SPLITS && SplitUnlocks(x, ops) > 0
    ensures HasSplit(After(x, ops), x)
  {
    var laps := CountsMove(x, ops);
  }

  /** A reader whose validation succeeds overlapped no marked section, at any moment between its
      stable read and its validation. */
  lemma {:induction false} ValidatedSawNoMark(x: Word, ops: seq<Op>, i: nat)
    requires WellFormed(x) && !Dirty(x) && MarkedUnlocks(x, ops) < SPLITS
    requires !HasChanged(After(x, ops), x) && i <= |ops|
    ensures !Dirty(After(x, ops[..i]))
  {
    ChangeIsDetected(x, ops);
    if Dirty(After(x, ops[..i])) { OpenMarkStaysOrCounts(x, ops, i); }
  }

  /** A mark, once set, is still set or has been counted. */
  lemma {:induction false} OpenMarkStaysOrCounts(x: Word, ops: seq<Op>, i: nat)
    requires WellFormed(x) && i <= |ops| && Dirty(After(x, ops[..i]))
    ensures Dirty(After(x, ops)) || MarkedUnlocks(x, ops) > 0
  {
    if i == |ops| {
      assert ops[..i] == ops;
    } else {
      OpenMarkStaysOrCounts(x, ops[..|ops| - 1], i) by {
        assert ops[..|ops| - 1][..i] == ops[..i];
      }
    }
  }

  // ----- the bound is exact -----

  /** The operations of `n` sections that lock, mark a split and unlock. */
  function SplitSections(n: nat): seq<Op> {
    if n == 0 then [] else SplitSections(n - 1) + [Lock] + [MarkSplit] + [Unlock]
  }

  lemma AfterPush(x: Word, ops: seq<Op>, op: Op)
    requires WellFormed(x)
    ensures var w := After(x, ops);
      && After(x, ops + [op]) == (if Enabled(w, op) then Next(w, op) else w)
      && MarkedUnlocks(x, ops + [op]) == MarkedUnlocks(x, ops) + Bit(MarkedUnlock(w, op))
  {
    assert (ops + [op])[..|ops|] == ops;
  }

  lemma OneSplitSection(x: Word, ops: seq<Op>)
    requires WellFormed(x) && !After(x, ops).locked
    ensures var w, all := After(x, ops), ops + [Lock] + [MarkSplit] + [Unlock];
      && After(x, all) == UnlockWord(w.(locked := true, splitting := true))
      && MarkedUnlocks(x, all) == MarkedUnlocks(x, ops) + 1
  {
    AfterPush(x, ops, Lock);
    AfterPush(x, ops + [Lock], MarkSplit);
    AfterPush(x, ops + [Lock] + [MarkSplit], Unlock);
  }

  /** A word whose split counter moved on by `n`. */
  function Wrapped(x: Word, n: nat): Word
    requires x.vsplit < SPLITS && n <= SPLITS
  {
    x.(vsplit := if x.vsplit + n < SPLITS then x.vsplit + n else x.vsplit + n - SPLITS)
  }

  /** A split section of a node that is no root moves the split counter. */
  lemma SplitUnlocked(x: Word, n: nat)
    requires WellFormed(x) && !x.locked && !x.root && x.vinsert == 0 && 0 < n <= SPLITS
    ensures UnlockWord(Wrapped(x, n - 1).(locked := true, splitting := true)) == Wrapped(x, n)
    ensures !Wrapped(x, n).locked
  {}

  lemma {:induction false} SplitSectionsWrap(x: Word, n: nat)
    requires WellFormed(x) && !x.locked && !x.root && x.vinsert == 0 && n <= SPLITS
    ensures After(x, SplitSections(n)) == Wrapped(x, n)
    ensures MarkedUnlocks(x, SplitSections(n)) == n
  {
    if n > 0 {
      var ops := SplitSections(n - 1);
      SplitSectionsWrap(x, n - 1);
      SplitUnlocked(x, n);
      calc {
        After(x, SplitSections(n));
        { OneSplitSection(x, ops); }
        UnlockWord(After(x, ops).(locked := true, splitting := true));
        Wrapped(x, n);
      }
      OneSplitSection(x, ops);
    }
  }

  /** After exactly 2^19 split sections the word is back where it was, and the reader does not
      see them. */
  lemma BoundIsExact(x: Word)
    requires WellFormed(x) && !x.locked && !x.root && x.vinsert == 0
    ensures MarkedUnlocks(x, SplitSections(SPLITS)) == SPLITS
    ensures !HasChanged(After(x, SplitSections(SPLITS)), x)
  {
    SplitSectionsWrap(x, SPLITS);
  }

  // ----- the 32-bit integer -----

  /** `v >> i` */
  function Shr(v: nat, i: nat): nat
    decreases i, v
  {
    if i == 0 then v else Shr(v / 2, i - 1)
  }

  /** `v & ((1 << i) - 1)` */
  function Low(v: nat, i: nat): (r: nat)
    ensures r <= v
    decreases i, v
  {
    if i == 0 then 0 else v % 2 + 2 * Low(v / 2, i - 1)
  }

  /** Bit `i` of `v`. */
  function BitOf(v: nat, i: nat): nat {
    Shr(v, i) % 2
  }

  /** `v | (1 << i)` and `v & ~(1 << i)` */
  function SetBit(v: nat, i: nat): nat {
    if BitOf(v, i) == 1 then v else v + Pow2(i)
  }

  function ClearBit(v: nat, i: nat): nat {
    if BitOf(v, i) == 1 && v >= Pow2(i) then v - Pow2(i) else v
  }

  /** `v & ~((1 << i) - 1)` */
  function ClearBelow(v: nat, i: nat): nat {
    v - Low(v, i)
  }

  const LOCK: nat := 0
  const INSERTING: nat := 1
  const SPLITTING: nat := 2
  const VINSERT: nat := 3
  const VSPLIT: nat := 9
  const UNUSED: nat := 28
  const DELETED: nat := 29
  const ROOT: nat := 30
  const ISLEAF: nat := 31

  /** `unlock` on the integer, with its two masks. */
  function UnlockValue(v: nat): nat {
    if BitOf(v, SPLITTING) == 1 then ClearBit(ClearBit(ClearBelow(v + Pow2(VSPLIT), VSPLIT), UNUSED), ROOT)
    else ClearBit(ClearBelow(v + 4 * (2 * BitOf(v, INSERTING)), VINSERT), UNUSED)
  }

  function NextValue(v: nat, op: Op): nat {
    match op
    case Lock => SetBit(v, LOCK)
    case MarkInsert => SetBit(v, INSERTING)
    case MarkSplit => SetBit(v, SPLITTING)
    case MarkDeleted => SetBit(SetBit(v, DELETED), SPLITTING)
    case MarkRoot => SetBit(v, ROOT)
    case MarkNonroot => ClearBit(v, ROOT)
    case Unlock => UnlockValue(v)
  }

  lemma Doubled(a: nat, p: nat)
    ensures a * (2 * p) == 2 * (a * p)
  {}

  /** A number cut at bit `i`. */
  lemma {:induction false} CutAt(q: nat, r: nat, i: nat)
    requires r < Pow2(i)
    ensures Shr(q * Pow2(i) + r, i) == q && Low(q * Pow2(i) + r, i) == r
    decreases i
  {
    if i > 0 {
      Doubled(q, Pow2(i - 1));
      CutAt(q, r / 2, i - 1);
    }
  }

  /** The powers of two that occur. */
  lemma Powers()
    ensures Pow2(0) == 1 && Pow2(1) == 2 && Pow2(2) == 4 && Pow2(3) == 8 && Pow2(9) == 0x200
    ensures Pow2(28) == 0x1000_0000 && Pow2(29) == 0x2000_0000 && Pow2(30) == 0x4000_0000 && Pow2(31) == 0x8000_0000
    ensures Pow2(32) == 0x1_0000_0000
  {
    assert Pow2(9) == 0x200;
    assert Pow2(18) == 0x4_0000;
    assert Pow2(27) == 0x800_0000;
  }

  /** Fields as numbers, put together: three flags, the counters, four flags. */
  function Compose(flags: nat, vi: nat, vs: nat, top: nat): nat {
    flags + 8 * vi + 0x200 * vs + 0x1000_0000 * top
  }

  predicate InRange(flags: nat, vi: nat, vs: nat, top: nat) {
    flags < 8 && vi < INSERTS && vs < SPLITS && top < 16
  }

  /** Where the parts are. */
  lemma Parts(flags: nat, vi: nat, vs: nat, top: nat)
    requires InRange(flags, vi, vs, top)
    ensures var v := Compose(flags, vi, vs, top);
      && Low(v, 3) == flags && Low(v, 9) == flags + 8 * vi && Shr(v, 9) == vs + SPLITS * top && Shr(v, 28) == top
  {
    var v := Compose(flags, vi, vs, top);
    Powers();
    CutAt(vi + 64 * vs + 0x200_0000 * top, flags, 3);
    CutAt(vs + SPLITS * top, flags + 8 * vi, 9);
    CutAt(top, flags + 8 * vi + 0x200 * vs, 28);
  }

  lemma {:induction false} ShrTwice(v: nat, i: nat, j: nat)
    ensures Shr(v, i + j) == Shr(Shr(v, i), j)
    decreases i
  {
    if i > 0 { ShrTwice(v / 2, i - 1, j); }
  }

  /** The lowest bits depend on the low part only. */
  lemma {:induction false} LowBit(v: nat, n: nat, i: nat)
    requires i < n
    ensures BitOf(v, i) == BitOf(Low(v, n), i)
    decreases n
  {
    if i > 0 { LowBit(v / 2, n - 1, i - 1); }
  }

  lemma FlagBit(flags: nat, vi: nat, vs: nat, top: nat, i: nat)
    requires InRange(flags, vi, vs, top) && i < 3
    ensures BitOf(Compose(flags, vi, vs, top), i) == BitOf(flags, i)
  {
    Parts(flags, vi, vs, top);
    LowBit(Compose(flags, vi, vs, top), 3, i);
  }

  lemma HighBit(flags: nat, vi: nat, vs: nat, top: nat, j: nat)
    requires InRange(flags, vi, vs, top) && j < 4
    ensures BitOf(Compose(flags, vi, vs, top), 28 + j) == BitOf(top, j)
  {
    Parts(flags, vi, vs, top);
    ShrTwice(Compose(flags, vi, vs, top), 28, j);
  }

  /** Clearing one of the four high bits. */
  lemma ClearHigh(flags: nat, vi: nat, vs: nat, top: nat, j: nat)
    requires InRange(flags, vi, vs, top) && j < 4
    ensures ClearBit(Compose(flags, vi, vs, top), 28 + j)
         == Compose(flags, vi, vs, ClearBit(top, j))
  {
    HighBit(flags, vi, vs, top, j);
    HighPower(j);
    if BitOf(top, j) == 1 { BitFits(top, j); }
  }

  lemma HighPower(j: nat)
    requires j < 4
    ensures Pow2(28 + j) == 0x1000_0000 * Pow2(j) && Pow2(j) <= 8
  {
    Powers();
  }

  lemma {:induction false} BitFits(v: nat, i: nat)
    requires BitOf(v, i) == 1
    ensures v >= Pow2(i)
    decreases i
  {
    if i > 0 { BitFits(v / 2, i - 1); }
  }

  lemma Cleared(flags: nat, vi: nat, vs: nat, top: nat)
    requires InRange(flags, vi, vs, top)
    ensures ClearBelow(Compose(flags, vi, vs, top), 9) == Compose(0, 0, vs, top)
    ensures ClearBelow(Compose(flags, vi, vs, top), 3) == Compose(0, vi, vs, top)
  {
    Parts(flags, vi, vs, top);
  }

  /** Without the unused bit, and without the root bit. */
  function NoUnused(top: nat): nat {
    ClearBit(top, UNUSED - 28)
  }

  function NoRoot(top: nat): nat {
    ClearBit(top, ROOT - 28)
  }

  /** Adding to a counter, with the carry into what is above it. */
  lemma AddSplitLow(flags: nat, vi: nat, vs: nat, top: nat)
    requires InRange(flags, vi, vs, top)
    ensures Compose(flags, vi, vs, top) + 0x200 ==
      if vs + 1 < SPLITS then Compose(flags, vi, vs + 1, top) else Compose(flags, vi, 0, top + 1)
  {}

  lemma AddInsertLow(flags: nat, vi: nat, vs: nat, top: nat)
    requires InRange(flags, vi, vs, top)
    ensures Compose(flags, vi, vs, top) + 8 ==
      if vi + 1 < INSERTS then Compose(flags, vi + 1, vs, top)
      else if vs + 1 < SPLITS then Compose(flags, 0, vs + 1, top)
      else Compose(flags, 0, 0, top + 1)
  {}

  lemma UnlockIs(v: nat)
    ensures BitOf(v, 2) == 1 ==> UnlockValue(v) == ClearBit(ClearBit(ClearBelow(v + 0x200, 9), 28), 30)
    ensures BitOf(v, 2) != 1 && BitOf(v, 1) == 1 ==> UnlockValue(v) == ClearBit(ClearBelow(v + 8, 3), 28)
    ensures BitOf(v, 2) != 1 && BitOf(v, 1) == 0 ==> UnlockValue(v) == ClearBit(ClearBelow(v, 3), 28)
  {
    Powers();
  }

  /** The masks after an addition that may have carried into the unused bit. */
  lemma MaskedInsert(flags: nat, vi: nat, vs: nat, top: nat)
    requires InRange(flags, vi, vs, top)
    ensures ClearBit(ClearBelow(Compose(flags, vi, vs, top), 3), 28) == Compose(0, vi, vs, NoUnused(top))
  {
    Cleared(flags, vi, vs, top);
    ClearHigh(0, vi, vs, top, 0);
  }

  lemma MaskedSplit(flags: nat, vi: nat, vs: nat, top: nat)
    requires InRange(flags, vi, vs, top)
    ensures ClearBit(ClearBit(ClearBelow(Compose(flags, vi, vs, top), 9), 28), 30) == Compose(0, 0, vs, NoRoot(NoUnused(top)))
  {
    Cleared(flags, vi, vs, top);
    ClearHigh(0, 0, vs, top, 0);
    ClearHigh(0, 0, vs, NoUnused(top), 2);
    Powers();
  }

  lemma EvenNoUnused(top: nat)
    requires top % 2 == 0
    ensures NoUnused(top) == top && NoUnused(top + 1) == top
  {}

  /** `unlock` after a split. */
  lemma UnlockSplitValue(flags: nat, vi: nat, vs: nat, top: nat)
    requires InRange(flags, vi, vs, top) && BitOf(flags, 2) == 1 && top % 2 == 0
    ensures UnlockValue(Compose(flags, vi, vs, top)) == Compose(0, 0, if vs + 1 < SPLITS then vs + 1 else 0, NoRoot(top))
  {
    var v := Compose(flags, vi, vs, top);
    var vs', top' := if vs + 1 < SPLITS then vs + 1 else 0, if vs + 1 < SPLITS then top else top + 1;
    calc {
      UnlockValue(v);
      { FlagBit(flags, vi, vs, top, 2); UnlockIs(v); }
      ClearBit(ClearBit(ClearBelow(v + 0x200, 9), 28), 30);
      { AddSplitLow(flags, vi, vs, top); }
      ClearBit(ClearBit(ClearBelow(Compose(flags, vi, vs', top'), 9), 28), 30);
      { MaskedSplit(flags, vi, vs', top'); }
      Compose(0, 0, vs', NoRoot(NoUnused(top')));
      { EvenNoUnused(top); }
      Compose(0, 0, vs', NoRoot(top));
    }
  }

  /** `unlock` after an insertion; the insert counter carries into the split counter. */
  lemma UnlockInsertValue(flags: nat, vi: nat, vs: nat, top: nat)
    requires InRange(flags, vi, vs, top) && BitOf(flags, 2) != 1 && BitOf(flags, 1) == 1 && top % 2 == 0
    ensures UnlockValue(Compose(flags, vi, vs, top)) ==
      if vi + 1 < INSERTS then Compose(0, vi + 1, vs, top)
      else Compose(0, 0, if vs + 1 < SPLITS then vs + 1 else 0, top)
  {
    var v, carry := Compose(flags, vi, vs, top), vi + 1 == INSERTS;
    var vi' := if carry then 0 else vi + 1;
    var vs' := if carry then (if vs + 1 < SPLITS then vs + 1 else 0) else vs;
    var top' := if carry && vs + 1 == SPLITS then top + 1 else top;
    calc {
      UnlockValue(v);
      { FlagBit(flags, vi, vs, top, 2); FlagBit(flags, vi, vs, top, 1); UnlockIs(v); }
      ClearBit(ClearBelow(v + 8, 3), 28);
      { AddInsertLow(flags, vi, vs, top); }
      ClearBit(ClearBelow(Compose(flags, vi', vs', top'), 3), 28);
      { MaskedInsert(flags, vi', vs', top'); }
      Compose(0, vi', vs', NoUnused(top'));
      { EvenNoUnused(top); }
      Compose(0, vi', vs', top);
    }
  }

  /** `unlock` of a section without marks. */
  lemma UnlockPlainValue(flags: nat, vi: nat, vs: nat, top: nat)
    requires InRange(flags, vi, vs, top) && BitOf(flags, 2) != 1 && BitOf(flags, 1) == 0 && top % 2 == 0
    ensures UnlockValue(Compose(flags, vi, vs, top)) == Compose(0, vi, vs, top)
  {
    var v := Compose(flags, vi, vs, top);
    calc {
      UnlockValue(v);
      { FlagBit(flags, vi, vs, top, 2); FlagBit(flags, vi, vs, top, 1); UnlockIs(v); }
      ClearBit(ClearBelow(v, 3), 28);
      { MaskedInsert(flags, vi, vs, top); }
      Compose(0, vi, vs, NoUnused(top));
      { EvenNoUnused(top); }
      Compose(0, vi, vs, top);
    }
  }

  // ----- the integer and the fields -----

  /** A number given by its bits, the lowest first. */
  function Number(bits: seq<bool>): nat {
    if bits == [] then 0 else Bit(bits[0]) + 2 * Number(bits[1..])
  }

  /** The flags below the counters and those above. */
  function LowFlags(w: Word): seq<bool> {
    [w.locked, w.inserting, w.splitting]
  }

  function HighFlags(w: Word): seq<bool> {
    [w.unused, w.deleted, w.root, w.leaf]
  }

  /** The 32-bit integer. */
  function Value(w: Word): nat {
    Compose(Number(LowFlags(w)), w.vinsert, w.vsplit, Number(HighFlags(w)))
  }

  lemma {:induction false} NumberSmall(bits: seq<bool>)
    ensures Number(bits) < Pow2(|bits|)
  {
    if bits != [] { NumberSmall(bits[1..]); }
  }

  lemma {:induction false} NumberBit(bits: seq<bool>, i: nat)
    requires i < |bits|
    ensures BitOf(Number(bits), i) == Bit(bits[i])
    decreases i
  {
    assert Number(bits) / 2 == Number(bits[1..]) && Number(bits) % 2 == Bit(bits[0]);
    if i > 0 { NumberBit(bits[1..], i - 1); }
  }

  lemma {:induction false} NumberInjective(a: seq<bool>, b: seq<bool>)
    requires |a| == |b| && Number(a) == Number(b)
    ensures a == b
  {
    if a != [] { NumberInjective(a[1..], b[1..]); }
  }

  /** Changing one bit. */
  lemma {:induction false} NumberUpdate(bits: seq<bool>, i: nat, b: bool)
    requires i < |bits|
    ensures Number(bits[i := b]) + Bit(bits[i]) * Pow2(i) == Number(bits) + Bit(b) * Pow2(i)
    decreases i
  {
    if i > 0 {
      assert bits[i := b][1..] == bits[1..][i - 1 := b];
      NumberUpdate(bits[1..], i - 1, b);
    } else {
      assert bits[0 := b][1..] == bits[1..];
    }
  }

  lemma NumberSet(bits: seq<bool>, i: nat)
    requires i < |bits|
    ensures SetBit(Number(bits), i) == Number(bits[i := true])
    ensures ClearBit(Number(bits), i) == Number(bits[i := false])
  {
    NumberBit(bits, i);
    NumberUpdate(bits, i, true);
    NumberUpdate(bits, i, false);
    if bits[i] { BitFits(Number(bits), i); }
  }

  /** The flags of a word as numbers. */
  lemma FlagNumbers(w: Word)
    ensures Number(LowFlags(w)) < 8 && Number(HighFlags(w)) < 16
    ensures BitOf(Number(LowFlags(w)), 1) == Bit(w.inserting) && BitOf(Number(LowFlags(w)), 2) == Bit(w.splitting)
    ensures !w.unused ==> Number(HighFlags(w)) % 2 == 0
  {
    NumberSmall(LowFlags(w));
    NumberSmall(HighFlags(w));
    NumberBit(LowFlags(w), 1);
    NumberBit(LowFlags(w), 2);
  }

  lemma {:induction false} NoBits(bits: seq<bool>)
    requires forall i :: 0 <= i < |bits| ==> !bits[i]
    ensures Number(bits) == 0
  {
    if bits != [] { NoBits(bits[1..]); }
  }

  /** The numbers determine the flags. */
  lemma SameHigh(w: Word, x: Word)
    ensures Number(HighFlags(w)) == Number(HighFlags(x)) <==>
      w.unused == x.unused && w.deleted == x.deleted && w.root == x.root && w.leaf == x.leaf
  {
    var a, b := HighFlags(w), HighFlags(x);
    if Number(a) == Number(b) {
      NumberInjective(a, b);
      assert a[0] == b[0] && a[1] == b[1] && a[2] == b[2] && a[3] == b[3];
    }
  }

  lemma SameLow(w: Word, x: Word)
    requires Number(LowFlags(w)) == Number(LowFlags(x))
    ensures w.locked == x.locked && w.inserting == x.inserting && w.splitting == x.splitting
  {
    var a, b := LowFlags(w), LowFlags(x);
    NumberInjective(a, b);
    assert a[0] == b[0] && a[1] == b[1] && a[2] == b[2];
  }

  lemma UnlockedCounters(w: Word)
    requires WellFormed(w)
    ensures var r, next := UnlockWord(w), if w.vsplit + 1 < SPLITS then w.vsplit + 1 else 0;
      if w.splitting then r.vinsert == 0 && r.vsplit == next
      else if !w.inserting then r.vinsert == w.vinsert && r.vsplit == w.vsplit
      else if w.vinsert + 1 < INSERTS then r.vinsert == w.vinsert + 1 && r.vsplit == w.vsplit
      else r.vinsert == 0 && r.vsplit == next
  {}

  lemma UnlockedHigh(w: Word)
    requires WellFormed(w)
    ensures Number(HighFlags(UnlockWord(w))) == if w.splitting then NoRoot(Number(HighFlags(w))) else Number(HighFlags(w))
  {
    var r := UnlockWord(w);
    if w.splitting {
      NumberSet(HighFlags(w), 2);
      assert HighFlags(w)[2 := false] == HighFlags(r);
    } else {
      assert HighFlags(w) == HighFlags(r);
    }
  }

  lemma UnlockRefines(w: Word)
    requires WellFormed(w)
    ensures UnlockValue(Value(w)) == Value(UnlockWord(w))
  {
    var low, high := Number(LowFlags(w)), Number(HighFlags(w));
    FlagNumbers(w);
    UnlockedCounters(w);
    UnlockedHigh(w);
    NoBits(LowFlags(UnlockWord(w)));
    if w.splitting {
      UnlockSplitValue(low, w.vinsert, w.vsplit, high);
    } else if w.inserting {
      UnlockInsertValue(low, w.vinsert, w.vsplit, high);
    } else {
      UnlockPlainValue(low, w.vinsert, w.vsplit, high);
    }
  }

  lemma SetFlag(flags: nat, vi: nat, vs: nat, top: nat, i: nat)
    requires InRange(flags, vi, vs, top) && i < 3
    ensures SetBit(Compose(flags, vi, vs, top), i) == Compose(SetBit(flags, i), vi, vs, top)
  {
    FlagBit(flags, vi, vs, top, i);
  }

  lemma SetHigh(flags: nat, vi: nat, vs: nat, top: nat, j: nat)
    requires InRange(flags, vi, vs, top) && j < 4
    ensures SetBit(Compose(flags, vi, vs, top), 28 + j) == Compose(flags, vi, vs, SetBit(top, j))
  {
    HighBit(flags, vi, vs, top, j);
    HighPower(j);
  }

  /** Setting a low flag. */
  lemma LowMark(w: Word, r: Word, i: nat)
    requires WellFormed(w) && i < 3 && LowFlags(r) == LowFlags(w)[i := true] && HighFlags(r) == HighFlags(w)
    requires r.vinsert == w.vinsert && r.vsplit == w.vsplit
    ensures SetBit(Value(w), i) == Value(r)
  {
    FlagNumbers(w);
    SetFlag(Number(LowFlags(w)), w.vinsert, w.vsplit, Number(HighFlags(w)), i);
    NumberSet(LowFlags(w), i);
  }

  /** Setting or clearing a high flag. */
  lemma HighMark(w: Word, r: Word, j: nat, b: bool)
    requires WellFormed(w) && j < 4 && HighFlags(r) == HighFlags(w)[j := b] && LowFlags(r) == LowFlags(w)
    requires r.vinsert == w.vinsert && r.vsplit == w.vsplit
    ensures (if b then SetBit(Value(w), 28 + j) else ClearBit(Value(w), 28 + j)) == Value(r)
  {
    FlagNumbers(w);
    SetHigh(Number(LowFlags(w)), w.vinsert, w.vsplit, Number(HighFlags(w)), j);
    ClearHigh(Number(LowFlags(w)), w.vinsert, w.vsplit, Number(HighFlags(w)), j);
    NumberSet(HighFlags(w), j);
  }

  lemma MarkRefines(w: Word, op: Op)
    requires WellFormed(w) && Enabled(w, op) && !op.Unlock?
    ensures NextValue(Value(w), op) == Value(Next(w, op))
  {
    var r := Next(w, op);
    match op
    case Lock => LowMark(w, r, LOCK);
    case MarkInsert => LowMark(w, r, INSERTING);
    case MarkSplit => LowMark(w, r, SPLITTING);
    case MarkDeleted =>
      var d := w.(deleted := true);
      HighMark(w, d, DELETED - 28, true);
      LowMark(d, r, SPLITTING);
    case MarkRoot => HighMark(w, r, ROOT - 28, true);
    case MarkNonroot => HighMark(w, r, ROOT - 28, false);
  }

  /** Different words are different integers. */
  lemma ValueInjective(w: Word, x: Word)
    requires w.vinsert < INSERTS && w.vsplit < SPLITS && x.vinsert < INSERTS && x.vsplit < SPLITS
    requires Value(w) == Value(x)
    ensures w == x
  {
    FlagNumbers(w);
    FlagNumbers(x);
    Parts(Number(LowFlags(w)), w.vinsert, w.vsplit, Number(HighFlags(w)));
    Parts(Number(LowFlags(x)), x.vinsert, x.vsplit, Number(HighFlags(x)));
    SameLow(w, x);
    SameHigh(w, x);
  }

  // ----- the tests -----

  /** An exclusive or reaches bit `n` exactly if the numbers differ from there up. */
  lemma {:induction false} XorAbove(a: nat, b: nat, bits: nat, n: nat)
    requires n <= bits && a < Pow2(bits) && b < Pow2(bits)
    ensures XorBits(a, b, bits) >= Pow2(n) <==> Shr(a, n) != Shr(b, n)
    decreases bits
  {
    if bits > 0 { XorAbove(a / 2, b / 2, bits - 1, if n == 0 then 0 else n - 1); }
  }

  /** `(x ^ v) > lock_bit` */
  function HasChangedValue(v: nat, x: nat): bool {
    XorBits(x, v, 32) > Pow2(LOCK)
  }

  /** `(x ^ v) >= vsplit_lowbit` */
  function HasSplitValue(v: nat, x: nat): bool {
    XorBits(x, v, 32) >= Pow2(VSPLIT)
  }

  lemma XorTests(a: nat, b: nat)
    requires a < 0x1_0000_0000 && b < 0x1_0000_0000
    ensures HasChangedValue(a, b) <==> a / 2 != b / 2
    ensures HasSplitValue(a, b) <==> Shr(a, 9) != Shr(b, 9)
  {
    Powers();
    XorAbove(b, a, 32, 1);
    XorAbove(b, a, 32, 9);
  }

  /** The tests on the integers are the tests on the fields. */
  lemma TestsRefine(w: Word, x: Word)
    requires WellFormed(w) && WellFormed(x)
    ensures HasChangedValue(Value(w), Value(x)) <==> HasChanged(w, x)
    ensures HasSplitValue(Value(w), Value(x)) <==> HasSplit(w, x)
  {
    ValueSmall(w);
    ValueSmall(x);
    XorTests(Value(w), Value(x));
    ChangedFields(w, x);
    SplitFields(w, x);
  }

  lemma ChangedFields(w: Word, x: Word)
    requires WellFormed(w) && WellFormed(x)
    ensures Value(w) / 2 != Value(x) / 2 <==> HasChanged(w, x)
  {
    Halved(w);
    Halved(x);
    var u, y := w.(locked := false), x.(locked := false);
    if Value(u) == Value(y) { ValueInjective(u, y); }
  }

  lemma Halved(w: Word)
    ensures Value(w.(locked := false)) == 2 * (Value(w) / 2)
  {
    var u, h := w.(locked := false), Number(LowFlags(w)[1..]);
    assert HighFlags(u) == HighFlags(w);
    assert Number(LowFlags(u)) == 2 * h by { assert LowFlags(u)[1..] == LowFlags(w)[1..]; }
    calc {
      2 * (Value(w) / 2);
      2 * (Compose(2 * h + Bit(w.locked), w.vinsert, w.vsplit, Number(HighFlags(w))) / 2);
      { HalfOf(h, Bit(w.locked), w.vinsert, w.vsplit, Number(HighFlags(w))); }
      Compose(2 * h, w.vinsert, w.vsplit, Number(HighFlags(w)));
      Value(u);
    }
  }

  lemma HalfOf(h: nat, b: nat, vi: nat, vs: nat, top: nat)
    requires b < 2
    ensures 2 * (Compose(2 * h + b, vi, vs, top) / 2) == Compose(2 * h, vi, vs, top)
  {}

  lemma UpperSame(vs: nat, top: nat, vs': nat, top': nat)
    requires vs < SPLITS && vs' < SPLITS
    ensures vs + SPLITS * top == vs' + SPLITS * top' <==> vs == vs' && top == top'
  {}

  lemma SplitFields(w: Word, x: Word)
    requires WellFormed(w) && WellFormed(x)
    ensures Shr(Value(w), 9) != Shr(Value(x), 9) <==> HasSplit(w, x)
  {
    var top, top' := Number(HighFlags(w)), Number(HighFlags(x));
    assert Shr(Value(w), 9) == w.vsplit + SPLITS * top by {
      FlagNumbers(w);
      Parts(Number(LowFlags(w)), w.vinsert, w.vsplit, top);
    }
    assert Shr(Value(x), 9) == x.vsplit + SPLITS * top' by {
      FlagNumbers(x);
      Parts(Number(LowFlags(x)), x.vinsert, x.vsplit, top');
    }
    UpperSame(w.vsplit, top, x.vsplit, top');
    SameHigh(w, x);
  }

  lemma ValueSmall(w: Word)
    requires WellFormed(w)
    ensures Value(w) < 0x1_0000_0000
  {
    FlagNumbers(w);
  }

  predicate Fresh(w: Word) {
    && !w.locked && !w.inserting && !w.splitting && w.vinsert == 0 && w.vsplit == 0
    && !w.unused && !w.deleted && !w.root
  }

  lemma StartValue(w: Word)
    requires Fresh(w)
    ensures Value(w) == if w.leaf then 0x8000_0000 else 0
  {
    var none := [false, false, false, false];
    NoBits(LowFlags(w));
    NoBits(none);
    NumberUpdate(none, 3, w.leaf);
    assert HighFlags(w) == none[3 := w.leaf];
  }

  // ----- what the operations do to the bits -----

  lemma BitStep(v: nat, i: nat)
    ensures BitOf(v, i) == if i == 0 then v % 2 else BitOf(v / 2, i - 1)
  {}

  /** A change of a bit above the lowest is one of half the number. */
  lemma SetHalves(v: nat, i: nat)
    requires i > 0
    ensures SetBit(v, i) % 2 == v % 2 && SetBit(v, i) / 2 == SetBit(v / 2, i - 1)
    ensures ClearBit(v, i) % 2 == v % 2 && ClearBit(v, i) / 2 == ClearBit(v / 2, i - 1)
  {
    BitStep(v, i);
    assert Pow2(i) == 2 * Pow2(i - 1);
  }

  lemma {:induction false} SetBitBits(v: nat, i: nat, j: nat)
    ensures BitOf(SetBit(v, i), j) == if j == i then 1 else BitOf(v, j)
    decreases i
  {
    BitStep(SetBit(v, i), j);
    BitStep(v, j);
    if i > 0 {
      SetHalves(v, i);
      if j > 0 { SetBitBits(v / 2, i - 1, j - 1); }
    }
  }

  lemma {:induction false} ClearBitBits(v: nat, i: nat, j: nat)
    ensures BitOf(ClearBit(v, i), j) == if j == i then 0 else BitOf(v, j)
    decreases i
  {
    BitStep(ClearBit(v, i), j);
    BitStep(v, j);
    if i > 0 {
      SetHalves(v, i);
      if j > 0 { ClearBitBits(v / 2, i - 1, j - 1); }
    }
  }

  /** What bit `i` must be after an operation: a mark changes its own bits only; `unlock` clears the flags of
      the section, and the root bit after a split, and keeps the deleted and leaf bits. */
  function BitAfter(v: nat, op: Op, i: nat): nat {
    match op
    case Lock => if i == LOCK then 1 else BitOf(v, i)
    case MarkInsert => if i == INSERTING then 1 else BitOf(v, i)
    case MarkSplit => if i == SPLITTING then 1 else BitOf(v, i)
    case MarkDeleted => if i == DELETED || i == SPLITTING then 1 else BitOf(v, i)
    case MarkRoot => if i == ROOT then 1 else BitOf(v, i)
    case MarkNonroot => if i == ROOT then 0 else BitOf(v, i)
    case Unlock => if i < VINSERT || i == UNUSED || (i == ROOT && BitOf(v, SPLITTING) == 1) then 0 else BitOf(v, i)
  }

  /** Marks, on any integer. */
  lemma MarkBits(v: nat, op: Op, i: nat)
    requires !op.Unlock?
    ensures BitOf(NextValue(v, op), i) == BitAfter(v, op, i)
  {
    match op
    case Lock => SetBitBits(v, LOCK, i);
    case MarkInsert => SetBitBits(v, INSERTING, i);
    case MarkSplit => SetBitBits(v, SPLITTING, i);
    case MarkDeleted =>
      SetBitBits(v, DELETED, i);
      SetBitBits(SetBit(v, DELETED), SPLITTING, i);
    case MarkRoot => SetBitBits(v, ROOT, i);
    case MarkNonroot => ClearBitBits(v, ROOT, i);
  }

  /** The flags of a word, found in its integer. */
  lemma LowBits(w: Word, i: nat)
    requires WellFormed(w) && i < 3
    ensures BitOf(Value(w), i) == Bit(LowFlags(w)[i])
  {
    FlagNumbers(w);
    FlagBit(Number(LowFlags(w)), w.vinsert, w.vsplit, Number(HighFlags(w)), i);
    NumberBit(LowFlags(w), i);
  }

  lemma HighBits(w: Word, j: nat)
    requires WellFormed(w) && j < 4
    ensures BitOf(Value(w), 28 + j) == Bit(HighFlags(w)[j])
  {
    FlagNumbers(w);
    HighBit(Number(LowFlags(w)), w.vinsert, w.vsplit, Number(HighFlags(w)), j);
    NumberBit(HighFlags(w), j);
  }

  /** What `unlock` leaves of the flags. */
  predicate Released(w: Word, r: Word) {
    && !r.locked && !r.inserting && !r.splitting
    && !r.unused && r.deleted == w.deleted && r.leaf == w.leaf && r.root == (w.root && !w.splitting)
  }

  lemma UnlockLowBits(w: Word, r: Word, i: nat)
    requires WellFormed(r) && Released(w, r) && i < 3
    ensures BitOf(Value(r), i) == 0
  {
    LowBits(r, i);
  }

  lemma UnlockHighBits(w: Word, r: Word, j: nat)
    requires WellFormed(w) && WellFormed(r) && Released(w, r) && j < 4
    ensures BitOf(Value(r), 28 + j) == if j == 0 || (j == 2 && w.splitting) then 0 else BitOf(Value(w), 28 + j)
  {
    HighBits(r, j);
    HighBits(w, j);
  }

  /** `unlock`, on the bits outside the counters. */
  lemma UnlockBits(w: Word, i: nat)
    requires WellFormed(w) && (i < VINSERT || UNUSED <= i <= ISLEAF)
    ensures BitOf(Value(UnlockWord(w)), i) == BitAfter(Value(w), Unlock, i)
  {
    LowBits(w, SPLITTING);
    if i < 3 { UnlockLowBits(w, UnlockWord(w), i); } else { UnlockHighBits(w, UnlockWord(w), i - 28); }
  }

  /** The 25 counter bits. */
  function CountsOf(v: nat): nat {
    v / 8 % 0x200_0000
  }

  /** The counters go on by exactly one: the insert counter, with its carry, or the split counter, and then the
      insert counter starts anew. */
  function CountsAfter(v: nat): nat {
    if BitOf(v, SPLITTING) == 1 then 64 * ((CountsOf(v) / 64 + 1) % SPLITS)
    else (CountsOf(v) + BitOf(v, INSERTING)) % 0x200_0000
  }

  lemma ComposedCounts(flags: nat, vi: nat, vs: nat, top: nat)
    requires InRange(flags, vi, vs, top)
    ensures CountsOf(Compose(flags, vi, vs, top)) == 64 * vs + vi
  {
    var c := 64 * vs + vi;
    assert Compose(flags, vi, vs, top) == flags + 8 * (c + 0x200_0000 * top);
    assert Compose(flags, vi, vs, top) / 8 == c + 0x200_0000 * top;
  }

  lemma ValueCounts(w: Word)
    requires WellFormed(w)
    ensures CountsOf(Value(w)) == Counts(w)
  {
    FlagNumbers(w);
    ComposedCounts(Number(LowFlags(w)), w.vinsert, w.vsplit, Number(HighFlags(w)));
  }

  lemma CountsMoveOn(w: Word)
    requires WellFormed(w)
    ensures Counts(UnlockWord(w)) ==
      if w.splitting then 64 * ((Counts(w) / 64 + 1) % SPLITS) else (Counts(w) + Bit(w.inserting)) % 0x200_0000
  {
    UnlockedCounters(w);
    NextCounts(w.vinsert, w.vsplit);
  }

  lemma CountsAfterIs(v: nat, c: nat, inserting: bool, splitting: bool)
    requires CountsOf(v) == c && BitOf(v, INSERTING) == Bit(inserting) && BitOf(v, SPLITTING) == Bit(splitting)
    ensures CountsAfter(v) == if splitting then 64 * ((c / 64 + 1) % SPLITS) else (c + Bit(inserting)) % 0x200_0000
  {}

  lemma UnlockCounts(w: Word)
    requires WellFormed(w)
    ensures CountsOf(Value(UnlockWord(w))) == CountsAfter(Value(w))
  {
    calc {
      CountsOf(Value(UnlockWord(w)));
      { ValueCounts(UnlockWord(w)); }
      Counts(UnlockWord(w));
      { CountsMoveOn(w); }
      if w.splitting then 64 * ((Counts(w) / 64 + 1) % SPLITS) else (Counts(w) + Bit(w.inserting)) % 0x200_0000;
      {
        LowBits(w, INSERTING);
        LowBits(w, SPLITTING);
        ValueCounts(w);
        CountsAfterIs(Value(w), Counts(w), w.inserting, w.splitting);
      }
      CountsAfter(Value(w));
    }
  }

  lemma NextCounts(vi: nat, vs: nat)
    requires vi < INSERTS && vs < SPLITS
    ensures 64 * (((64 * vs + vi) / 64 + 1) % SPLITS) == 64 * (if vs + 1 < SPLITS then vs + 1 else 0)
    ensures (64 * vs + vi + 1) % 0x200_0000 ==
      if vi + 1 < INSERTS then 64 * vs + vi + 1 else 64 * (if vs + 1 < SPLITS then vs + 1 else 0)
    ensures (64 * vs + vi) % 0x200_0000 == 64 * vs + vi
  {
    assert (64 * vs + vi) / 64 == vs;
  }

  /** Over runs: a node once deleted stays deleted, and a leaf stays a leaf. */
  lemma {:induction false} DeletedStays(x: Word, ops: seq<Op>, i: nat)
    requires WellFormed(x) && i < |ops| && ops[i].MarkDeleted? && Enabled(After(x, ops[..i]), ops[i])
    ensures BitOf(Value(After(x, ops)), DELETED) == 1
    decreases |ops|
  {
    var front := ops[..|ops| - 1];
    var w, op := After(x, front), ops[|ops| - 1];
    if i < |ops| - 1 {
      assert front[..i] == ops[..i];
      DeletedStays(x, front, i);
    }
    if Enabled(w, op) { FlagSteps(w, op, DELETED); }
  }

  lemma {:induction false} LeafStays(x: Word, ops: seq<Op>)
    requires WellFormed(x)
    ensures BitOf(Value(After(x, ops)), ISLEAF) == BitOf(Value(x), ISLEAF)
  {
    if ops != [] {
      var w, op := After(x, ops[..|ops| - 1]), ops[|ops| - 1];
      LeafStays(x, ops[..|ops| - 1]);
      if Enabled(w, op) { FlagSteps(w, op, ISLEAF); }
    }
  }

  lemma FlagSteps(w: Word, op: Op, i: nat)
    requires WellFormed(w) && Enabled(w, op) && UNUSED <= i <= ISLEAF
    ensures BitOf(Value(Next(w, op)), i) == BitAfter(Value(w), op, i)
  {
    if op.Unlock? {
      UnlockBits(w, i);
    } else {
      MarkRefines(w, op);
      MarkBits(Value(w), op, i);
    }
  }

  /** The version word of one node: a 32-bit integer changed in place by the thread that holds its lock. */
  class NodeVersion {
    var v: nat
    /** Its fields. */
    ghost var word: Word

    ghost predicate Valid()
      reads this
    {
      WellFormed(word) && v == Value(word)
    }

    constructor (isleaf: bool, ghost w: Word)
      requires Fresh(w) && w.leaf == isleaf
      ensures Valid() && word == w
    {
      v := if isleaf then 0x8000_0000 else 0;
      word := w;
      StartValue(w);
    }

    /** The masks and additions on the integer do to the fields what `Next` says. */
    method Do(op: Op)
      requires Valid() && Enabled(word, op)
      modifies this
      ensures Valid() && v < 0x1_0000_0000 && word == Next(old(word), op)
      ensures forall i {:trigger BitOf(v, i)} :: 0 <= i < 32 && (i < VINSERT || UNUSED <= i || !op.Unlock?) ==>
        BitOf(v, i) == BitAfter(old(v), op, i)
      ensures op.Unlock? ==> CountsOf(v) == CountsAfter(old(v))
    {
      forall i | 0 <= i < 32 && (i < VINSERT || UNUSED <= i || !op.Unlock?)
        ensures BitOf(NextValue(v, op), i) == BitAfter(v, op, i)
      {
        if op.Unlock? { UnlockRefines(word); UnlockBits(word, i); } else { MarkBits(v, op, i); }
      }
      if op.Unlock? { UnlockRefines(word); UnlockCounts(word); } else { MarkRefines(word, op); }
      v := NextValue(v, op);
      word := Next(word, op);
      ValueSmall(word);
    }

    /** `has_changed` against an earlier word `x`, whose fields are `w`. */
    method Changed(x: nat, ghost w: Word) returns (r: bool)
      requires Valid() && WellFormed(w) && x == Value(w)
      ensures r == HasChanged(word, w)
    {
      TestsRefine(word, w);
      r := HasChangedValue(v, x);
    }
  }
}
