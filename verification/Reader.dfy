/**
  A lock-free reader of a leaf while other threads insert into it and remove from it
  (masstree/masstree_get.hh `find_unlocked`): it loads a stable version word, then the permutation, then
  slots, and keeps what it saw only if the word has not changed.  The slot discipline of `Leaf` and the word
  of `Version` make that sound together.
*/
module Reader {
  import opened Common
  import opened Permuter
  import opened Leaf
  import Version

  /** What a writer does while it holds the leaf's lock. */
  datatype Write = Insert(p: nat, key: Slot, hasNext: bool) | Remove(ki: nat)

  /** The changes of the version word in one locked section: only marked sections change it. */
  function Section(marks: seq<Version.Op>): seq<Version.Op> {
    [Version.Lock] + marks + [Version.Unlock]
  }

  /** The slots of `trusted` are as they were. */
  predicate Kept(trusted: set<nat>, before: seq<Slot>, after: seq<Slot>) {
    |before| == |after| && forall s :: s in trusted && s < |after| ==> after[s] == before[s]
  }

  /** The write can be done: the position exists, and an inserted key belongs there. */
  predicate Fits(leaf: LeafNode, w: Write)
    reads leaf
    requires leaf.Valid()
  {
    match w
    case Remove(ki) => ki < leaf.perm.size
    case Insert(p, key, _) =>
      && p <= leaf.perm.size && key.klen <= 9 && Ordered(Inserted(leaf.Entries(), p, key))
      && (leaf.hasPrev ==> key.ikey >= leaf.slots[0].ikey)
  }

  /** What the write makes of the entries. */
  function Result(entries: seq<Slot>, w: Write): seq<Slot>
    requires if w.Remove? then w.ki < |entries| else w.p <= |entries|
  {
    if w.Remove? then Without(entries, w.ki) else Inserted(entries, w.p, w.key)
  }

  /** One locked section.  A write that fits is done, with a new right sibling if the leaf splits; one that does
      not leaves everything as it was. */
  method Perform(leaf: LeafNode, w: Write) returns (marks: seq<Version.Op>, right: LeafNode?)
    requires leaf.Valid() && !leaf.marked
    modifies leaf
    ensures leaf.Valid() && !leaf.marked && (right != null ==> right.Valid())
    ensures marks == [] || marks == [Version.MarkInsert] || marks == [Version.MarkSplit]
    ensures right != null <==> marks == [Version.MarkSplit]
    ensures leaf.Entries() + (if right != null then right.Entries() else []) ==
      if old(Fits(leaf, w)) then Result(old(leaf.Entries()), w) else old(leaf.Entries())
    ensures marks == [] ==> old(leaf.published) <= leaf.published && Kept(old(leaf.published), old(leaf.slots), leaf.slots)
  {
    marks, right := [], null;
    if Fits(leaf, w) {
      match w {
        case Remove(ki) => leaf.Remove(ki);
        case Insert(p, key, hasNext) =>
          var splitIkey;
          right, splitIkey := leaf.Insert(p, key, hasNext);
          if leaf.marked { marks := if right != null then [Version.MarkSplit] else [Version.MarkInsert]; }
      }
    }
    leaf.Unlock();
  }

  /** What the word goes through in a section. */
  lemma OpStep(w: Version.Word, op: Version.Op)
    requires Version.WellFormed(w) && Version.Enabled(w, op)
    ensures op.Lock? ==> Version.Next(w, op).locked && !Version.Dirty(Version.Next(w, op))
    ensures op.MarkInsert? || op.MarkSplit? ==> Version.Next(w, op).locked && Version.Dirty(Version.Next(w, op))
    ensures op.Unlock? ==> !Version.Next(w, op).locked
    ensures Version.Bit(Version.MarkedUnlock(w, op)) == if op.Unlock? && Version.Dirty(w) then 1 else 0
  {}

  /** One more operation on the word. */
  lemma OpPush(x: Version.Word, ops: seq<Version.Op>, op: Version.Op, all: seq<Version.Op>)
    requires Version.WellFormed(x) && Version.Enabled(Version.After(x, ops), op) && all == ops + [op]
    ensures op.Lock? ==> Version.After(x, all).locked && !Version.Dirty(Version.After(x, all))
    ensures op.MarkInsert? || op.MarkSplit? ==> Version.After(x, all).locked && Version.Dirty(Version.After(x, all))
    ensures op.Unlock? ==> !Version.After(x, all).locked
    ensures Version.MarkedUnlocks(x, all) == Version.MarkedUnlocks(x, ops) + if op.Unlock? && Version.Dirty(Version.After(x, ops)) then 1 else 0
  {
    Version.AfterPush(x, ops, op);
    OpStep(Version.After(x, ops), op);
  }

  predicate Unlocked(x: Version.Word, ops: seq<Version.Op>)
    requires Version.WellFormed(x)
  {
    !Version.After(x, ops).locked
  }

  lemma PlainSection(x: Version.Word, a: seq<Version.Op>, b: seq<Version.Op>, c: seq<Version.Op>, lock: Version.Op, unlock: Version.Op)
    requires Version.WellFormed(x) && Unlocked(x, a) && b == a + [lock] && c == b + [unlock] && lock.Lock? && unlock.Unlock?
    ensures Unlocked(x, c) && Version.MarkedUnlocks(x, c) == Version.MarkedUnlocks(x, a)
  {
    OpPush(x, a, lock, b);
    OpPush(x, b, unlock, c);
  }

  lemma MarkedSection(x: Version.Word, a: seq<Version.Op>, b: seq<Version.Op>, c: seq<Version.Op>, d: seq<Version.Op>,
                      lock: Version.Op, mark: Version.Op, unlock: Version.Op)
    requires Version.WellFormed(x) && Unlocked(x, a) && b == a + [lock] && c == b + [mark] && d == c + [unlock]
    requires lock.Lock? && (mark.MarkInsert? || mark.MarkSplit?) && unlock.Unlock?
    ensures Unlocked(x, d) && Version.MarkedUnlocks(x, d) == Version.MarkedUnlocks(x, a) + 1
  {
    OpPush(x, a, lock, b);
    OpPush(x, b, mark, c);
    OpPush(x, c, unlock, d);
  }

  lemma SectionIs(ops: seq<Version.Op>, marks: seq<Version.Op>)
    ensures ops + Section(marks) == ops + [Version.Lock] + marks + [Version.Unlock]
  {}

  /** One section's effect on the word. */
  lemma SectionCounts(x: Version.Word, ops: seq<Version.Op>, marks: seq<Version.Op>, all: seq<Version.Op>)
    requires Version.WellFormed(x) && Unlocked(x, ops) && all == ops + Section(marks)
    requires marks == [] || marks == [Version.MarkInsert] || marks == [Version.MarkSplit]
    ensures Unlocked(x, all) && Version.MarkedUnlocks(x, all) == Version.MarkedUnlocks(x, ops) + |marks|
  {
    var a := ops + [Version.Lock];
    assert all == a + marks + [Version.Unlock] by { SectionIs(ops, marks); }
    if marks == [] {
      assert a + marks == a;
      PlainSection(x, ops, a, all, Version.Lock, Version.Unlock);
    } else {
      MarkedSection(x, ops, a, a + marks, all, Version.Lock, marks[0], Version.Unlock);
    }
  }

  /** Any number of sections, after the word changes `done`: without a marked one among them, every slot that
      was trusted at the start is as it was, and still trusted. */
  method Writers(leaf: LeafNode, writes: seq<Write>, x: Version.Word, done: seq<Version.Op>) returns (ops: seq<Version.Op>)
    requires leaf.Valid() && !leaf.marked && Version.WellFormed(x) && Unlocked(x, done)
    modifies leaf
    ensures leaf.Valid() && !leaf.marked && Unlocked(x, ops) && done <= ops
    ensures Version.MarkedUnlocks(x, ops) >= Version.MarkedUnlocks(x, done)
    ensures Version.MarkedUnlocks(x, ops) == Version.MarkedUnlocks(x, done) ==>
      old(leaf.published) <= leaf.published && Kept(old(leaf.published), old(leaf.slots), leaf.slots)
  {
    ops := done;
    for i := 0 to |writes|
      invariant leaf.Valid() && !leaf.marked && Unlocked(x, ops) && done <= ops
      invariant Version.MarkedUnlocks(x, ops) >= Version.MarkedUnlocks(x, done)
      invariant Version.MarkedUnlocks(x, ops) == Version.MarkedUnlocks(x, done) ==>
        old(leaf.published) <= leaf.published && Kept(old(leaf.published), old(leaf.slots), leaf.slots)
    {
      var marks, _ := Perform(leaf, writes[i]);
      SectionCounts(x, ops, marks, ops + Section(marks));
      ops := ops + Section(marks);
    }
  }

  /** The trusted slots are as they were, and still trusted. */
  ghost predicate Undisturbed(leaf: LeafNode, trusted: set<nat>, slots: seq<Slot>)
    reads leaf
  {
    trusted <= leaf.published && Kept(trusted, slots, leaf.slots)
  }

  /** How many marked sections have ended since `done`. */
  function Since(x: Version.Word, done: seq<Version.Op>, ops: seq<Version.Op>): int
    requires Version.WellFormed(x)
  {
    Version.MarkedUnlocks(x, ops) - Version.MarkedUnlocks(x, done)
  }

  /** One slot, after some sections of other threads. */
  method ReadSlot(leaf: LeafNode, k: nat, x: Version.Word, done: seq<Version.Op>, before: seq<Version.Op>, writes: seq<Write>,
                  ghost trusted: set<nat>, ghost slots: seq<Slot>) returns (slot: Slot, ops: seq<Version.Op>)
    requires leaf.Valid() && !leaf.marked && Version.WellFormed(x) && Unlocked(x, before) && k < WIDTH && k in trusted && |slots| == WIDTH
    requires Since(x, done, before) >= 0 && (Since(x, done, before) == 0 ==> Undisturbed(leaf, trusted, slots))
    modifies leaf
    ensures leaf.Valid() && !leaf.marked && Unlocked(x, ops) && before <= ops && Since(x, done, ops) >= Since(x, done, before)
    ensures Since(x, done, ops) == 0 ==> Undisturbed(leaf, trusted, slots) && slot == slots[k]
  {
    ops := Writers(leaf, writes, x, before);
    slot := leaf.slots[k];
  }

  /** A reader with stable word `x`, from the moment it loads the permutation, when the word has gone through
      `done`.  It reads slot by slot, with any sections in between and before its validation.  If it
      validates, and there were fewer than 2^19 marked sections, it saw the leaf's entries of that moment. */
  method Read(leaf: LeafNode, x: Version.Word, done: seq<Version.Op>, writes: nat -> seq<Write>)
    returns (seen: seq<Slot>, valid: bool, ops: seq<Version.Op>)
    requires leaf.Valid() && !leaf.marked && Version.WellFormed(x) && !x.locked && !Version.Dirty(x) && Unlocked(x, done)
    modifies leaf
    ensures leaf.Valid() && done <= ops && valid == !Version.HasChanged(Version.After(x, ops), x)
    ensures |seen| == old(leaf.perm.size)
    ensures valid && Version.MarkedUnlocks(x, ops) < Version.SPLITS ==> seen == old(leaf.Entries())
  {
    var perm := leaf.perm;
    ghost var trusted, slots := leaf.published, leaf.slots;
    seen, ops := [], done;
    for i := 0 to perm.size
      invariant leaf.Valid() && !leaf.marked && Unlocked(x, ops) && done <= ops && |seen| == i
      invariant Since(x, done, ops) >= 0
      invariant Since(x, done, ops) == 0 ==>
        Undisturbed(leaf, trusted, slots) && forall j :: 0 <= j < i ==> seen[j] == slots[perm.slots[j]]
    {
      assert perm.slots[i] in Upto(perm, perm.size);
      var slot;
      slot, ops := ReadSlot(leaf, perm.slots[i], x, done, ops, writes(i), trusted, slots);
      seen := seen + [slot];
    }
    ops := Writers(leaf, writes(perm.size), x, ops);
    valid := !Version.HasChanged(Version.After(x, ops), x);
    if valid && Version.MarkedUnlocks(x, ops) < Version.SPLITS {
      Version.ChangeIsDetected(x, ops);
      assert seen == View(perm, slots);
    }
  }
}
