/**
  A leaf's slots under insert, remove, slot reuse and split (masstree/masstree_insert.hh,
  masstree/masstree_remove.hh, masstree/masstree_split.hh).
*/
module Leaf {
  import opened Common
  import opened Permuter

  /** A slot: the key slice, its length class `min(length, 9)`, and a handle for the suffix and
      the value or next layer. */
  datatype Slot = Slot(ikey: nat, klen: nat, data: int)

  predicate Less(a: Slot, b: Slot) {
    Before(a.ikey, a.klen, b.ikey, b.klen)
  }

  predicate Ordered(s: seq<Slot>) {
    forall i, j :: 0 <= i < j < |s| ==> Less(s[i], s[j])
  }

  /** Length classes are 0 to 8, and 9 for a key with a suffix or a next layer. */
  predicate LengthsOk(s: seq<Slot>) {
    forall i :: 0 <= i < |s| ==> s[i].klen <= 9
  }

  /** The live slots in key order. */
  function View(perm: Perm, slots: seq<Slot>): (v: seq<Slot>)
    requires perm.Valid() && |slots| == WIDTH
    ensures |v| == perm.size
  {
    seq(perm.size, i requires 0 <= i < perm.size => slots[perm.slots[i]])
  }

  /** The slots at positions below `n`. */
  function Upto(perm: Perm, n: nat): set<nat>
    requires perm.Valid() && n <= WIDTH
  {
    set i | 0 <= i < n :: perm.slots[i]
  }

  lemma UptoInsert(p: Perm, i: nat, n: nat)
    requires p.Valid() && p.size < WIDTH && i <= n < WIDTH
    ensures Upto(p.InsertFromBack(i), n + 1) == Upto(p, n) + {p.Back()}
  {
    var q := p.InsertFromBack(i);
    forall x | x in Upto(p, n) + {p.Back()} ensures x in Upto(q, n + 1) {
      if x == p.Back() {
        assert q.slots[i] == x;
      } else {
        var k :| 0 <= k < n && p.slots[k] == x;
        assert q.slots[if k < i then k else k + 1] == x;
      }
    }
    forall x | x in Upto(q, n + 1) ensures x in Upto(p, n) + {p.Back()} {
      var k :| 0 <= k < n + 1 && q.slots[k] == x;
      if k != i { assert p.slots[if k < i then k else k - 1] == x; }
    }
  }

  lemma UptoRemove(p: Perm, i: nat, n: nat)
    requires p.Valid() && i < p.size <= n <= WIDTH
    ensures Upto(p.Remove(i), n) == Upto(p, n)
  {
    var q := p.Remove(i);
    forall x | x in Upto(p, n) ensures x in Upto(q, n) {
      var k :| 0 <= k < n && p.slots[k] == x;
      assert q.slots[if k < i || k >= p.size then k else if k == i then p.size - 1 else k - 1] == x;
    }
    forall x | x in Upto(q, n) ensures x in Upto(p, n) {
      var k :| 0 <= k < n && q.slots[k] == x;
      assert p.slots[if k < i || k >= p.size then k else if k == p.size - 1 then i else k + 1] == x;
    }
  }

  /** Slot 0 does not get further from the front than the removed slots. */
  lemma ZeroAfterRemove(p: Perm, i: nat, n: nat)
    requires p.Valid() && i < p.size <= n
    ensures (forall z :: 0 <= z < WIDTH && p.slots[z] == 0 ==> z <= n) ==>
      forall z :: 0 <= z < WIDTH && p.Remove(i).slots[z] == 0 ==> z <= n
  {
    var q := p.Remove(i);
    forall z | 0 <= z < WIDTH && q.slots[z] == 0 && z > n ensures p.slots[z] == 0 {}
  }

  /** A free slot is not in the view. */
  lemma FreeSlot(p: Perm, slots: seq<Slot>, k: nat, s: Slot)
    requires p.Valid() && |slots| == WIDTH && p.size <= k < WIDTH
    ensures View(p, slots[p.slots[k] := s]) == View(p, slots)
  {
  }

  lemma ViewInsert(p: Perm, slots: seq<Slot>, i: nat)
    requires p.Valid() && |slots| == WIDTH && i <= p.size < WIDTH
    ensures View(p.InsertFromBack(i), slots) == Inserted(View(p, slots), i, slots[p.Back()])
  {
  }

  lemma ViewRemove(p: Perm, slots: seq<Slot>, i: nat)
    requires p.Valid() && |slots| == WIDTH && i < p.size
    ensures View(p.Remove(i), slots) == View(p, slots)[..i] + View(p, slots)[i + 1..]
  {
  }

  /** Exchanging free positions leaves the view alone. */
  lemma ViewExchange(p: Perm, slots: seq<Slot>, i: nat, j: nat)
    requires p.Valid() && |slots| == WIDTH && p.size <= i < WIDTH && p.size <= j < WIDTH
    ensures View(p.Exchange(i, j), slots) == View(p, slots)
  {
  }

  /** A view that lost an entry is still ordered. */
  lemma OrderedRemove(s: seq<Slot>, i: nat, b: nat)
    requires Ordered(s) && LengthsOk(s) && i < |s| && forall x :: x in s ==> x.ikey >= b
    ensures var r := s[..i] + s[i + 1..];
      Ordered(r) && LengthsOk(r) && forall x :: x in r ==> x.ikey >= b
  {
  }

  lemma ViewToBack(p: Perm, slots: seq<Slot>, i: nat)
    requires p.Valid() && |slots| == WIDTH && i < p.size
    ensures View(p.RemoveToBack(i), slots) == View(p, slots)[..i] + View(p, slots)[i + 1..]
    ensures Inserted(View(p.RemoveToBack(i), slots), i, slots[p.slots[i]]) == View(p, slots)
  {
  }

  lemma ViewSorted(n: nat, slots: seq<Slot>)
    requires n <= WIDTH && |slots| == WIDTH
    ensures View(Perm.Sorted(n), slots) == slots[..n]
  {
  }

  lemma ViewPrefix(p: Perm, slots: seq<Slot>, n: nat, b: nat)
    requires p.Valid() && |slots| == WIDTH && n <= p.size
    requires Ordered(View(p, slots)) && LengthsOk(View(p, slots)) && forall s :: s in View(p, slots) ==> s.ikey >= b
    ensures var v := View(p.SetSize(n), slots);
      v == View(p, slots)[..n] && Ordered(v) && LengthsOk(v) && forall s :: s in v ==> s.ikey >= b
  {
  }

  /** Positions below `mid` have smaller slices than those from `mid` on. */
  ghost predicate SplitsAt(c: seq<Slot>, mid: nat) {
    && 0 < mid < |c|
    && (forall s :: s in c[..mid] ==> s.ikey < c[mid].ikey)
    && (forall s :: s in c[mid..] ==> s.ikey >= c[mid].ikey)
    && Ordered(c[mid..]) && LengthsOk(c[mid..])
  }

  lemma SplitOrders(c: seq<Slot>, mid: nat)
    requires Ordered(c) && LengthsOk(c) && 0 < mid < |c| && c[mid - 1].ikey < c[mid].ikey
    ensures SplitsAt(c, mid)
  {
    forall s | s in c[..mid] ensures s.ikey < c[mid].ikey {
      var k :| 0 <= k < mid && c[k] == s;
      if k < mid - 1 { assert Less(c[k], c[mid - 1]); }
    }
    forall s | s in c[mid..] ensures s.ikey >= c[mid].ikey {
      var k :| mid <= k < |c| && c[k] == s;
      if k > mid { assert Less(c[mid], c[k]); }
    }
  }

  lemma SplitLeftInsert(v: seq<Slot>, p: nat, key: Slot, mid: nat)
    requires p < mid <= |v| && Ordered(Inserted(v, p, key)) && LengthsOk(Inserted(v, p, key))
    ensures Inserted(v[..mid - 1], p, key) == Inserted(v, p, key)[..mid]
    ensures Ordered(Inserted(v[..mid - 1], p, key)) && key.klen <= 9
  {
    assert Inserted(v, p, key)[p] == key;
  }

  lemma InDrop(c: seq<Slot>, mid: nat, k: nat)
    requires mid <= |c| && k < |c|
    ensures k >= mid ==> c[k] in c[mid..]
  {
    assert k >= mid ==> c[mid..][k - mid] == c[k];
  }

  /** Slot 0 holds the lowest slice of a leaf with a predecessor, so its entry is not moved. */
  lemma ZeroStaysLeft(perm: Perm, slots: seq<Slot>, p: nat, key: Slot, mid: nat, b: nat)
    requires Splittable(perm, slots, p, key) && 0 < mid <= perm.size
    requires SplitsAt(Inserted(View(perm, slots), p, key), mid)
    requires slots[0].ikey == b && key.ikey >= b && forall s :: s in View(perm, slots) ==> s.ikey >= b
    ensures forall z :: 0 <= z < perm.size && perm.slots[z] == 0 ==> z < (if p < mid then mid - 1 else mid)
  {
    var v := View(perm, slots);
    var c := Inserted(v, p, key);
    forall z | 0 <= z < perm.size && perm.slots[z] == 0
      ensures z < (if p < mid then mid - 1 else mid)
    {
      var k := if z < p then z else z + 1;
      assert c[k] == v[z] == slots[0];
      assert c[0] in c[..mid] && c[0].ikey >= b by {
        if p > 0 { assert v[0] in v; }
      }
      InDrop(c, mid, k);
    }
  }

  /** The live slots are in order, and the removed ones fit. */
  ghost predicate Shaped(perm: Perm, slots: seq<Slot>, nremoved: nat) {
    && perm.Valid() && |slots| == WIDTH && perm.size + nremoved <= WIDTH
    && Ordered(View(perm, slots)) && LengthsOk(View(perm, slots))
  }

  /** Slot 0 has the lowest slice a leaf with a predecessor can hold. */
  ghost predicate Bounded(perm: Perm, slots: seq<Slot>, bound: nat)
    requires perm.Valid() && |slots| == WIDTH
  {
    slots[0].ikey == bound && forall s :: s in View(perm, slots) ==> s.ikey >= bound
  }

  /** Slot 0 of a leaf with a predecessor is live, or it is the free slot at one of the positions from
      `size` to `size + nremoved`. */
  ghost predicate ZeroOk(perm: Perm, nremoved: nat)
    requires perm.Valid()
  {
    forall z :: 0 <= z < WIDTH && perm.slots[z] == 0 ==> z <= perm.size + nremoved
  }

  /** A removal keeps all of it. */
  lemma RemoveShaped(perm: Perm, slots: seq<Slot>, nremoved: nat, ki: nat)
    requires Shaped(perm, slots, nremoved) && ki < perm.size
    ensures var q := perm.Remove(ki);
      && Shaped(q, slots, nremoved + 1) && View(q, slots) == View(perm, slots)[..ki] + View(perm, slots)[ki + 1..]
      && (ZeroOk(perm, nremoved) ==> ZeroOk(q, nremoved + 1))
  {
    ViewRemove(perm, slots, ki);
    OrderedRemove(View(perm, slots), ki, 0);
    ZeroAfterRemove(perm, ki, perm.size + nremoved);
  }

  lemma RemoveBounded(perm: Perm, slots: seq<Slot>, nremoved: nat, ki: nat, bound: nat)
    requires Shaped(perm, slots, nremoved) && ki < perm.size && Bounded(perm, slots, bound)
    ensures Bounded(perm.Remove(ki), slots, bound)
  {
    ViewRemove(perm, slots, ki);
    OrderedRemove(View(perm, slots), ki, bound);
  }

  /** Slots readers may know of stay among the live and the removed ones. */
  lemma RemovePublished(published: set<nat>, perm: Perm, ki: nat, nremoved: nat)
    requires perm.Valid() && ki < perm.size && perm.size + nremoved <= WIDTH
    requires published <= Upto(perm, perm.size + nremoved)
    ensures var q := perm.Remove(ki); published + Upto(q, q.size) <= Upto(q, q.size + (nremoved + 1))
  {
    UptoRemove(perm, ki, perm.size + nremoved);
  }

  /** What a split leaves of the permutation: the front part, and a free slot just above it. */
  predicate LeftOver(p: Perm, moved: nat, q: Perm)
    requires p.Valid() && p.size >= WIDTH - 1 && moved <= p.size
  {
    q == var l := p.SetSize(p.size - moved); if p.size != WIDTH then l.Exchange(l.size, WIDTH - 1) else l
  }

  lemma KeptShaped(p: Perm, slots: seq<Slot>, moved: nat, q: Perm)
    requires Shaped(p, slots, 0) && p.size >= WIDTH - 1 && moved <= p.size && LeftOver(p, moved, q)
    ensures Shaped(q, slots, 0) && q.size == p.size - moved && View(q, slots) == View(p, slots)[..q.size]
  {
    ViewPrefix(p, slots, p.size - moved, 0);
    if p.size != WIDTH { ViewExchange(p.SetSize(p.size - moved), slots, p.size - moved, WIDTH - 1); }
  }

  lemma KeptBounded(p: Perm, slots: seq<Slot>, moved: nat, q: Perm, b: nat)
    requires Shaped(p, slots, 0) && Bounded(p, slots, b) && p.size >= WIDTH - 1 && moved <= p.size && LeftOver(p, moved, q)
    requires p.size == WIDTH - 1 ==> p.Back() == 0
    requires p.size == WIDTH ==> forall z :: 0 <= z < WIDTH && p.slots[z] == 0 ==> z < WIDTH - moved
    ensures Bounded(q, slots, b) && ZeroOk(q, 0) && (moved > 0 ==> q.Back() != 0)
  {
    KeptShaped(p, slots, moved, q);
  }

  class LeafNode {
    var perm: Perm
    var nremoved: nat
    var slots: seq<Slot>
    /** `prev_ != 0`; a leaf never gains or loses having a predecessor. */
    const hasPrev: bool
    /** The insert or split mark is set in the version word. */
    var marked: bool
    /** `ikey0_[0]` at creation. */
    ghost const bound: nat
    /** Slots live in some permutation a reader can still trust: published since the last
        version change. */
    ghost var published: set<nat>

    constructor (perm: Perm, slots: seq<Slot>, hasPrev: bool)
      requires perm.Valid() && |slots| == WIDTH
      ensures this.perm == perm && this.slots == slots && this.hasPrev == hasPrev
      ensures nremoved == 0 && !marked && bound == slots[0].ikey && published == Upto(perm, perm.size)
    {
      this.perm, this.slots, this.hasPrev := perm, slots, hasPrev;
      nremoved, marked, bound := 0, false, slots[0].ikey;
      published := Upto(perm, perm.size);
    }

    /** What a reader that still trusts its version has seen is still there: no slot it can know
        of was written, unless the operation marked the version. */
    twostate predicate TrustedSlotsKept()
      reads this
    {
      !marked ==>
        && old(published) <= published && |old(slots)| == |slots|
        && forall s :: s in old(published) && s < |slots| ==> slots[s] == old(slots)[s]
    }

    /** What holds at every step, also inside an operation. */
    ghost predicate Shape()
      reads this
    {
      && Shaped(perm, slots, nremoved) && (hasPrev ==> Bounded(perm, slots, bound))
      && Upto(perm, perm.size) <= published
      && (marked || published <= Upto(perm, perm.size + nremoved))
    }

    /** What holds between operations. */
    ghost predicate Valid()
      reads this
    {
      Shape() && (hasPrev ==> ZeroOk(perm, nremoved))
    }

    function Entries(): seq<Slot>
      reads this
      requires perm.Valid() && |slots| == WIDTH
    {
      View(perm, slots)
    }

    /** A store to `permutation_`: readers may now see `p`. */
    method Publish(p: Perm)
      requires p.Valid()
      modifies `perm, `published
      ensures perm == p && published == old(published) + Upto(p, p.size)
    {
      perm := p;
      published := published + Upto(p, p.size);
    }

    /** A store to slot `kp`.  The discipline: a slot some trusting reader may be looking at is
        not written, and slot 0 of a leaf with a predecessor keeps its key slice. */
    method Assign(kp: nat, s: Slot)
      requires kp < WIDTH && |slots| == WIDTH
      requires marked || kp !in published
      requires hasPrev && kp == 0 ==> s.ikey == bound
      modifies `slots
      ensures slots == old(slots)[kp := s]
    {
      slots := slots[kp := s];
    }

    /** The insert part of `check_leaf_insert`: take the back slot if it is safe, else reuse the
        space of removed slots, else ask for a split (`kp == -1`). */
    method ChooseSlot(key: Slot) returns (kp: int)
      requires Valid() && !marked && (hasPrev ==> key.ikey >= bound)
      modifies this
      ensures Shape() && Entries() == old(Entries()) && perm.size == old(perm.size)
      ensures nremoved <= old(nremoved) && TrustedSlotsKept()
      ensures kp == -1 ==> Valid() && nremoved == 0 && perm.size >= WIDTH - 1
      ensures kp == -1 && perm.size == WIDTH - 1 ==> hasPrev && perm.Back() == 0 && key.ikey != bound
      ensures kp != -1 ==> 0 <= kp < WIDTH && perm.size + nremoved < WIDTH && kp == perm.Back() && slots[kp] == key
      ensures kp != -1 && kp != 0 ==> Valid()
    {
      while true
        invariant Valid() && Entries() == old(Entries()) && perm.size == old(perm.size) && nremoved <= old(nremoved)
        invariant slots == old(slots) && (marked || published == old(published))
        decreases nremoved
      {
        if perm.size + nremoved < WIDTH {
          kp := perm.Back();
          if kp != 0 || !hasPrev || slots[0].ikey == key.ikey {
            FreeSlot(perm, slots, WIDTH - 1, key);
            Assign(kp, key);
            return;
          }
        }
        if nremoved == 0 { return -1; }
        Reuse();
      }
    }

    /** Gives up the removed slots: mark the change, forget the removals, and keep slot 0 the last
        to be taken again. */
    method Reuse()
      requires Valid() && nremoved > 0
      modifies this
      ensures Valid() && Entries() == old(Entries()) && perm.size == old(perm.size)
      ensures marked && nremoved == 0 && slots == old(slots)
    {
      marked := true;
      nremoved := 0;
      var zeroidx := PositionOfZero(perm);
      if zeroidx > perm.size && hasPrev {
        ViewExchange(perm, slots, perm.size, zeroidx);
        Publish(perm.Exchange(perm.size, zeroidx));
      }
    }

    /** One insertion: the entry goes in at position `p`, into this leaf or, with a split, into it
        or its new right sibling. */
    method Insert(p: nat, key: Slot, hasNext: bool) returns (right: LeafNode?, splitIkey: nat)
      requires Valid() && !marked && (hasPrev ==> key.ikey >= bound)
      requires p <= perm.size && key.klen <= 9 && Ordered(Inserted(Entries(), p, key))
      modifies this
      ensures Valid() && TrustedSlotsKept() && (right != null ==> fresh(right) && right.Valid())
      ensures right == null ==> Entries() == Inserted(old(Entries()), p, key)
      ensures right != null ==>
        && Entries() + right.Entries() == Inserted(old(Entries()), p, key)
        && Entries() != [] && right.Entries() != [] && marked
        && (forall s :: s in Entries() ==> s.ikey < splitIkey)
        && right.hasPrev && right.bound == splitIkey
    {
      var kp := ChooseSlot(key);
      if kp == -1 {
        right, splitIkey := SplitInsert(p, key, hasNext);
      } else {
        FinishInsert(p);
        right, splitIkey := null, 0;
      }
    }

    /** `finish_insert`: the assigned back slot becomes live at position `ki`. */
    method FinishInsert(ki: nat)
      requires Shape() && ki <= perm.size && perm.size + nremoved < WIDTH
      requires hasPrev ==> (perm.Back() == 0 || ZeroOk(perm, nremoved)) && slots[perm.Back()].ikey >= bound
      requires slots[perm.Back()].klen <= 9
      requires Ordered(Inserted(Entries(), ki, slots[perm.Back()]))
      modifies this
      ensures Valid() && Entries() == Inserted(old(Entries()), ki, old(slots[perm.Back()]))
      ensures slots == old(slots) && marked == old(marked) && old(published) <= published
    {
      UptoInsert(perm, ki, perm.size + nremoved);
      ViewInsert(perm, slots, ki);
      Publish(perm.InsertFromBack(ki));
    }

    /** `finish_remove` up to the emptiness test. */
    method Remove(ki: nat)
      requires Valid() && ki < perm.size
      modifies this
      ensures Valid() && Entries() == old(Entries())[..ki] + old(Entries())[ki + 1..]
      ensures nremoved == old(nremoved) + 1 && marked == old(marked) && slots == old(slots) && TrustedSlotsKept()
    {
      ghost var p := perm;
      RemoveShaped(p, slots, nremoved, ki);
      if hasPrev { RemoveBounded(p, slots, nremoved, ki, bound); }
      if !marked { RemovePublished(published, p, ki, nremoved); }
      var q := perm.Remove(ki);
      Publish(q);
      nremoved := nremoved + 1;
      assert Shape();
    }

    /** `leaf_split`, the permutation fix-up of `finish_split`, and `finish_insert`: the leaf and a new
        right sibling share out the old entries and the new key. */
    method SplitInsert(p: nat, key: Slot, hasNext: bool) returns (right: LeafNode, splitIkey: nat)
      requires Valid() && nremoved == 0 && Splittable(perm, slots, p, key)
      requires perm.size == WIDTH - 1 ==> hasPrev && perm.Back() == 0
      requires hasPrev ==> key.ikey >= bound
      modifies this
      ensures fresh(right) && Valid() && right.Valid() && marked
      ensures Entries() + right.Entries() == Inserted(old(Entries()), p, key)
      ensures Entries() != [] && right.Entries() != []
      ensures forall s :: s in Entries() ==> s.ikey < splitIkey
      ensures right.hasPrev && right.bound == splitIkey && right.slots[0].ikey == splitIkey
    {
      ghost var c := Inserted(Entries(), p, key);
      var width := perm.size;
      var mid := SplitPoint(perm, slots, p, key, hasPrev, hasNext);
      SplitOrders(c, mid);
      if hasPrev { ZeroStaysLeft(perm, slots, p, key, mid, bound); }
      right := MakeRight(p, key, mid);
      splitIkey := right.slots[0].ikey;
      LeftPart(p, key, mid);
      assert c == c[..mid] + c[mid..];
    }

    /** The left leaf gives up its part of the combined sequence. */
    method LeftPart(p: nat, key: Slot, mid: nat)
      requires Valid() && nremoved == 0 && Splittable(perm, slots, p, key) && 0 < mid <= perm.size
      requires perm.size == WIDTH - 1 ==> hasPrev && perm.Back() == 0
      requires hasPrev ==> key.ikey >= bound
      requires hasPrev ==> forall z :: 0 <= z < perm.size && perm.slots[z] == 0 ==> z < (if p < mid then mid - 1 else mid)
      modifies this
      ensures Valid() && marked && Entries() == Inserted(old(Entries()), p, key)[..mid]
    {
      if p < mid {
        LeftWithKey(p, key, mid);
      } else {
        ghost var v := Entries();
        LeftKeep(perm.size - mid);
        assert Inserted(v, p, key)[..mid] == v[..mid];
      }
    }

    /** The same when the new key belongs to the left leaf. */
    method LeftWithKey(p: nat, key: Slot, mid: nat)
      requires Valid() && nremoved == 0 && Splittable(perm, slots, p, key) && p < mid <= perm.size
      requires perm.size == WIDTH - 1 ==> hasPrev && perm.Back() == 0
      requires hasPrev ==> key.ikey >= bound
      requires hasPrev ==> forall z :: 0 <= z < perm.size && perm.slots[z] == 0 ==> z < mid - 1
      modifies this
      ensures Valid() && marked && Entries() == Inserted(old(Entries()), p, key)[..mid]
    {
      ghost var v := Entries();
      SplitLeftInsert(v, p, key, mid);
      LeftKeep(perm.size + 1 - mid);
      assert Entries() == v[..mid - 1];
      PutInLeft(p, key);
    }

    /** The new key goes into the left leaf, in a slot whose entry has moved away. */
    method PutInLeft(p: nat, key: Slot)
      requires Valid() && marked && nremoved == 0 && p <= perm.size < WIDTH
      requires hasPrev ==> perm.Back() != 0 && key.ikey >= bound
      requires key.klen <= 9 && Ordered(Inserted(Entries(), p, key))
      modifies this
      ensures Valid() && marked && Entries() == Inserted(old(Entries()), p, key)
    {
      FreeSlot(perm, slots, WIDTH - 1, key);
      Assign(perm.Back(), key);
      FinishInsert(p);
    }

    /** The right sibling, with its part of the combined sequence. */
    method MakeRight(p: nat, key: Slot, mid: nat) returns (right: LeafNode)
      requires perm.Valid() && |slots| == WIDTH && Splittable(perm, slots, p, key)
      requires 0 < mid <= perm.size
      requires SplitsAt(Inserted(View(perm, slots), p, key), mid)
      ensures fresh(right) && right.Valid() && right.hasPrev
      ensures right.Entries() == Inserted(View(perm, slots), p, key)[mid..]
      ensures right.bound == right.slots[0].ikey == Inserted(View(perm, slots), p, key)[mid].ikey
    {
      ghost var c := Inserted(View(perm, slots), p, key);
      var rslots := RightSlots(perm, slots, p, key, mid);
      var n := perm.size + 1 - mid;
      assert rslots[..n][0] == rslots[0] == c[mid..][0];
      if p < mid {
        right := MakeRightPlain(n, rslots);
      } else {
        right := MakeRightWith(n, rslots, p - mid);
      }
    }

    /** The right sibling when the new key stays left. */
    static method MakeRightPlain(n: nat, rslots: seq<Slot>) returns (right: LeafNode)
      requires |rslots| == WIDTH && 0 < n <= WIDTH && Ordered(rslots[..n]) && LengthsOk(rslots[..n])
      requires forall s :: s in rslots[..n] ==> s.ikey >= rslots[0].ikey
      ensures fresh(right) && right.Valid() && right.hasPrev && right.slots == rslots
      ensures right.Entries() == rslots[..n] && right.bound == rslots[0].ikey
    {
      ViewSorted(n, rslots);
      right := new LeafNode(Perm.Sorted(n), rslots, true);
    }

    /** The right sibling when the new key, already in slot `i`, is among its entries. */
    static method MakeRightWith(n: nat, rslots: seq<Slot>, i: nat) returns (right: LeafNode)
      requires |rslots| == WIDTH && i < n <= WIDTH && Ordered(rslots[..n]) && LengthsOk(rslots[..n])
      requires forall s :: s in rslots[..n] ==> s.ikey >= rslots[0].ikey
      ensures fresh(right) && right.Valid() && right.hasPrev && right.slots == rslots
      ensures right.Entries() == rslots[..n] && right.bound == rslots[0].ikey
    {
      var all := Perm.Sorted(n);
      ViewSorted(n, rslots);
      ViewToBack(all, rslots, i);
      OrderedRemove(rslots[..n], i, rslots[0].ikey);
      assert rslots[i] in rslots[..n];
      right := new LeafNode(all.RemoveToBack(i), rslots, true);
      assert right.perm.Back() == i;
      right.FinishInsert(i);
    }

    /** The left leaf keeps `perm.size - moved` entries; a free slot, if any, stays just above them. */
    method LeftKeep(moved: nat)
      requires Valid() && nremoved == 0 && perm.size >= WIDTH - 1 && moved <= perm.size
      requires perm.size == WIDTH - 1 ==> hasPrev && perm.Back() == 0
      requires perm.size == WIDTH && hasPrev ==>
        forall z :: 0 <= z < WIDTH && perm.slots[z] == 0 ==> z < WIDTH - moved
      modifies this
      ensures Valid() && marked && nremoved == 0 && slots == old(slots)
      ensures perm.size == old(perm.size) - moved && Entries() == old(Entries())[..perm.size]
      ensures hasPrev && moved > 0 ==> perm.Back() != 0
    {
      var width := perm.size;
      var perml := perm.SetSize(width - moved);
      if width != WIDTH { perml := perml.Exchange(perml.size, WIDTH - 1); }
      KeptShaped(perm, slots, moved, perml);
      if hasPrev { KeptBounded(perm, slots, moved, perml, bound); }
      marked := true;
      Publish(perml);
    }

    /** `unlock`: a marked section changes the version, so only the permutation now in place is
        trusted. */
    method Unlock()
      requires Valid()
      modifies this
      ensures Valid() && !marked && slots == old(slots) && perm == old(perm) && nremoved == old(nremoved)
      ensures published == if old(marked) then Upto(perm, perm.size) else old(published)
    {
      if marked {
        published := Upto(perm, perm.size);
        marked := false;
      }
    }
  }

  /** `find_lowest_zero_nibble(perm.value_from(0))` */
  method PositionOfZero(p: Perm) returns (z: nat)
    requires p.Valid()
    ensures z < WIDTH && p.slots[z] == 0
  {
    var word: seq<Nibble> := [p.size] + seq(WIDTH, i requires 0 <= i < WIDTH => p.slots[i]);
    assert Abs(word).slots == p.slots;
    z := FindSlotZero(word);
  }

  // ----- splitting -----

  /** `leaf_ikey`: the slice at position `i` once `key` is inserted at position `p`. */
  function LeafIkey(perm: Perm, slots: seq<Slot>, key: Slot, p: nat, i: nat): (k: nat)
    requires perm.Valid() && |slots| == WIDTH && p <= perm.size && i <= perm.size
    ensures k == Inserted(View(perm, slots), p, key)[i].ikey
  {
    if i < p then slots[perm.slots[i]].ikey
    else if i == p then key.ikey
    else slots[perm.slots[i - 1]].ikey
  }

  /** Keys that share one slice have growing length classes, so there are at most ten of them. */
  lemma {:induction false} ClassGrows(c: seq<Slot>, k: nat)
    requires Ordered(c) && k < |c| && forall i :: 0 <= i < |c| ==> c[i].ikey == c[0].ikey
    ensures c[k].klen >= k
  {
    if k > 0 {
      ClassGrows(c, k - 1);
      assert Less(c[k - 1], c[k]);
    }
  }

  /** `key` can be inserted at position `p` of a leaf that must split. */
  ghost predicate Splittable(perm: Perm, slots: seq<Slot>, p: nat, key: Slot) {
    && perm.Valid() && |slots| == WIDTH && WIDTH - 1 <= perm.size && p <= perm.size
    && Ordered(Inserted(View(perm, slots), p, key)) && LengthsOk(Inserted(View(perm, slots), p, key))
  }

  /** A split at `m` separates different slices. */
  predicate Boundary(ikeys: seq<nat>, m: nat) {
    0 < m < |ikeys| && ikeys[m - 1] != ikeys[m]
  }

  function Distance(a: nat, b: nat): nat {
    if a < b then b - a else a - b
  }

  /** No boundary is nearer to `start` than `mid`. */
  ghost predicate Nearest(ikeys: seq<nat>, mid: nat, start: nat) {
    forall m {:trigger Boundary(ikeys, m)} :: Boundary(ikeys, m) ==> Distance(mid, start) <= Distance(m, start)
  }

  /** Where `leaf_split` would split: in the middle, or at an end where keys arrive in order. */
  function SplitStart(p: nat, width: nat, hasPrev: bool, hasNext: bool): nat {
    if p == 0 && !hasPrev then 1 else if p == width && !hasNext then width else WIDTH / 2 + 1
  }

  /** All keys between the two positions have this slice. */
  predicate SameSlice(ikeys: seq<nat>, midl: int, midr: int, ikey: nat) {
    forall k :: 0 <= k < |ikeys| && midl < k < midr ==> ikeys[k] == ikey
  }

  lemma NearestEnd(ikeys: seq<nat>, ikey: nat, midl: int, midr: nat, start: nat, mid: nat)
    requires midl + 1 < start < midr && midr - start == start - (midl + 1) && (mid == midr || mid == midl + 1)
    requires SameSlice(ikeys, midl, midr, ikey)
    ensures Nearest(ikeys, mid, start)
  {
    forall m: nat | 0 < m < |ikeys| && midl + 1 < m < midr ensures !Boundary(ikeys, m) {
      assert ikeys[m - 1] == ikey && ikeys[m] == ikey;
    }
  }

  /** The search for the nearer end of a run of keys with the same slice. */
  method NearerEnd(ikeys: seq<nat>, start: nat) returns (mid: nat)
    requires 0 < start < |ikeys| && ikeys[start - 1] == ikeys[start] && !SameSlice(ikeys, -1, |ikeys|, ikeys[start])
    ensures Boundary(ikeys, mid) && Nearest(ikeys, mid, start)
  {
    var midl, midr := start - 2, start + 1;
    while true
      invariant midl + 1 < start < midr && midr - start == start - (midl + 1) && SameSlice(ikeys, midl, midr, ikeys[start])
      decreases (if midr < |ikeys| then |ikeys| - midr else 0) + (if midl >= 0 then midl + 1 else 0)
    {
      if midr < |ikeys| && ikeys[start] != ikeys[midr] {
        NearestEnd(ikeys, ikeys[start], midl, midr, start, midr);
        return midr;
      } else if midl >= 0 && ikeys[start] != ikeys[midl] {
        NearestEnd(ikeys, ikeys[start], midl, midr, start, midl + 1);
        return midl + 1;
      }
      midl, midr := midl - 1, midr + 1;
    }
  }

  function Ikeys(c: seq<Slot>): seq<nat> {
    seq(|c|, i requires 0 <= i < |c| => c[i].ikey)
  }

  /** More than ten keys have different slices. */
  lemma SlicesDiffer(c: seq<Slot>, ikey: nat)
    requires Ordered(c) && LengthsOk(c) && |c| > 10
    ensures !SameSlice(Ikeys(c), -1, |c|, ikey)
  {
    if SameSlice(Ikeys(c), -1, |c|, ikey) {
      assert forall i :: 0 <= i < |c| ==> Ikeys(c)[i] == c[i].ikey;
      ClassGrows(c, |c| - 1);
    }
  }

  /** Moves a split position out of a run of keys with the same slice, to its nearer end. */
  method KeepSlicesTogether(perm: Perm, slots: seq<Slot>, p: nat, key: Slot, start: nat) returns (mid: nat)
    requires Splittable(perm, slots, p, key) && 0 < start <= perm.size
    requires LeafIkey(perm, slots, key, p, start - 1) == LeafIkey(perm, slots, key, p, start)
    ensures 0 < mid <= perm.size
    ensures LeafIkey(perm, slots, key, p, mid - 1) != LeafIkey(perm, slots, key, p, mid)
    ensures Nearest(Ikeys(Inserted(View(perm, slots), p, key)), mid, start)
  {
    ghost var c := Inserted(View(perm, slots), p, key);
    var ikeys := seq(perm.size + 1, i requires 0 <= i <= perm.size => LeafIkey(perm, slots, key, p, i));
    assert ikeys == Ikeys(c);
    SlicesDiffer(c, ikeys[start]);
    mid := NearerEnd(ikeys, start);
  }

  /** The split position of `leaf_split`: the middle, or an end when keys arrive in order at an end
      of the list, moved so that keys with the same slice stay together. */
  method SplitPoint(perm: Perm, slots: seq<Slot>, p: nat, key: Slot, hasPrev: bool, hasNext: bool) returns (mid: nat)
    requires Splittable(perm, slots, p, key)
    ensures 0 < mid <= perm.size
    ensures LeafIkey(perm, slots, key, p, mid - 1) < LeafIkey(perm, slots, key, p, mid)
    ensures Nearest(Ikeys(Inserted(View(perm, slots), p, key)), mid, SplitStart(p, perm.size, hasPrev, hasNext))
  {
    var width := perm.size;
    mid := WIDTH / 2 + 1;
    if p == 0 && !hasPrev { mid := 1; } else if p == width && !hasNext { mid := width; }
    if LeafIkey(perm, slots, key, p, mid) == LeafIkey(perm, slots, key, p, mid - 1) {
      mid := KeepSlicesTogether(perm, slots, p, key, mid);
    }
    ghost var c := Inserted(View(perm, slots), p, key);
    assert Less(c[mid - 1], c[mid]);
  }

  /** The right leaf of a split takes positions `mid` and up of the combined sequence into its
      slots from 0. */
  method RightSlots(perm: Perm, slots: seq<Slot>, p: nat, key: Slot, mid: nat) returns (r: seq<Slot>)
    requires perm.Valid() && |slots| == WIDTH && p <= perm.size && 0 < mid <= perm.size
    ensures |r| == WIDTH && r[..perm.size + 1 - mid] == Inserted(View(perm, slots), p, key)[mid..]
  {
    ghost var c := Inserted(View(perm, slots), p, key);
    r := seq(WIDTH, _ => Slot(0, 0, 0));
    var from := mid - if p < mid then 1 else 0;
    for x := mid to perm.size + 1
      invariant |r| == WIDTH && from == x - if p < x then 1 else 0
      invariant forall k :: 0 <= k < x - mid ==> r[k] == c[mid + k]
    {
      if x == p {
        r := r[x - mid := key];
      } else {
        r := r[x - mid := slots[perm.slots[from]]];
        from := from + 1;
      }
    }
  }
}
