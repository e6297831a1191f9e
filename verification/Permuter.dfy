/**
  The key permuter of a leaf (masstree/kpermuter.hh with width 15).

  Level one is the 64-bit word as its sixteen nibbles, lowest first: every shift in the source
  is by a multiple of four bits and every mask is made of whole nibbles.  Level two is the size
  with the permutation of the fifteen slots.  The word operations are shown to refine the
  operations on sequences, and those to meet their documented index equations.
*/
module Permuter {
  import opened Common

  type Nibble = n: nat | n < 16

  // ----- level one: nibble-wise operations -----

  predicate IsWord(w: seq<Nibble>) { |w| == 16 }

  /** `w & mask`, the mask being the nibbles from `lo` up to, not including, `hi`. */
  function Keep(w: seq<Nibble>, lo: nat, hi: nat): seq<Nibble>
    requires IsWord(w)
  {
    seq(16, k requires 0 <= k < 16 => if lo <= k < hi then w[k] else 0)
  }

  /** `w & ~mask` */
  function Drop(w: seq<Nibble>, lo: nat, hi: nat): seq<Nibble>
    requires IsWord(w)
  {
    seq(16, k requires 0 <= k < 16 => if lo <= k < hi then 0 else w[k])
  }

  /** `w << 4 * n` */
  function Shl(w: seq<Nibble>, n: nat): seq<Nibble>
    requires IsWord(w)
  {
    seq(16, k requires 0 <= k < 16 => if k < n then 0 else w[k - n])
  }

  /** `w >> 4 * n` */
  function Shr(w: seq<Nibble>, n: nat): seq<Nibble>
    requires IsWord(w)
  {
    seq(16, k requires 0 <= k < 16 => if k + n < 16 then w[k + n] else 0)
  }

  /** `v << 4 * n` for a single nibble. */
  function At(v: Nibble, n: nat): seq<Nibble> {
    seq(16, k requires 0 <= k < 16 => if k == n then v else 0)
  }

  /** The operands of an `|` never overlap. */
  predicate Disjoint(a: seq<Nibble>, b: seq<Nibble>) {
    IsWord(a) && IsWord(b) && forall k :: 0 <= k < 16 ==> a[k] == 0 || b[k] == 0
  }

  function Or(a: seq<Nibble>, b: seq<Nibble>): seq<Nibble>
    requires Disjoint(a, b)
  {
    seq(16, k requires 0 <= k < 16 => if a[k] == 0 then b[k] else a[k])
  }

  /** `w + 1` and `w - 1` where the size nibble does not carry or borrow. */
  function Inc(w: seq<Nibble>): seq<Nibble>
    requires IsWord(w) && w[0] < 15
  {
    w[0 := w[0] + 1]
  }

  function Dec(w: seq<Nibble>): seq<Nibble>
    requires IsWord(w) && w[0] > 0
  {
    w[0 := w[0] - 1]
  }

  // ----- level two: size and permutation -----

  /** No slot is listed twice. */
  predicate OneToOne(s: seq<nat>) {
    forall i, j :: 0 <= i < j < |s| ==> s[i] != s[j]
  }

  datatype Perm = Perm(size: nat, slots: seq<nat>) {

    /** `slots` is a permutation of the fifteen slots. */
    predicate Valid() {
      && size <= WIDTH && |slots| == WIDTH && OneToOne(slots)
      && forall i :: 0 <= i < WIDTH ==> slots[i] < WIDTH
    }

    function Back(): nat
      requires Valid()
    {
      slots[WIDTH - 1]
    }

    function InsertFromBack(i: nat): (q: Perm)
      requires Valid() && i < WIDTH && size < WIDTH
      ensures q.Valid() && q.size == size + 1
      ensures q.slots[i] == Back()
      ensures forall j :: 0 <= j < i ==> q.slots[j] == slots[j] && q.slots[j] != Back()
      ensures forall j :: i < j < WIDTH ==> q.slots[j] == slots[j - 1] && q.slots[j] != Back()
    {
      Perm(size + 1, slots[..i] + [Back()] + slots[i..WIDTH - 1])
    }

    function Remove(i: nat): (q: Perm)
      requires Valid() && i < size
      ensures q.Valid() && q.size == size - 1
      ensures forall j :: 0 <= j < i ==> q.slots[j] == slots[j]
      ensures forall j :: i <= j < q.size ==> q.slots[j] == slots[j + 1]
      ensures q.slots[q.size] == slots[i]
      ensures forall j :: size <= j < WIDTH ==> q.slots[j] == slots[j]
    {
      Perm(size - 1, slots[..i] + slots[i + 1..size] + [slots[i]] + slots[size..])
    }

    function RemoveToBack(i: nat): (q: Perm)
      requires Valid() && i < size
      ensures q.Valid() && q.size == size - 1
      ensures forall j :: 0 <= j < i ==> q.slots[j] == slots[j]
      ensures forall j :: i <= j < WIDTH - 1 ==> q.slots[j] == slots[j + 1]
      ensures q.Back() == slots[i]
    {
      Perm(size - 1, slots[..i] + slots[i + 1..] + [slots[i]])
    }

    function Exchange(i: nat, j: nat): (q: Perm)
      requires Valid() && i < WIDTH && j < WIDTH
      ensures q.Valid() && q.size == size
      ensures q.slots[i] == slots[j] && q.slots[j] == slots[i]
      ensures forall k :: 0 <= k < WIDTH && k != i && k != j ==> q.slots[k] == slots[k]
    {
      Perm(size, slots[i := slots[j]][j := slots[i]])
    }

    function SetSize(n: nat): (q: Perm)
      requires Valid() && n <= WIDTH
      ensures q.Valid()
    {
      Perm(n, slots)
    }

    /** Size `n`, the first `n` slots in order, the rest free and allocated in order from the
        back. */
    static function Sorted(n: nat): (p: Perm)
      requires n <= WIDTH
      ensures p.Valid()
    {
      Perm(n, seq(WIDTH, k requires 0 <= k < WIDTH => if k < n then k else WIDTH - 1 - (k - n)))
    }
  }

  function Abs(w: seq<Nibble>): Perm
    requires IsWord(w)
  {
    Perm(w[0], w[1..])
  }

  // ----- the word operations -----

  /** 0x0123456789ABCDE0 and 0xEDCBA98765432100 */
  function InitialValue(): (w: seq<Nibble>)
    ensures IsWord(w)
  {
    [0, 14, 13, 12, 11, 10, 9, 8, 7, 6, 5, 4, 3, 2, 1, 0]
  }

  function FullValue(): (w: seq<Nibble>)
    ensures IsWord(w)
  {
    [0, 0, 1, 2, 3, 4, 5, 6, 7, 8, 9, 10, 11, 12, 13, 14]
  }

  function MakeEmpty(): seq<Nibble> {
    Drop(InitialValue(), 0, 1)
  }

  function MakeSorted(n: nat): (w: seq<Nibble>)
    requires n <= WIDTH
    ensures IsWord(w) && Abs(w) == Perm.Sorted(n)
  {
    var w := Or(Or(Shl(MakeEmpty(), n), Keep(FullValue(), 0, n + 1)), At(n, 0));
    assert forall k :: 0 <= k < WIDTH ==> w[1..][k] == Perm.Sorted(n).slots[k];
    w
  }

  /** `remove`: the nibbles from position `i` to the last live one rotate down by one. */
  function Rotate(x: seq<Nibble>, i: nat): seq<Nibble>
    requires IsWord(x) && i + 1 < x[0]
  {
    var rot := x[0] - i - 1;
    var lo, hi := i + 1, i + 2 + rot;
    Or(Or(Drop(Dec(x), lo, hi), Keep(Shr(Keep(x, lo, hi), 1), lo, hi)), Keep(Shl(Keep(x, lo, hi), rot), lo, hi))
  }

  lemma RotateRefines(x: seq<Nibble>, i: nat)
    requires IsWord(x) && i + 1 < x[0] && Abs(x).Valid()
    ensures IsWord(Rotate(x, i)) && Abs(Rotate(x, i)) == Abs(x).Remove(i)
  {
    var y, n := Rotate(x, i), x[0];
    assert y[0] == n - 1;
    forall k | 0 < k < 16
      ensures y[k] == if i + 1 <= k < n then x[k + 1] else if k == n then x[i + 1] else x[k]
    {
    }
  }

  /** `remove_to_back`: everything above position `i` moves down and the removed slot to the end. */
  function ToBack(x: seq<Nibble>, i: nat): seq<Nibble>
    requires IsWord(x) && i < x[0]
  {
    Or(Or(Drop(Dec(x), i + 1, 16), Keep(Shr(x, 1), i + 1, 16)), Shl(Keep(x, i + 1, 16), WIDTH - i - 1))
  }

  lemma ToBackRefines(x: seq<Nibble>, i: nat)
    requires IsWord(x) && i < x[0] && Abs(x).Valid()
    ensures IsWord(ToBack(x, i)) && Abs(ToBack(x, i)) == Abs(x).RemoveToBack(i)
  {
    var y := ToBack(x, i);
    assert y[0] == x[0] - 1;
    forall k | 0 < k < 16
      ensures y[k] == if k <= i then x[k] else if k < 15 then x[k + 1] else x[i + 1]
    {
    }
  }

  /** The permuter of a leaf, overwritten in place. */
  class Kpermuter {
    var x: seq<Nibble>

    ghost predicate Ok()
      reads this
    {
      IsWord(x) && Abs(x).Valid()
    }

    constructor (n: nat)
      requires n <= WIDTH
      ensures Ok() && Abs(x) == Perm.Sorted(n)
    {
      x := MakeSorted(n);
    }

    method InsertFromBack(i: nat) returns (value: nat)
      requires Ok() && i < WIDTH && x[0] < WIDTH
      modifies this
      ensures Ok() && Abs(x) == old(Abs(x)).InsertFromBack(i) && value == old(Abs(x)).Back()
    {
      value := x[WIDTH];
      x := Or(Or(Keep(Inc(x), 0, i + 1), At(value, i + 1)), Drop(Shl(x, 1), 0, i + 2));
    }

    method Remove(i: nat)
      requires Ok() && i < x[0]
      modifies this
      ensures Ok() && Abs(x) == old(Abs(x)).Remove(i)
    {
      if x[0] == i + 1 {
        x := Dec(x);
      } else {
        RotateRefines(x, i);
        x := Rotate(x, i);
      }
    }

    method RemoveToBack(i: nat)
      requires Ok() && i < x[0]
      modifies this
      ensures Ok() && Abs(x) == old(Abs(x)).RemoveToBack(i)
    {
      ToBackRefines(x, i);
      x := ToBack(x, i);
    }

    method Exchange(i: nat, j: nat)
      requires Ok() && i < WIDTH && j < WIDTH
      modifies this
      ensures Ok() && Abs(x) == old(Abs(x)).Exchange(i, j)
    {
      // diff is nibble 1 of the two shifted words; it is then xor-ed in at both positions
      var diff := Xor(Shr(x, i)[1], Shr(x, j)[1]);
      XorSwaps(x[i + 1], x[j + 1]);
      if i != j {
        x := x[i + 1 := Xor(x[i + 1], diff)][j + 1 := Xor(x[j + 1], diff)];
      }
    }

    method SetSize(n: nat)
      requires Ok() && n <= WIDTH
      modifies this
      ensures Ok() && Abs(x) == old(Abs(x)).SetSize(n)
    {
      x := Or(Drop(x, 0, 1), At(n, 0));
    }
  }

  function Xor(a: Nibble, b: Nibble): (r: Nibble) {
    XorBound(a, b, 4);
    XorBits(a, b, 4)
  }

  lemma {:induction false} XorBound(a: nat, b: nat, bits: nat)
    ensures XorBits(a, b, bits) < Pow2(bits)
  {
    if bits > 0 { XorBound(a / 2, b / 2, bits - 1); }
  }

  lemma {:induction false} XorInverts(a: nat, b: nat, bits: nat)
    requires b < Pow2(bits)
    ensures XorBits(a, XorBits(a, b, bits), bits) == b
  {
    if bits > 0 { XorInverts(a / 2, b / 2, bits - 1); }
  }

  lemma {:induction false} XorSymmetric(a: nat, b: nat, bits: nat)
    ensures XorBits(a, b, bits) == XorBits(b, a, bits)
  {
    if bits > 0 { XorSymmetric(a / 2, b / 2, bits - 1); }
  }

  lemma XorSwaps(a: Nibble, b: Nibble)
    ensures Xor(a, Xor(a, b)) == b && Xor(b, Xor(a, b)) == a
  {
    assert Pow2(4) == 16;
    XorInverts(a, b, 4);
    XorInverts(b, a, 4);
    XorSymmetric(a, b, 4);
  }

  // ----- find_lowest_zero_nibble -----

  /** The borrow into nibble `k` of `x - 0x1111111111111111`. */
  function Borrow(x: seq<Nibble>, k: nat): nat
    requires k <= |x|
  {
    if k == 0 then 0 else if x[k - 1] < 1 + Borrow(x, k - 1) then 1 else 0
  }

  /** Nibble `k` of `x - 0x1111111111111111`. */
  function MinusOnes(x: seq<Nibble>, k: nat): Nibble
    requires k < |x|
  {
    (x[k] + 16 - 1 - Borrow(x, k)) % 16
  }

  /** Nibble `k` of `0x8888888888888888 & (x - l) & ~x` is not zero. */
  predicate TopBit(x: seq<Nibble>, k: nat)
    requires k < |x|
  {
    MinusOnes(x, k) >= 8 && x[k] < 8
  }

  /** Below the first zero nibble nothing borrows. */
  lemma {:induction false} NoBorrow(x: seq<Nibble>, k: nat)
    requires k <= |x| && forall j :: 0 <= j < k ==> x[j] != 0
    ensures Borrow(x, k) == 0
  {
    if k > 0 { NoBorrow(x, k - 1); }
  }

  /** The lowest set bit of `t` is in the lowest zero nibble of `x`, whatever the borrows do above
      it. */
  method FindLowestZeroNibble(x: seq<Nibble>) returns (r: int)
    ensures r == -1 ==> forall k :: 0 <= k < |x| ==> x[k] != 0
    ensures r != -1 ==> 0 <= r < |x| && x[r] == 0 && forall k :: 0 <= k < r ==> x[k] != 0
  {
    // count trailing zeros of t, in nibbles
    r := 0;
    while r < |x| && !TopBit(x, r)
      invariant 0 <= r <= |x| && forall k :: 0 <= k < r ==> x[k] != 0
    {
      NoBorrow(x, r);
      r := r + 1;
    }
    if r == |x| { r := -1; } else { NoBorrow(x, r); }
  }

  /** In a leaf's permuter the search started at position 0 finds where slot 0 is. */
  method FindSlotZero(x: seq<Nibble>) returns (z: nat)
    requires IsWord(x) && Abs(x).Valid()
    ensures z < WIDTH && Abs(x).slots[z] == 0
  {
    var r := FindLowestZeroNibble(Shr(x, 1));
    SlotZeroExists(Abs(x).slots);
    assert forall k :: 0 <= k < WIDTH ==> Shr(x, 1)[k] == Abs(x).slots[k];
    z := r;
  }

  /** A permutation of the fifteen slots holds slot 0. */
  lemma SlotZeroExists(s: seq<nat>)
    requires |s| == WIDTH && OneToOne(s) && forall i :: 0 <= i < WIDTH ==> s[i] < WIDTH
    ensures exists i :: 0 <= i < WIDTH && s[i] == 0
  {
    if forall i :: 0 <= i < WIDTH ==> s[i] != 0 {
      Pigeonhole(s, WIDTH);
    }
  }

  /** Fewer than `n` numbers cannot fill `n` distinct places. */
  lemma {:induction false} Pigeonhole(s: seq<nat>, n: nat)
    requires |s| == n && n > 0 && OneToOne(s) && forall i :: 0 <= i < n ==> 0 < s[i] < n
    ensures false
  {
    assert 0 < s[0] < n;
    if k :| 0 <= k < n && s[k] == n - 1 {
      var t := s[..k] + s[k + 1..];
      Pigeonhole(t, n - 1);
    } else {
      Pigeonhole(s[..n - 1], n - 1);
    }
  }
}
