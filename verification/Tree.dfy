/**
  One layer's B+tree as a value: routing, leaf removal with separator reshaping and collapse
  (masstree/masstree_remove.hh), and upward propagation of splits (masstree/masstree_split.hh).

  A node's interval of key slices is passed down from its parent's separators.  The first leaf of a
  layer has bound 0; every other leaf's bound is its `ikey_bound()`.
*/
module Tree {
  import opened Common

  /** Key slices are 64-bit numbers. */
  const SLICES: nat := 0x1_0000_0000_0000_0000

  /** A live leaf slot: a value, whose key ends in this slice or has a suffix (length class 9), or the
      next layer for all longer keys with this slice. */
  datatype Entry =
    | Val(ikey: nat, len: nat, suffix: seq<Byte>, value: int)
    | Sub(ikey: nat, layer: Node)
  {
    /** The length class used in comparisons. */
    function Class(): (c: nat) {
      if Val? then len else 9
    }
  }

  datatype Node =
    | Null
    | Leaf(bound: nat, data: seq<Entry>)
    | Inode(keys: seq<nat>, kids: seq<Node>)

  // ----- order inside a leaf -----

  predicate Sorted(data: seq<Entry>) {
    forall i, j :: 0 <= i < j < |data| ==> Before(data[i].ikey, data[i].Class(), data[j].ikey, data[j].Class())
  }

  predicate Within(data: seq<Entry>, lo: nat, hi: nat) {
    forall i :: 0 <= i < |data| ==> lo <= data[i].ikey < hi
  }

  // ----- well-formed nodes -----

  function KidLo(keys: seq<nat>, lo: nat, i: nat): nat
    requires i <= |keys|
  {
    if i == 0 then lo else keys[i - 1]
  }

  function KidHi(keys: seq<nat>, hi: nat, i: nat): nat
    requires i <= |keys|
  {
    if i == |keys| then hi else keys[i]
  }

  /** Child `i` covers its interval; only a first child with an empty interval may be missing. */
  ghost predicate KidOk(n: Node, lo: nat, hi: nat, i: nat)
    requires n.Inode? && |n.kids| == |n.keys| + 1 && i < |n.kids|
    decreases n, 0
  {
    if i == 0 && n.kids[0].Null? then
      |n.keys| > 0 && n.keys[0] == lo
    else
      WF(n.kids[i], KidLo(n.keys, lo, i), KidHi(n.keys, hi, i))
  }

  ghost predicate KidsOk(n: Node, lo: nat, hi: nat)
    requires n.Inode?
    decreases n, 1
  {
    |n.kids| == |n.keys| + 1 && forall i :: 0 <= i < |n.kids| ==> KidOk(n, lo, hi, i)
  }

  /** The subtree is responsible for exactly the slices from `lo` up to `hi`. */
  ghost predicate WF(n: Node, lo: nat, hi: nat)
    decreases n, 2
  {
    match n
    case Null => false
    case Leaf(b, data) => b == lo < hi && |data| <= WIDTH && Sorted(data) && Within(data, lo, hi)
    case Inode(keys, _) => |keys| <= WIDTH && KidsOk(n, lo, hi)
  }

  lemma {:induction false} Nonempty(n: Node, lo: nat, hi: nat)
    requires WF(n, lo, hi)
    ensures lo < hi
    decreases n
  {
    if n.Inode? {
      var last := |n.keys|;
      forall i | 0 <= i <= last ensures KidLo(n.keys, lo, i) <= KidHi(n.keys, hi, i) {
        assert KidOk(n, lo, hi, i);
        if !(i == 0 && n.kids[0].Null?) { Nonempty(n.kids[i], KidLo(n.keys, lo, i), KidHi(n.keys, hi, i)); }
      }
      assert KidOk(n, lo, hi, last);
      Nonempty(n.kids[last], KidLo(n.keys, lo, last), hi);
      AscendTo(n.keys, lo, hi, 0, last);
    }
  }

  /** No interval ends before it starts. */
  ghost predicate Ascending(keys: seq<nat>, lo: nat, hi: nat) {
    forall i :: 0 <= i <= |keys| ==> KidLo(keys, lo, i) <= KidHi(keys, hi, i)
  }

  lemma {:induction false} AscendTo(keys: seq<nat>, lo: nat, hi: nat, i: nat, j: nat)
    requires Ascending(keys, lo, hi) && i <= j <= |keys|
    ensures KidLo(keys, lo, i) <= KidLo(keys, lo, j) <= KidHi(keys, hi, j)
    ensures i < j ==> keys[i] <= KidLo(keys, lo, j)
    decreases j
  {
    assert KidLo(keys, lo, j) <= KidHi(keys, hi, j);
    if i < j {
      AscendTo(keys, lo, hi, i, j - 1);
      assert KidHi(keys, hi, j - 1) == KidLo(keys, lo, j);
    }
  }

  /** All children but the one at `at` are as they should be. */
  ghost predicate OthersOk(n: Node, lo: nat, hi: nat, at: nat) {
    && n.Inode? && |n.kids| == |n.keys| + 1 && at < |n.kids|
    && forall i :: 0 <= i < |n.kids| && i != at ==> KidOk(n, lo, hi, i)
  }

  lemma OthersAscend(n: Node, lo: nat, hi: nat, at: nat)
    requires OthersOk(n, lo, hi, at) && KidLo(n.keys, lo, at) < KidHi(n.keys, hi, at)
    ensures Ascending(n.keys, lo, hi)
  {
    forall i | 0 <= i <= |n.keys| ensures KidLo(n.keys, lo, i) <= KidHi(n.keys, hi, i) {
      if i != at {
        assert KidOk(n, lo, hi, i);
        if !(i == 0 && n.kids[0].Null?) { Nonempty(n.kids[i], KidLo(n.keys, lo, i), KidHi(n.keys, hi, i)); }
      }
    }
  }

  /** A subtree can take over slices above its own. */
  lemma {:induction false} Widen(n: Node, lo: nat, hi: nat, more: nat)
    requires WF(n, lo, hi) && hi <= more
    ensures WF(n, lo, more)
    decreases n
  {
    if n.Inode? {
      forall i | 0 <= i < |n.kids| ensures KidOk(n, lo, more, i) {
        assert KidOk(n, lo, hi, i);
        if i == |n.keys| {
          Nonempty(n.kids[i], KidLo(n.keys, lo, i), hi);
          Widen(n.kids[i], KidLo(n.keys, lo, i), hi, more);
        }
      }
    }
  }

  // ----- searching separators -----

  /** The first position whose separator is above `k`. */
  function Upper(keys: seq<nat>, k: nat): (u: nat)
    ensures u <= |keys|
    ensures u < |keys| ==> k < keys[u]
    ensures forall i :: 0 <= i < u ==> keys[i] <= k
  {
    if keys == [] || k < keys[0] then 0 else 1 + Upper(keys[1..], k)
  }

  /** The linear search used in nodes of this width. */
  method UpperLinear(keys: seq<nat>, k: nat) returns (l: nat)
    ensures l == Upper(keys, k)
  {
    l := 0;
    while l < |keys|
      invariant l <= |keys| && forall i :: 0 <= i < l ==> keys[i] <= k
    {
      if k < keys[l] { break; }
      l := l + 1;
    }
    UpperUnique(keys, k, l);
  }

  lemma UpperUnique(keys: seq<nat>, k: nat, l: nat)
    requires l <= |keys| && (l < |keys| ==> k < keys[l]) && forall i :: 0 <= i < l ==> keys[i] <= k
    ensures l == Upper(keys, k)
  {}

  /** The binary search, which may stop early at an equal separator. */
  method UpperBinary(keys: seq<nat>, k: nat) returns (l: nat)
    requires forall i, j :: 0 <= i < j < |keys| ==> keys[i] < keys[j]
    ensures l == Upper(keys, k)
  {
    l := 0;
    var r := |keys|;
    while l < r
      invariant l <= r <= |keys|
      invariant forall i :: 0 <= i < l ==> keys[i] <= k
      invariant forall i :: r <= i < |keys| ==> k < keys[i]
    {
      var m := (l + r) / 2;
      if k < keys[m] {
        r := m;
      } else if k == keys[m] {
        UpperUnique(keys, k, m + 1);
        return m + 1;
      } else {
        l := m + 1;
      }
    }
    UpperUnique(keys, k, l);
  }

  /** The separators lead to the child whose interval holds the slice. */
  lemma UpperFinds(keys: seq<nat>, lo: nat, hi: nat, k: nat, at: nat)
    requires Ascending(keys, lo, hi) && at <= |keys|
    requires KidLo(keys, lo, at) <= k < KidHi(keys, hi, at)
    ensures Upper(keys, k) == at
  {
    forall i | 0 <= i < at ensures keys[i] <= k { AscendTo(keys, lo, hi, i, at); }
    UpperUnique(keys, k, at);
  }

  /** The converse: for a slice in the node's interval the child found is never missing. */
  lemma UpperInside(n: Node, lo: nat, hi: nat, k: nat)
    requires n.Inode? && KidsOk(n, lo, hi) && lo <= k < hi
    ensures var u := Upper(n.keys, k);
      WF(n.kids[u], KidLo(n.keys, lo, u), KidHi(n.keys, hi, u)) && KidLo(n.keys, lo, u) <= k < KidHi(n.keys, hi, u)
  {
    assert KidOk(n, lo, hi, Upper(n.keys, k));
  }

  // ----- the leaves below a node -----

  function Leaves(n: Node): (ls: seq<Node>)
    ensures forall i :: 0 <= i < |ls| ==> ls[i].Leaf?
    decreases n
  {
    match n
    case Null => []
    case Leaf(_, _) => [n]
    case Inode(_, kids) => KidLeaves(kids)
  }

  function KidLeaves(kids: seq<Node>): (ls: seq<Node>)
    ensures forall i :: 0 <= i < |ls| ==> ls[i].Leaf?
    decreases kids
  {
    if kids == [] then [] else Leaves(kids[0]) + KidLeaves(kids[1..])
  }

  lemma {:induction false} KidLeavesConcat(a: seq<Node>, b: seq<Node>)
    ensures KidLeaves(a + b) == KidLeaves(a) + KidLeaves(b)
  {
    if a == [] {
      assert a + b == b;
    } else {
      assert (a + b)[1..] == a[1..] + b;
      KidLeavesConcat(a[1..], b);
    }
  }

  lemma KidLeavesFrom(kids: seq<Node>, i: nat)
    requires i < |kids|
    ensures KidLeaves(kids[i..]) == Leaves(kids[i]) + KidLeaves(kids[i + 1..])
  {
    assert kids[i..][1..] == kids[i + 1..];
  }

  lemma KidLeavesAround(kids: seq<Node>, at: nat)
    requires at < |kids|
    ensures KidLeaves(kids) == KidLeaves(kids[..at]) + Leaves(kids[at]) + KidLeaves(kids[at + 1..])
  {
    assert kids == kids[..at] + kids[at..];
    KidLeavesConcat(kids[..at], kids[at..]);
    KidLeavesFrom(kids, at);
  }

  /** Where the interval of leaf `i` of a list ends. */
  function NextBound(ls: seq<Node>, hi: nat, i: nat): nat
    requires i < |ls| && forall j :: 0 <= j < |ls| ==> ls[j].Leaf?
  {
    if i + 1 < |ls| then ls[i + 1].bound else hi
  }

  /** Leaf `i` of a list is responsible for the slices up to the next leaf's bound. */
  ghost predicate LeafOk(ls: seq<Node>, hi: nat, i: nat) {
    && i < |ls| && (forall j :: 0 <= j < |ls| ==> ls[j].Leaf?)
    && WF(ls[i], ls[i].bound, NextBound(ls, hi, i))
  }

  /** The leaves share out the slices from `lo` up to `hi`, in order. */
  ghost predicate Covers(ls: seq<Node>, lo: nat, hi: nat) {
    && |ls| > 0 && (forall i :: 0 <= i < |ls| ==> ls[i].Leaf?) && ls[0].bound == lo
    && forall i {:trigger LeafOk(ls, hi, i)} :: 0 <= i < |ls| ==> LeafOk(ls, hi, i)
  }

  lemma CoversConcat(a: seq<Node>, lo: nat, mid: nat, b: seq<Node>, hi: nat)
    requires Covers(a, lo, mid) && Covers(b, mid, hi)
    ensures Covers(a + b, lo, hi)
  {
    var c := a + b;
    forall i | 0 <= i < |c| ensures LeafOk(c, hi, i) {
      if i < |a| {
        assert LeafOk(a, mid, i);
      } else {
        assert c[i] == b[i - |a|] && LeafOk(b, hi, i - |a|);
      }
    }
  }

  lemma {:induction false} LeavesCover(n: Node, lo: nat, hi: nat)
    requires WF(n, lo, hi)
    ensures Covers(Leaves(n), lo, hi)
    decreases n, 1, 0
  {
    if n.Inode? {
      KidsCover(n, lo, hi, 0);
      assert n.kids[0..] == n.kids;
    } else {
      assert LeafOk([n], hi, 0);
    }
  }

  lemma {:induction false} KidsCover(n: Node, lo: nat, hi: nat, i: nat)
    requires n.Inode? && KidsOk(n, lo, hi) && i < |n.kids|
    ensures Covers(KidLeaves(n.kids[i..]), KidLo(n.keys, lo, i), hi)
    decreases n, 0, |n.kids| - i
  {
    assert KidOk(n, lo, hi, i);
    KidLeavesFrom(n.kids, i);
    if i == 0 && n.kids[0].Null? {
      KidsCover(n, lo, hi, 1);
      assert [] + KidLeaves(n.kids[1..]) == KidLeaves(n.kids[1..]);
    } else {
      LeavesCover(n.kids[i], KidLo(n.keys, lo, i), KidHi(n.keys, hi, i));
      if i < |n.keys| {
        KidsCover(n, lo, hi, i + 1);
        CoversConcat(Leaves(n.kids[i]), KidLo(n.keys, lo, i), n.keys[i], KidLeaves(n.kids[i + 1..]), hi);
      } else {
        LastKidLeaves(n.kids, i);
      }
    }
  }

  lemma LastKidLeaves(kids: seq<Node>, i: nat)
    requires i == |kids| - 1
    ensures KidLeaves(kids[i..]) == Leaves(kids[i])
  {
    assert kids[i..] == [kids[i]] && kids[i..][1..] == [];
    assert KidLeaves(kids[i..]) == Leaves(kids[i]) + KidLeaves([]);
  }

  lemma {:induction false} BoundsAscend(ls: seq<Node>, lo: nat, hi: nat, i: nat, j: nat)
    requires Covers(ls, lo, hi) && i < j < |ls|
    ensures ls[i].bound < NextBound(ls, hi, i) <= ls[j].bound < hi
    decreases |ls| - i
  {
    assert LeafOk(ls, hi, i);
    Nonempty(ls[i], ls[i].bound, NextBound(ls, hi, i));
    if i + 1 < j {
      BoundsAscend(ls, lo, hi, i + 1, j);
    } else if j + 1 < |ls| {
      BoundsAscend(ls, lo, hi, i + 1, j + 1);
    } else {
      assert LeafOk(ls, hi, j);
      Nonempty(ls[j], ls[j].bound, NextBound(ls, hi, j));
    }
  }

  // ----- routing -----

  /** The leaf a descent from `n` ends in. */
  function Route(n: Node, k: nat): (l: Node)
    decreases n
  {
    match n
    case Null => Null
    case Leaf(_, _) => n
    case Inode(keys, kids) => if Upper(keys, k) < |kids| then Route(kids[Upper(keys, k)], k) else Null
  }

  /** The leaf of a list that is responsible for a slice: the last one whose bound is not above it. */
  function Owner(ls: seq<Node>, k: nat): (l: Node)
    requires |ls| > 0 && forall i :: 0 <= i < |ls| ==> ls[i].Leaf?
  {
    if |ls| == 1 || k < ls[1].bound then ls[0] else Owner(ls[1..], k)
  }

  lemma {:induction false} OwnerIs(ls: seq<Node>, lo: nat, hi: nat, k: nat, i: nat)
    requires Covers(ls, lo, hi) && i < |ls| && ls[i].bound <= k < NextBound(ls, hi, i)
    ensures Owner(ls, k) == ls[i]
    decreases i
  {
    if i > 0 {
      if i > 1 { BoundsAscend(ls, lo, hi, 1, i); }
      CoversTail(ls, lo, hi);
      OwnerIs(ls[1..], ls[1].bound, hi, k, i - 1);
    }
  }

  lemma CoversTail(ls: seq<Node>, lo: nat, hi: nat)
    requires Covers(ls, lo, hi) && |ls| > 1
    ensures Covers(ls[1..], ls[1].bound, hi)
  {
    var t := ls[1..];
    forall i | 0 <= i < |t| ensures LeafOk(t, hi, i) {
      assert LeafOk(ls, hi, i + 1);
    }
  }

  lemma {:induction false} OwnerExists(ls: seq<Node>, lo: nat, hi: nat, k: nat) returns (i: nat)
    requires Covers(ls, lo, hi) && lo <= k < hi
    ensures i < |ls| && ls[i].bound <= k < NextBound(ls, hi, i) && Owner(ls, k) == ls[i]
    decreases |ls|
  {
    i := 0;
    if |ls| > 1 && ls[1].bound <= k {
      CoversTail(ls, lo, hi);
      i := OwnerExists(ls[1..], ls[1].bound, hi, k);
      i := i + 1;
    }
  }

  lemma OwnerMiddle(a: seq<Node>, ls: seq<Node>, b: seq<Node>, lo: nat, hi: nat, llo: nat, lhi: nat, k: nat)
    requires Covers(a + ls + b, lo, hi) && Covers(ls, llo, lhi) && llo <= k < lhi
    requires if b == [] then lhi == hi else b[0].Leaf? && b[0].bound == lhi
    ensures Owner(a + ls + b, k) == Owner(ls, k)
  {
    var i := OwnerExists(ls, llo, lhi, k);
    var all := a + ls + b;
    assert all[|a| + i] == ls[i];
    assert NextBound(all, hi, |a| + i) == NextBound(ls, lhi, i) by {
      if i + 1 < |ls| { assert all[|a| + i + 1] == ls[i + 1]; } else if b != [] { assert all[|a| + i + 1] == b[0]; }
    }
    OwnerIs(all, lo, hi, k, |a| + i);
  }

  /** Every slice in a node's interval is routed to the leaf of the leaf list that is responsible for
      it, and never into a missing child. */
  lemma {:induction false} RouteFindsOwner(n: Node, lo: nat, hi: nat, k: nat)
    requires WF(n, lo, hi) && lo <= k < hi
    ensures Covers(Leaves(n), lo, hi) && Route(n, k) == Owner(Leaves(n), k)
    decreases n
  {
    LeavesCover(n, lo, hi);
    if n.Inode? {
      var u := Upper(n.keys, k);
      UpperInside(n, lo, hi, k);
      var kid, klo, khi := n.kids[u], KidLo(n.keys, lo, u), KidHi(n.keys, hi, u);
      RouteFindsOwner(kid, klo, khi, k);
      KidLeavesAround(n.kids, u);
      if u < |n.keys| { KidsCover(n, lo, hi, u + 1); } else { assert n.kids[u + 1..] == []; }
      OwnerMiddle(KidLeaves(n.kids[..u]), Leaves(kid), KidLeaves(n.kids[u + 1..]), lo, hi, klo, khi, k);
    }
  }

  // ----- a path from a node up to its layer's root -----

  /** The ancestors of a node, parent first: each with the position of the child the path comes from. */
  datatype Path = Top | Up(node: Node, at: nat, rest: Path)
  {
    predicate Shape() {
      Up? ==> node.Inode? && |node.kids| == |node.keys| + 1 && at < |node.kids| && rest.Shape()
    }

    /** The interval of the node below the path. */
    function Lo(): nat
      requires Shape()
    {
      if Top? then 0 else KidLo(node.keys, rest.Lo(), at)
    }

    function Hi(): nat
      requires Shape()
    {
      if Top? then SLICES else KidHi(node.keys, rest.Hi(), at)
    }

    /** Everything beside the path is as it should be. */
    ghost predicate Ok() {
      Shape() && (Up? ==> |node.keys| <= WIDTH && OthersOk(node, rest.Lo(), rest.Hi(), at) && rest.Ok())
    }

    /** The tree with `n` below the path. */
    function Plug(n: Node): Node
      requires Shape()
    {
      if Top? then n else rest.Plug(Inode(node.keys, node.kids[at := n]))
    }

    /** The leaves left and right of the path. */
    function Left(): seq<Node>
      requires Shape()
    {
      if Top? then [] else rest.Left() + KidLeaves(node.kids[..at])
    }

    function Right(): seq<Node>
      requires Shape()
    {
      if Top? then [] else KidLeaves(node.kids[at + 1..]) + rest.Right()
    }
  }

  /** Putting a right child back makes a right node. */
  lemma Refill(n: Node, lo: nat, hi: nat, at: nat, c: Node)
    requires OthersOk(n, lo, hi, at) && WF(c, KidLo(n.keys, lo, at), KidHi(n.keys, hi, at))
    ensures KidsOk(Inode(n.keys, n.kids[at := c]), lo, hi)
  {
    var m := Inode(n.keys, n.kids[at := c]);
    forall i | 0 <= i < |m.kids| ensures KidOk(m, lo, hi, i) {
      if i != at { assert KidOk(n, lo, hi, i); }
    }
    assert |m.kids| == |m.keys| + 1;
    assert KidsOk(m, lo, hi);
  }

  lemma {:induction false} PlugWF(path: Path, n: Node)
    requires path.Ok() && WF(n, path.Lo(), path.Hi())
    ensures WF(path.Plug(n), 0, SLICES)
    decreases path
  {
    if path.Up? {
      Refill(path.node, path.rest.Lo(), path.rest.Hi(), path.at, n);
      PlugWF(path.rest, Inode(path.node.keys, path.node.kids[path.at := n]));
    }
  }

  lemma {:induction false} PlugLeaves(path: Path, n: Node)
    requires path.Shape()
    ensures Leaves(path.Plug(n)) == path.Left() + Leaves(n) + path.Right()
    decreases path
  {
    if path.Up? {
      var kids, at, rest := path.node.kids, path.at, path.rest;
      var m := Inode(path.node.keys, kids[at := n]);
      FilledLeaves(kids, at, n);
      calc {
        Leaves(path.Plug(n));
        Leaves(rest.Plug(m));
        { PlugLeaves(rest, m); }
        rest.Left() + Leaves(m) + rest.Right();
        rest.Left() + Around(path, Leaves(n)) + rest.Right();
        { Regroup(path, Leaves(n)); }
        path.Left() + Leaves(n) + path.Right();
      }
    }
  }

  lemma FilledLeaves(kids: seq<Node>, at: nat, n: Node)
    requires at < |kids|
    ensures KidLeaves(kids[at := n]) == KidLeaves(kids[..at]) + Leaves(n) + KidLeaves(kids[at + 1..])
  {
    KidLeavesAround(kids[at := n], at);
    assert kids[at := n][..at] == kids[..at] && kids[at := n][at + 1..] == kids[at + 1..];
  }

  /** `reach_leaf` without interference, remembering the ancestors. */
  method ReachLeaf(root: Node, k: nat) returns (path: Path, leaf: Node)
    requires WF(root, 0, SLICES) && k < SLICES
    ensures path.Ok() && leaf.Leaf? && WF(leaf, path.Lo(), path.Hi()) && path.Lo() <= k < path.Hi()
    ensures path.Plug(leaf) == root && Covers(Leaves(root), 0, SLICES) && leaf == Owner(Leaves(root), k)
  {
    path, leaf := Top, root;
    while leaf.Inode?
      invariant path.Ok() && WF(leaf, path.Lo(), path.Hi()) && path.Lo() <= k < path.Hi()
      invariant path.Plug(leaf) == root && Route(leaf, k) == Route(root, k)
      decreases leaf
    {
      assert KidsOk(leaf, path.Lo(), path.Hi());
      var kp := UpperLinear(leaf.keys, k);
      UpperInside(leaf, path.Lo(), path.Hi(), k);
      assert leaf.kids[kp := leaf.kids[kp]] == leaf.kids;
      path, leaf := Up(leaf, kp, path), leaf.kids[kp];
    }
    RouteFindsOwner(root, 0, SLICES, k);
  }

  // ----- removing a leaf -----

  /** Dropping child `at` and the separator before it hands its slices to the child before. */
  lemma DropKid(n: Node, lo: nat, hi: nat, at: nat)
    requires OthersOk(n, lo, hi, at) && 0 < at && !n.kids[at - 1].Null?
    requires KidLo(n.keys, lo, at) <= KidHi(n.keys, hi, at)
    ensures KidsOk(Inode(Without(n.keys, at - 1), Without(n.kids, at)), lo, hi)
  {
    var m := Inode(Without(n.keys, at - 1), Without(n.kids, at));
    forall i | 0 <= i < |m.kids| ensures KidOk(m, lo, hi, i) {
      if i < at { assert KidOk(n, lo, hi, i); } else { assert KidOk(n, lo, hi, i + 1); }
      if i == at - 1 { Widen(n.kids[i], KidLo(n.keys, lo, i), n.keys[i], KidHi(n.keys, hi, at)); }
    }
    assert KidsOk(m, lo, hi);
  }

  /** The same when the child before is missing: the node now starts at its first separator. */
  lemma DropSecondKid(n: Node, lo: nat, hi: nat)
    requires OthersOk(n, lo, hi, 1) && n.kids[0].Null? && |n.keys| > 1
    ensures KidsOk(Inode(n.keys[1..], [Null] + n.kids[2..]), n.keys[1], hi)
  {
    var m := Inode(n.keys[1..], [Null] + n.kids[2..]);
    forall i | 0 <= i < |m.kids| ensures KidOk(m, n.keys[1], hi, i) {
      if i > 0 { assert KidOk(n, lo, hi, i + 1); }
    }
    assert KidsOk(m, n.keys[1], hi);
  }

  /** Losing the first child: the node now starts at its first separator. */
  lemma DropFirstKid(n: Node, lo: nat, hi: nat)
    requires OthersOk(n, lo, hi, 0) && |n.keys| > 0
    ensures KidsOk(Inode(n.keys, n.kids[0 := Null]), n.keys[0], hi)
  {
    var m := Inode(n.keys, n.kids[0 := Null]);
    forall i | 0 <= i < |m.kids| ensures KidOk(m, n.keys[0], hi, i) {
      if i > 0 { assert KidOk(n, lo, hi, i); }
    }
    assert KidsOk(m, n.keys[0], hi);
  }

  lemma OnlyFirstMissing(n: Node, lo: nat, hi: nat, at: nat, i: nat)
    requires OthersOk(n, lo, hi, at) && i < |n.kids| && i != at && n.kids[i].Null?
    ensures i == 0 && |n.keys| > 0 && n.keys[0] == lo
  {
    assert KidOk(n, lo, hi, i);
    assert !WF(Null, KidLo(n.keys, lo, i), KidHi(n.keys, hi, i));
  }

  /** Moving up the separator before child `at` hands slices to the child before, if there is one. */
  lemma MoveSeparator(n: Node, lo: nat, hi: nat, at: nat, k: nat, c: Node)
    requires OthersOk(n, lo, hi, at) && 0 < at && n.keys[at - 1] <= k && WF(c, k, KidHi(n.keys, hi, at))
    ensures KidsOk(Inode(n.keys[at - 1 := k], n.kids[at := c]), if n.kids[at - 1].Null? then k else lo, hi)
  {
    var m := Inode(n.keys[at - 1 := k], n.kids[at := c]);
    if n.kids[at - 1].Null? { OnlyFirstMissing(n, lo, hi, at, at - 1); }
    var newLo := if n.kids[at - 1].Null? then k else lo;
    forall i | 0 <= i < |m.kids| ensures KidOk(m, newLo, hi, i) {
      if i == at {
        assert KidHi(m.keys, hi, i) == KidHi(n.keys, hi, at);
      } else {
        assert KidOk(n, lo, hi, i);
        assert m.kids[i] == n.kids[i];
        if i == at - 1 {
          if !n.kids[i].Null? { Widen(n.kids[i], KidLo(n.keys, lo, i), n.keys[i], k); }
        } else {
          assert KidHi(m.keys, hi, i) == KidHi(n.keys, hi, i);
          assert KidLo(m.keys, newLo, i) == KidLo(n.keys, lo, i);
        }
      }
    }
    assert KidsOk(m, newLo, hi);
  }

  /** The first child starts later, and so does the node. */
  lemma RaiseFirstKid(n: Node, lo: nat, hi: nat, k: nat, c: Node)
    requires OthersOk(n, lo, hi, 0) && WF(c, k, KidHi(n.keys, hi, 0))
    ensures KidsOk(Inode(n.keys, n.kids[0 := c]), k, hi)
  {
    var m := Inode(n.keys, n.kids[0 := c]);
    forall i | 0 <= i < |m.kids| ensures KidOk(m, k, hi, i) {
      if i > 0 { assert KidOk(n, lo, hi, i); }
    }
    assert KidsOk(m, k, hi);
  }

  lemma LeavesWithout(kids: seq<Node>, at: nat)
    requires at < |kids|
    ensures KidLeaves(Without(kids, at)) == KidLeaves(kids[..at]) + KidLeaves(kids[at + 1..])
  {
    KidLeavesConcat(kids[..at], kids[at + 1..]);
  }

  lemma LeavesWithNull(kids: seq<Node>, at: nat)
    requires at < |kids|
    ensures KidLeaves(kids[at := Null]) == KidLeaves(kids[..at]) + KidLeaves(kids[at + 1..])
  {
    FilledLeaves(kids, at, Null);
  }

  lemma KeysStrict(n: Node, lo: nat, hi: nat, at: nat, i: nat, j: nat)
    requires OthersOk(n, lo, hi, at) && KidLo(n.keys, lo, at) < KidHi(n.keys, hi, at)
    requires i < j < |n.keys|
    ensures n.keys[i] < n.keys[j]
  {
    OthersAscend(n, lo, hi, at);
    AscendTo(n.keys, lo, hi, i, j);
    if j != at {
      assert KidOk(n, lo, hi, j);
      Nonempty(n.kids[j], n.keys[j - 1], n.keys[j]);
    }
  }

  /** The parent's search for a slice below it ends at the child the path comes from. */
  lemma FindsWay(path: Path, k: nat)
    requires path.Ok() && path.Up? && path.Lo() <= k < path.Hi()
    ensures Upper(path.node.keys, k) == path.at
    ensures path.rest.Lo() <= k < path.rest.Hi()
    ensures forall i, j :: 0 <= i < j < |path.node.keys| ==> path.node.keys[i] < path.node.keys[j]
  {
    var n, lo, hi, at := path.node, path.rest.Lo(), path.rest.Hi(), path.at;
    OthersAscend(n, lo, hi, at);
    UpperFinds(n.keys, lo, hi, k, at);
    AscendTo(n.keys, lo, hi, 0, at);
    AscendTo(n.keys, lo, hi, at, |n.keys|);
    forall i, j | 0 <= i < j < |n.keys| ensures n.keys[i] < n.keys[j] { KeysStrict(n, lo, hi, at, i, j); }
  }

  /** The leaves below the path's parent, when the node below the path has leaves `ls`. */
  function Around(path: Path, ls: seq<Node>): seq<Node>
    requires path.Shape() && path.Up?
  {
    KidLeaves(path.node.kids[..path.at]) + ls + KidLeaves(path.node.kids[path.at + 1..])
  }

  lemma Regroup(path: Path, ls: seq<Node>)
    requires path.Shape() && path.Up?
    ensures path.Left() + ls + path.Right() == path.rest.Left() + Around(path, ls) + path.rest.Right()
  {
    var a, d := KidLeaves(path.node.kids[..path.at]), KidLeaves(path.node.kids[path.at + 1..]);
    Nested(path.rest.Left(), a, ls, d, path.rest.Right());
  }

  // ----- no needless internodes -----

  /** Every internode in the subtree has a separator. */
  ghost predicate Full(n: Node)
    decreases n
  {
    match n
    case Null => true
    case Leaf(_, _) => true
    case Inode(keys, kids) => keys != [] && forall i {:trigger Full(kids[i])} :: 0 <= i < |kids| ==> Full(kids[i])
  }

  /** The same for all children, perhaps but one. */
  ghost predicate KidsFull(kids: seq<Node>, but: int) {
    forall i {:trigger Full(kids[i])} :: 0 <= i < |kids| && i != but ==> Full(kids[i])
  }

  /** Only the root may have a single child. */
  ghost predicate TidyRoot(n: Node) {
    n.Inode? ==> KidsFull(n.kids, -1)
  }

  ghost predicate PathTidy(path: Path)
    decreases path
  {
    path.Up? && path.node.Inode? ==>
      KidsFull(path.node.kids, path.at) && (path.rest.Up? ==> path.node.keys != []) && PathTidy(path.rest)
  }

  lemma FilledTidy(kids: seq<Node>, at: nat, n: Node)
    requires at < |kids| && KidsFull(kids, at) && Full(n)
    ensures KidsFull(kids[at := n], -1)
  {
    var filled := kids[at := n];
    forall i | 0 <= i < |filled| ensures Full(filled[i]) {
      if i != at { assert Full(kids[i]); }
    }
  }

  lemma {:induction false} PlugTidy(path: Path, n: Node)
    requires path.Shape() && PathTidy(path) && (if path.Up? then Full(n) else TidyRoot(n))
    ensures TidyRoot(path.Plug(n))
    decreases path
  {
    if path.Up? {
      FilledTidy(path.node.kids, path.at, n);
      PlugTidy(path.rest, Inode(path.node.keys, path.node.kids[path.at := n]));
    }
  }

  lemma EditedTidy(path: Path, reshaping: bool, reshapeIkey: nat, sub: Node)
    requires path.Shape() && path.Up? && KidsFull(path.node.kids, path.at) && Full(sub) && (reshaping || path.at > 0)
    ensures KidsFull(Edited(path.node, path.at, reshaping, reshapeIkey, sub).kids, -1)
  {
    var kids, at := path.node.kids, path.at;
    if reshaping {
      FilledTidy(kids, at, sub);
    } else {
      var left := Without(kids, at);
      forall i | 0 <= i < |left| ensures Full(left[i]) {
        assert Full(kids[if i < at then i else i + 1]);
      }
    }
  }

  lemma NulledTidy(path: Path)
    requires path.Shape() && path.Up? && KidsFull(path.node.kids, path.at)
    ensures var m := Edited(path.node, path.at, false, 0, Null);
      (path.at == 0 || path.at == 1) ==> KidsFull(m.kids[0 := Null], -1)
  {
    var m := Edited(path.node, path.at, false, 0, Null);
    if path.at == 0 {
      FilledTidy(path.node.kids, 0, Null);
    } else if path.at == 1 {
      EditedTidy(path, false, 0, Null);
      forall i | 0 <= i < |m.kids| && i != 0 ensures Full(m.kids[i]) {}
      FilledTidy(m.kids, 0, Null);
    }
  }

  /** `collapse`: an internode without separators is replaced by its only child, and so on upward; at
      the top it stays. */
  method Collapse(n0: Node, ikey: nat, path0: Path) returns (root: Node)
    requires path0.Ok() && n0.Inode? && |n0.keys| == 0 && WF(n0, path0.Lo(), path0.Hi())
    requires path0.Lo() <= ikey < path0.Hi()
    ensures WF(root, 0, SLICES) && Leaves(root) == path0.Left() + Leaves(n0) + path0.Right()
    ensures PathTidy(path0) && KidsFull(n0.kids, -1) ==> TidyRoot(root)
  {
    var n, path := n0, path0;
    while path.Up?
      invariant path.Ok() && n.Inode? && WF(n, path.Lo(), path.Hi()) && |n.keys| == 0
      invariant PathTidy(path0) && KidsFull(n0.kids, -1) ==> PathTidy(path) && KidsFull(n.kids, -1)
      invariant path.Lo() <= ikey < path.Hi()
      invariant path.Left() + Leaves(n) + path.Right() == path0.Left() + Leaves(n0) + path0.Right()
      decreases path
    {
      FindsWay(path, ikey);
      var gp := path.node;
      var kp := UpperBinary(gp.keys, ikey);
      n := PullUp(n, gp, kp, path);
      path := path.rest;
      if |n.keys| != 0 { break; }
    }
    if PathTidy(path) && KidsFull(n.kids, -1) { PlugTidy(path, n); }
    PlugWF(path, n);
    PlugLeaves(path, n);
    root := path.Plug(n);
  }

  lemma OnlyKidLeaves(n: Node)
    requires n.Inode? && |n.kids| == 1
    ensures Leaves(n) == Leaves(n.kids[0])
  {
    assert n.kids[1..] == [];
    assert KidLeaves(n.kids) == Leaves(n.kids[0]) + KidLeaves([]);
  }

  /** One round of `collapse`. */
  method PullUp(n: Node, gp: Node, kp: nat, ghost path: Path) returns (m: Node)
    requires path.Ok() && path.Up? && gp == path.node && kp == path.at
    requires n.Inode? && |n.keys| == 0 && WF(n, path.Lo(), path.Hi())
    ensures |n.kids| == 1 && m == Inode(gp.keys, gp.kids[kp := n.kids[0]])
    ensures WF(m, path.rest.Lo(), path.rest.Hi())
    ensures path.rest.Left() + Leaves(m) + path.rest.Right() == path.Left() + Leaves(n) + path.Right()
    ensures PathTidy(path) && KidsFull(n.kids, -1) ==> PathTidy(path.rest) && KidsFull(m.kids, -1)
  {
    if PathTidy(path) && KidsFull(n.kids, -1) {
      assert Full(n.kids[0]);
      FilledTidy(gp.kids, kp, n.kids[0]);
    }
    assert KidOk(n, path.Lo(), path.Hi(), 0);
    var c := n.kids[0];
    Refill(gp, path.rest.Lo(), path.rest.Hi(), kp, c);
    m := Inode(gp.keys, gp.kids[kp := c]);
    OnlyKidLeaves(n);
    FilledLeaves(gp.kids, kp, c);
    assert Leaves(m) == Around(path, Leaves(n));
    Regroup(path, Leaves(n));
  }

  /** What `remove_leaf` does to one ancestor: the separator at the removed leaf's bound goes with the
      child after it, or moves up to where the reshaped child now starts. */
  function Edited(p: Node, kp: nat, reshaping: bool, reshapeIkey: nat, sub: Node): (m: Node)
    requires p.Inode? && |p.kids| == |p.keys| + 1 && kp < |p.kids|
    ensures m.Inode? && |m.kids| == |m.keys| + 1
  {
    if !reshaping then
      if kp == 0 then p else Inode(Without(p.keys, kp - 1), Without(p.kids, kp))
    else
      Inode(if kp == 0 then p.keys else p.keys[kp - 1 := reshapeIkey], p.kids[kp := sub])
  }

  /** What the loop of `remove_leaf` knows on its way up: nothing is left below the path, or a subtree
      that now starts at `reshapeIkey`. */
  ghost predicate Removing(path: Path, ikey: nat, reshaping: bool, reshapeIkey: nat, sub: Node) {
    && path.Ok() && 0 < ikey && path.Lo() == ikey < path.Hi()
    && if reshaping then ikey < reshapeIkey && WF(sub, reshapeIkey, path.Hi()) else sub.Null?
  }

  /** The ancestor that still has a child before the removed slices is where the change ends. */
  lemma EditEnds(path: Path, ikey: nat, reshaping: bool, reshapeIkey: nat, sub: Node)
    requires Removing(path, ikey, reshaping, reshapeIkey, sub) && path.Up?
    requires path.at > 0 && !path.node.kids[path.at - 1].Null?
    ensures var m := Edited(path.node, path.at, reshaping, reshapeIkey, sub);
      WF(m, path.rest.Lo(), path.rest.Hi()) && Leaves(m) == Around(path, Leaves(sub))
  {
    if reshaping {
      MoveSeparator(path.node, path.rest.Lo(), path.rest.Hi(), path.at, reshapeIkey, sub);
      FilledLeaves(path.node.kids, path.at, sub);
    } else {
      DropKid(path.node, path.rest.Lo(), path.rest.Hi(), path.at);
      LeavesWithout(path.node.kids, path.at);
    }
  }

  /** Otherwise the ancestor itself started at the removed leaf's bound. */
  lemma EditStart(path: Path, ikey: nat)
    requires path.Ok() && path.Up? && 0 < ikey && path.Lo() == ikey < path.Hi()
    requires path.at == 0 || path.node.kids[path.at - 1].Null?
    ensures path.rest.Lo() == ikey && (path.at > 0 ==> path.at == 1 && path.node.keys[0] == ikey)
    ensures KidLeaves(path.node.kids[..path.at]) == []
  {
    if path.at > 0 {
      OnlyFirstMissing(path.node, path.rest.Lo(), path.rest.Hi(), path.at, path.at - 1);
      assert path.node.kids[..1] == [Null];
      assert KidLeaves([Null]) == Leaves(Null) + KidLeaves([]);
    }
  }

  lemma EditReshapes(path: Path, ikey: nat, reshapeIkey: nat, sub: Node)
    requires Removing(path, ikey, true, reshapeIkey, sub) && path.Up?
    requires path.at == 0 || path.node.kids[path.at - 1].Null?
    ensures var m := Edited(path.node, path.at, true, reshapeIkey, sub);
      WF(m, reshapeIkey, path.rest.Hi()) && Leaves(m) == Around(path, Leaves(sub))
  {
    FilledLeaves(path.node.kids, path.at, sub);
    if path.at == 0 {
      RaiseFirstKid(path.node, path.rest.Lo(), path.rest.Hi(), reshapeIkey, sub);
    } else {
      MoveSeparator(path.node, path.rest.Lo(), path.rest.Hi(), path.at, reshapeIkey, sub);
    }
  }

  lemma EditDrops(path: Path, ikey: nat)
    requires path.Ok() && path.Up? && 0 < ikey && path.Lo() == ikey < path.Hi()
    requires path.at == 0 || path.node.kids[path.at - 1].Null?
    ensures var m := Edited(path.node, path.at, false, 0, Null);
      if m.keys == [] then Around(path, []) == []
      else var r := Inode(m.keys, m.kids[0 := Null]);
        ikey < m.keys[0] && WF(r, m.keys[0], path.rest.Hi()) && Leaves(r) == Around(path, [])
  {
    var n, lo, hi, at := path.node, path.rest.Lo(), path.rest.Hi(), path.at;
    EditStart(path, ikey);
    FindsWay(path, ikey);
    var m := Edited(n, at, false, 0, Null);
    if m.keys == [] {
      assert n.kids[at + 1..] == [];
    } else if at == 0 {
      DropFirstKid(n, lo, hi);
      LeavesWithNull(n.kids, 0);
    } else {
      DropSecondKid(n, lo, hi);
      assert m.keys == n.keys[1..];
      assert m.kids[0 := Null] == [Null] + n.kids[2..];
      KidLeavesConcat([Null], n.kids[2..]);
      assert n.kids[..1] == [Null];
    }
  }

  /** The last changed ancestor: collapsed if it has lost its last separator. */
  method Finish(path: Path, p: Node, ikey: nat) returns (root: Node)
    requires path.Ok() && p.Inode? && WF(p, path.Lo(), path.Hi()) && path.Lo() <= ikey < path.Hi()
    ensures WF(root, 0, SLICES) && Leaves(root) == path.Left() + Leaves(p) + path.Right()
    ensures PathTidy(path) && KidsFull(p.kids, -1) ==> TidyRoot(root)
  {
    if |p.keys| == 0 {
      root := Collapse(p, ikey, path);
    } else {
      if PathTidy(path) && KidsFull(p.kids, -1) { PlugTidy(path, p); }
      PlugWF(path, p);
      PlugLeaves(path, p);
      root := path.Plug(p);
    }
  }

  /** `remove_leaf`, after the leaf has left the leaf list.  The child arrays are changed in place there;
      here the changed node below the path is `sub`. */
  method RemoveLeaf(path0: Path, leaf: Node) returns (root: Node)
    requires path0.Ok() && leaf.Leaf? && leaf.bound > 0 && WF(leaf, path0.Lo(), path0.Hi())
    ensures WF(root, 0, SLICES) && Leaves(root) == path0.Left() + path0.Right()
    ensures PathTidy(path0) ==> TidyRoot(root)
  {
    var ikey, reshapeIkey, reshaping, sub, path := leaf.bound, 0, false, Null, path0;
    while true
      invariant Removing(path, ikey, reshaping, reshapeIkey, sub)
      invariant PathTidy(path0) ==> PathTidy(path) && Full(sub)
      invariant path.Left() + Leaves(sub) + path.Right() == path0.Left() + path0.Right()
      decreases path
    {
      FindsWay(path, ikey);
      Regroup(path, Leaves(sub));
      var kp := UpperLinear(path.node.keys, ikey);
      var p := Edited(path.node, kp, reshaping, reshapeIkey, sub);
      if kp > 1 || (kp > 0 && !p.kids[0].Null?) {
        if kp > 1 && path.node.kids[kp - 1].Null? { OnlyFirstMissing(path.node, path.rest.Lo(), path.rest.Hi(), kp, kp - 1); }
        EditEnds(path, ikey, reshaping, reshapeIkey, sub);
        if PathTidy(path0) { EditedTidy(path, reshaping, reshapeIkey, sub); }
        root := Finish(path.rest, p, ikey);
        return;
      }
      EditStart(path, ikey);
      if reshaping {
        EditReshapes(path, ikey, reshapeIkey, sub);
        if PathTidy(path0) { EditedTidy(path, reshaping, reshapeIkey, sub); }
        sub := p;
      } else {
        EditDrops(path, ikey);
        if PathTidy(path0) { NulledTidy(path); }
        if |p.keys| > 0 {
          reshaping, reshapeIkey := true, p.keys[0];
          sub := Inode(p.keys, p.kids[0 := Null]);
        }
      }
      path := path.rest;
    }
  }

  /** A list that loses one leaf after its first: the leaf before takes over, for just that leaf's
      slices. */
  lemma OwnerAfterRemoval(all: seq<Node>, less: seq<Node>, n: nat, lo: nat, hi: nat, k: nat)
    requires Covers(all, lo, hi) && Covers(less, lo, hi) && 0 < n < |all| == |less| + 1 && lo <= k < hi
    requires forall i {:trigger less[i]} :: 0 <= i < |less| ==> less[i] == if i < n then all[i] else all[i + 1]
    ensures Owner(less, k) == if all[n].bound <= k < NextBound(all, hi, n) then all[n - 1] else Owner(all, k)
  {
    var i := OwnerExists(all, lo, hi, k);
    if i == n {
      BoundsAscend(all, lo, hi, n - 1, n);
      assert less[n - 1] == all[n - 1];
      OwnerIs(less, lo, hi, k, n - 1);
    } else if i < n {
      OwnerStays(all, less, n, lo, hi, k, i);
    } else {
      BoundsAscend(all, lo, hi, n, i);
      assert less[i - 1] == all[i] && (i + 1 < |all| ==> less[i] == all[i + 1]);
      OwnerIs(less, lo, hi, k, i - 1);
    }
  }

  lemma OwnerStays(all: seq<Node>, less: seq<Node>, n: nat, lo: nat, hi: nat, k: nat, i: nat)
    requires Covers(all, lo, hi) && Covers(less, lo, hi) && i < n < |all| == |less| + 1
    requires forall i {:trigger less[i]} :: 0 <= i < |less| ==> less[i] == if i < n then all[i] else all[i + 1]
    requires all[i].bound <= k < NextBound(all, hi, i)
    ensures Owner(less, k) == all[i] && k < all[n].bound
  {
    assert less[i] == all[i];
    BoundsAscend(all, lo, hi, i, n);
    if i + 1 < |less| {
      assert less[i + 1] == if i + 1 < n then all[i + 1] else all[i + 2];
      if i + 1 == n { BoundsAscend(all, lo, hi, n, n + 1); }
    }
    OwnerIs(less, lo, hi, k, i);
  }

  /** The leaf after a path starts where the interval below the path ends. */
  lemma {:induction false} RightStarts(path: Path, n: Node)
    requires path.Ok() && WF(n, path.Lo(), path.Hi())
    ensures if path.Right() == [] then path.Hi() == SLICES else path.Right()[0].Leaf? && path.Right()[0].bound == path.Hi()
    decreases path
  {
    if path.Up? {
      var p, at := path.node, path.at;
      var m := Inode(p.keys, p.kids[at := n]);
      Refill(p, path.rest.Lo(), path.rest.Hi(), at, n);
      var right := KidLeaves(p.kids[at + 1..]);
      if at < |p.keys| {
        KidsCover(m, path.rest.Lo(), path.rest.Hi(), at + 1);
        assert m.kids[at + 1..] == p.kids[at + 1..];
        assert (right + path.rest.Right())[0] == right[0];
      } else {
        RightStarts(path.rest, m);
        assert p.kids[at + 1..] == [] && right == [];
        assert [] + path.rest.Right() == path.rest.Right();
      }
    }
  }

  /** After `remove_leaf` every slice is routed as before, except that the removed leaf's slices go to
      the leaf before it. */
  lemma RemovalRoutes(path: Path, leaf: Node, root: Node, k: nat)
    requires path.Ok() && leaf.Leaf? && leaf.bound > 0 && WF(leaf, path.Lo(), path.Hi())
    requires WF(root, 0, SLICES) && Leaves(root) == path.Left() + path.Right() && k < SLICES
    ensures path.Left() != []
    ensures Route(root, k) ==
      if leaf.bound <= k < path.Hi() then path.Left()[|path.Left()| - 1] else Route(path.Plug(leaf), k)
  {
    PlugWF(path, leaf);
    PlugLeaves(path, leaf);
    RouteFindsOwner(path.Plug(leaf), 0, SLICES, k);
    RouteFindsOwner(root, 0, SLICES, k);
    RightStarts(path, leaf);
    var all := path.Left() + [leaf] + path.Right();
    var n := |path.Left()|;
    assert all[n] == leaf;
    if path.Right() != [] { assert all[n + 1] == path.Right()[0]; }
    OwnerAfterRemoval(all, path.Left() + path.Right(), n, 0, SLICES, k);
  }

  // ----- splitting -----

  /** A node with its child `at` replaced by two, and room or not for the new separator. */
  function Forked(n: Node, at: nat, left: Node, x: nat, right: Node): (m: Node)
    requires n.Inode? && |n.kids| == |n.keys| + 1 && at < |n.kids|
    ensures m.Inode? && |m.keys| == |n.keys| + 1 && |m.kids| == |m.keys| + 1
  {
    Inode(Inserted(n.keys, at, x), Inserted(n.kids[at := left], at + 1, right))
  }

  lemma ForkOk(n: Node, lo: nat, hi: nat, at: nat, left: Node, x: nat, right: Node)
    requires OthersOk(n, lo, hi, at)
    requires WF(left, KidLo(n.keys, lo, at), x) && WF(right, x, KidHi(n.keys, hi, at))
    ensures KidsOk(Forked(n, at, left, x, right), lo, hi)
  {
    var m := Forked(n, at, left, x, right);
    forall i | 0 <= i < |m.kids| ensures KidOk(m, lo, hi, i) {
      if i < at {
        assert KidOk(n, lo, hi, i) && m.kids[i] == n.kids[i];
      } else if i == at {
        assert m.kids[i] == left && KidLo(m.keys, lo, i) == KidLo(n.keys, lo, at);
      } else if i == at + 1 {
        assert m.kids[i] == right && KidHi(m.keys, hi, i) == KidHi(n.keys, hi, at);
      } else {
        assert KidOk(n, lo, hi, i - 1) && m.kids[i] == n.kids[i - 1];
      }
    }
    assert KidsOk(m, lo, hi);
  }

  lemma ForkLeaves(n: Node, at: nat, left: Node, x: nat, right: Node)
    requires n.Inode? && |n.kids| == |n.keys| + 1 && at < |n.kids|
    ensures Leaves(Forked(n, at, left, x, right))
         == KidLeaves(n.kids[..at]) + (Leaves(left) + Leaves(right)) + KidLeaves(n.kids[at + 1..])
  {
    var kids := Inserted(n.kids[at := left], at + 1, right);
    var a, d := KidLeaves(n.kids[..at]), KidLeaves(n.kids[at + 1..]);
    assert kids[at + 1] == right && kids[at + 2..] == n.kids[at + 1..] && kids[..at + 1] == n.kids[..at] + [left];
    calc {
      KidLeaves(kids);
      { KidLeavesAround(kids, at + 1); }
      KidLeaves(n.kids[..at] + [left]) + Leaves(right) + d;
      { KidLeavesConcat(n.kids[..at], [left]); OnlyKidLeaves(Inode([], [left])); }
      a + Leaves(left) + Leaves(right) + d;
      { Joined(a, Leaves(left), Leaves(right)); }
      a + (Leaves(left) + Leaves(right)) + d;
    }
  }

  /** Cutting a node at separator `mid`, which moves up. */
  lemma CutOk(n: Node, lo: nat, hi: nat, mid: nat)
    requires n.Inode? && KidsOk(n, lo, hi) && 0 < mid < |n.keys|
    ensures KidsOk(Inode(n.keys[..mid], n.kids[..mid + 1]), lo, n.keys[mid])
    ensures KidsOk(Inode(n.keys[mid + 1..], n.kids[mid + 1..]), n.keys[mid], hi)
    ensures Leaves(n) == KidLeaves(n.kids[..mid + 1]) + KidLeaves(n.kids[mid + 1..])
  {
    var l, r := Inode(n.keys[..mid], n.kids[..mid + 1]), Inode(n.keys[mid + 1..], n.kids[mid + 1..]);
    forall i | 0 <= i < |l.kids| ensures KidOk(l, lo, n.keys[mid], i) { assert KidOk(n, lo, hi, i); }
    forall i | 0 <= i < |r.kids| ensures KidOk(r, n.keys[mid], hi, i) {
      assert KidOk(n, lo, hi, mid + 1 + i);
      assert !WF(Null, KidLo(n.keys, lo, mid + 1 + i), KidHi(n.keys, hi, mid + 1 + i));
    }
    assert KidsOk(l, lo, n.keys[mid]) && KidsOk(r, n.keys[mid], hi);
    KidLeavesConcat(n.kids[..mid + 1], n.kids[mid + 1..]);
    assert n.kids == n.kids[..mid + 1] + n.kids[mid + 1..];
  }

  /** The loop of `finish_split`: a node below `path0` has become two. */
  method FinishSplit(path0: Path, left0: Node, x0: nat, right0: Node, splitType: nat) returns (root: Node)
    requires path0.Ok() && WF(left0, path0.Lo(), x0) && WF(right0, x0, path0.Hi())
    ensures WF(root, 0, SLICES)
    ensures Leaves(root) == path0.Left() + (Leaves(left0) + Leaves(right0)) + path0.Right()
  {
    var path, left, x, right := path0, left0, x0, right0;
    ghost var all := path0.Left() + (Leaves(left0) + Leaves(right0)) + path0.Right();
    while path.Up?
      invariant path.Ok() && WF(left, path.Lo(), x) && WF(right, x, path.Hi())
      invariant path.Left() + (Leaves(left) + Leaves(right)) + path.Right() == all
      decreases path
    {
      var m := Fork(path, left, x, right);
      path := path.rest;
      if |m.keys| <= WIDTH {
        PlugWF(path, m);
        PlugLeaves(path, m);
        return path.Plug(m);
      }
      left, x, right := Cut(m, splitType, path.Lo(), path.Hi());
    }
    root := NewRoot(left, x, right);
  }

  /** The parent takes the new separator and child, if there were room for them. */
  method Fork(path: Path, left: Node, x: nat, right: Node) returns (m: Node)
    requires path.Ok() && path.Up? && WF(left, path.Lo(), x) && WF(right, x, path.Hi())
    ensures m.Inode? && |m.keys| == |path.node.keys| + 1 && KidsOk(m, path.rest.Lo(), path.rest.Hi())
    ensures path.rest.Left() + Leaves(m) + path.rest.Right() == path.Left() + (Leaves(left) + Leaves(right)) + path.Right()
  {
    Nonempty(left, path.Lo(), x);
    Nonempty(right, x, path.Hi());
    FindsWay(path, x);
    var kp := UpperLinear(path.node.keys, x);
    m := Forked(path.node, kp, left, x, right);
    ForkOk(path.node, path.rest.Lo(), path.rest.Hi(), kp, left, x, right);
    ForkLeaves(path.node, kp, left, x, right);
    Regroup(path, Leaves(left) + Leaves(right));
  }

  /** An overfull node is cut in two.  The right half has no separators exactly for a sequential split
      (type 2), so no single-child internodes at all is nothing that splits keep. */
  method Cut(m: Node, splitType: nat, ghost lo: nat, ghost hi: nat) returns (left: Node, x: nat, right: Node)
    requires m.Inode? && |m.keys| == WIDTH + 1 && KidsOk(m, lo, hi)
    ensures WF(left, lo, x) && WF(right, x, hi) && Leaves(left) + Leaves(right) == Leaves(m)
    ensures left.Inode? && right.Inode? && m.keys == left.keys + [x] + right.keys && m.kids == left.kids + right.kids
    ensures KidsFull(m.kids, -1) ==> Full(left) && (Full(right) <==> splitType != 2)
  {
    var mid := SplitMid(splitType);
    CutOk(m, lo, hi, mid);
    left, x, right := Inode(m.keys[..mid], m.kids[..mid + 1]), m.keys[mid], Inode(m.keys[mid + 1..], m.kids[mid + 1..]);
    CutFull(m, mid, left, right);
  }

  /** Whether the halves have separators. */
  lemma CutFull(m: Node, mid: nat, left: Node, right: Node)
    requires m.Inode? && left.Inode? && right.Inode? && 0 < mid < |m.keys| && |m.kids| == |m.keys| + 1
    requires left.keys == m.keys[..mid] && left.kids == m.kids[..mid + 1]
    requires right.keys == m.keys[mid + 1..] && right.kids == m.kids[mid + 1..]
    ensures m.keys == left.keys + [m.keys[mid]] + right.keys && m.kids == left.kids + right.kids
    ensures KidsFull(m.kids, -1) ==> Full(left) && (Full(right) <==> mid + 1 < |m.keys|)
  {
    if KidsFull(m.kids, -1) {
      forall i | 0 <= i < |left.kids| ensures Full(left.kids[i]) { assert left.kids[i] == m.kids[i]; }
      forall i | 0 <= i < |right.kids| ensures Full(right.kids[i]) { assert right.kids[i] == m.kids[mid + 1 + i]; }
    }
  }

  /** A root that split gets a parent. */
  method NewRoot(left: Node, x: nat, right: Node) returns (root: Node)
    requires WF(left, 0, x) && WF(right, x, SLICES)
    ensures WF(root, 0, SLICES) && Leaves(root) == Leaves(left) + Leaves(right)
  {
    root := Inode([x], [left, right]);
    assert KidOk(root, 0, SLICES, 0) && KidOk(root, 0, SLICES, 1);
    assert root.kids[1..] == [right];
    OnlyKidLeaves(Inode([], [right]));
  }
}
