/**
  Parent pointers while a split is carried upward (masstree/masstree_split.hh `finish_split`): interior
  nodes in a heap.  `ArraysRefine` ties the split step to the array code of `Internode`.
*/
module ParentLinks {
  import opened Common
  import opened Internode
  import Tree

  datatype Interior = Interior(keys: seq<nat>, kids: seq<Ref>)

  /** Interior nodes, the parent fields of all nodes, and a rank that makes every upward path end. */
  datatype Links = Links(nodes: map<Ref, Interior>, parent: map<Ref, Ref>, depth: map<Ref, nat>, next: nat)

  predicate Known(l: Links, n: Ref) {
    n != NULL && n in l.depth
  }

  /** Children of `p` have it as parent; only the first may be missing. */
  ghost predicate KidsWired(l: Links, p: Ref)
    requires p in l.nodes
  {
    var kids := l.nodes[p].kids;
    && Known(l, p) && |kids| == |l.nodes[p].keys| + 1 && Distinct(kids)
    && (forall i {:trigger kids[i]} :: 0 <= i < |kids| ==> (kids[i] == NULL ==> i == 0))
    && (forall c {:trigger c in kids} :: c in kids && c != NULL ==> c in l.parent && l.parent[c] == p)
  }

  /** A parent field names an interior node that has this child, nearer to the root. */
  ghost predicate ParentWired(l: Links, c: Ref)
    requires c in l.parent
  {
    && Known(l, c) && Known(l, l.parent[c]) && l.depth[l.parent[c]] < l.depth[c]
    && l.parent[c] in l.nodes && c in l.nodes[l.parent[c]].kids
  }

  ghost predicate Wired(l: Links) {
    && (forall p {:trigger KidsWired(l, p)} :: p in l.nodes ==> KidsWired(l, p))
    && (forall c {:trigger ParentWired(l, c)} :: c in l.parent ==> ParentWired(l, c))
    && (forall n {:trigger n in l.depth} :: n in l.depth ==> n.id < l.next)
  }

  ghost predicate Narrow(l: Links) {
    forall p {:trigger l.nodes[p]} :: p in l.nodes ==> |l.nodes[p].keys| <= WIDTH
  }

  /** `c` is a node without a parent: a root, or one not attached yet. */
  ghost predicate Detached(l: Links, c: Ref) {
    Known(l, c) && c !in l.parent
  }

  lemma DetachedIsNoKid(l: Links, c: Ref, p: Ref)
    requires Wired(l) && Detached(l, c) && p in l.nodes
    ensures c !in l.nodes[p].kids
  {
    assert KidsWired(l, p);
  }

  // ----- a new child -----

  function Attached(l: Links, p: Ref, kp: nat, x: nat, c: Ref): Links
    requires p in l.nodes && |l.nodes[p].kids| == |l.nodes[p].keys| + 1 && kp <= |l.nodes[p].keys|
  {
    l.(nodes := l.nodes[p := Interior(Inserted(l.nodes[p].keys, kp, x), InsertedKids(l.nodes[p].kids, kp, c))],
       parent := l.parent[c := p])
  }

  /** The new child and separator are where they should be, and nothing else has changed. */
  lemma AttachedAt(l: Links, p: Ref, kp: nat, x: nat, c: Ref)
    requires p in l.nodes && |l.nodes[p].kids| == |l.nodes[p].keys| + 1 && kp <= |l.nodes[p].keys|
    ensures var m := Attached(l, p, kp, x, c).nodes[p];
      && |m.kids| == |m.keys| + 1 == |l.nodes[p].kids| + 1
      && m.kids[kp] == l.nodes[p].kids[kp] && m.keys[kp] == x && m.kids[kp + 1] == c
      && Without(m.keys, kp) == l.nodes[p].keys && Without(m.kids, kp + 1) == l.nodes[p].kids
  {}

  lemma InsertedIn(kids: seq<Ref>, kp: nat, c: Ref, d: Ref)
    requires kp < |kids|
    ensures d in InsertedKids(kids, kp, c) <==> d == c || d in kids
  {
    var all := InsertedKids(kids, kp, c);
    assert all[kp + 1] == c;
    if d in kids {
      var i :| 0 <= i < |kids| && kids[i] == d;
      assert all[if i <= kp then i else i + 1] == d;
    }
  }

  lemma AttachWired(l: Links, p: Ref, kp: nat, x: nat, c: Ref)
    requires Wired(l) && p in l.nodes && Detached(l, c) && |l.nodes[p].kids| == |l.nodes[p].keys| + 1
    requires kp <= |l.nodes[p].keys| && Known(l, p) && l.depth[p] < l.depth[c]
    ensures Wired(Attached(l, p, kp, x, c))
  {
    var m, kids := Attached(l, p, kp, x, c), l.nodes[p].kids;
    forall q | q in m.nodes ensures KidsWired(m, q) {
      assert KidsWired(l, q);
      DetachedIsNoKid(l, c, q);
      if q == p {
        forall d ensures d in m.nodes[q].kids <==> d == c || d in kids { InsertedIn(kids, kp, c, d); }
      }
    }
    forall d | d in m.parent ensures ParentWired(m, d) {
      InsertedIn(kids, kp, c, d);
      if d != c { assert ParentWired(l, d); }
    }
  }

  // ----- a cut -----

  /** The children right of the cut move to a new node `r`, as the loop at the end of `internode_split`
      tells them. */
  function CutAt(l: Links, p: Ref, mid: nat, r: Ref): Links
    requires p in l.nodes && 0 < mid < |l.nodes[p].keys| && |l.nodes[p].kids| == |l.nodes[p].keys| + 1 && p in l.depth
  {
    var keys, kids := l.nodes[p].keys, l.nodes[p].kids;
    Links(l.nodes[p := Interior(keys[..mid], kids[..mid + 1])][r := Interior(keys[mid + 1..], kids[mid + 1..])],
          map c | c in l.parent :: if c in kids[mid + 1..] then r else l.parent[c],
          l.depth[r := l.depth[p]], l.next + 1)
  }

  lemma CutKids(kids: seq<Ref>, mid: nat, c: Ref)
    requires mid < |kids| && Distinct(kids)
    ensures c in kids <==> c in kids[..mid + 1] || c in kids[mid + 1..]
    ensures !(c in kids[..mid + 1] && c in kids[mid + 1..])
  {
    var a, b := kids[..mid + 1], kids[mid + 1..];
    assert kids == a + b;
    if c in b {
      var j :| 0 <= j < |b| && b[j] == c;
      forall i | 0 <= i < |a| ensures a[i] != c { assert kids[i] == a[i] && kids[mid + 1 + j] == b[j]; }
    }
  }

  lemma CutWired(l: Links, p: Ref, mid: nat, r: Ref)
    requires Wired(l) && p in l.nodes && 0 < mid < |l.nodes[p].keys| && r == Ref(l.next) && r != NULL
    requires |l.nodes[p].kids| == |l.nodes[p].keys| + 1 && Known(l, p)
    ensures Wired(CutAt(l, p, mid, r)) && Detached(CutAt(l, p, mid, r), r)
    ensures NULL !in CutAt(l, p, mid, r).nodes[r].kids
  {
    var m, kids := CutAt(l, p, mid, r), l.nodes[p].kids;
    assert KidsWired(l, p);
    assert r in l.parent ==> ParentWired(l, r);
    assert r !in l.depth;
    assert forall i :: mid < i < |kids| ==> kids[i] != NULL;
    forall q | q in m.nodes ensures KidsWired(m, q) {
      CutNodeWired(l, p, mid, r, q);
    }
    forall d | d in m.parent ensures ParentWired(m, d) {
      assert ParentWired(l, d);
      CutKids(kids, mid, d);
    }
  }

  lemma CutNodeWired(l: Links, p: Ref, mid: nat, r: Ref, q: Ref)
    requires Wired(l) && p in l.nodes && 0 < mid < |l.nodes[p].keys| && r == Ref(l.next) && r != NULL
    requires |l.nodes[p].kids| == |l.nodes[p].keys| + 1 && Known(l, p) && q in CutAt(l, p, mid, r).nodes
    ensures KidsWired(CutAt(l, p, mid, r), q)
  {
    var m, kids := CutAt(l, p, mid, r), l.nodes[p].kids;
    assert KidsWired(l, p);
    if q == p || q == r {
      forall c | c in m.nodes[q].kids && c != NULL ensures c in m.parent && m.parent[c] == q { CutKids(kids, mid, c); }
      if q == r { assert forall i :: 0 <= i < |kids| - mid - 1 ==> m.nodes[q].kids[i] == kids[mid + 1 + i]; }
    } else {
      assert KidsWired(l, q);
      forall c | c in m.nodes[q].kids && c != NULL ensures c in m.parent && m.parent[c] == q { CutKids(kids, mid, c); }
    }
  }

  // ----- a new root -----

  function Rooted(l: Links, n: Ref, x: nat, c: Ref, r: Ref): Links {
    Links(l.nodes[r := Interior([x], [n, c])], l.parent[n := r][c := r],
          (map k | k in l.depth :: l.depth[k] + 1)[r := 0], l.next + 1)
  }

  lemma RootWired(l: Links, n: Ref, x: nat, c: Ref, r: Ref)
    requires Wired(l) && Detached(l, n) && Detached(l, c) && n != c && r == Ref(l.next) && r != NULL
    ensures Wired(Rooted(l, n, x, c, r))
  {
    var m := Rooted(l, n, x, c, r);
    forall q | q in m.nodes ensures KidsWired(m, q) {
      if q != r {
        assert KidsWired(l, q);
        DetachedIsNoKid(l, n, q);
        DetachedIsNoKid(l, c, q);
      }
    }
    forall d | d in m.parent ensures ParentWired(m, d) {
      if d == n || d == c {
        assert m.nodes[r].kids[0] == n && m.nodes[r].kids[1] == c;
      } else {
        assert ParentWired(l, d);
      }
    }
  }

  // ----- the slices of a node -----

  /** The slices every node is responsible for, from `lo` up to but not including `hi`. */
  datatype Ranges = Ranges(lo: map<Ref, nat>, hi: map<Ref, nat>)

  /** A node that has split and its sibling, which has no parent yet, share the node's place. */
  datatype Gap = Closed | Open(left: Ref, right: Ref)

  predicate Has(b: Ranges, c: Ref) {
    c in b.lo && c in b.hi
  }

  /** Where the slices of a place end. */
  function End(b: Ranges, g: Gap, c: Ref): nat
    requires Has(b, c) && (g.Open? ==> Has(b, g.right))
  {
    if g.Open? && c == g.left then b.hi[g.right] else b.hi[c]
  }

  predicate GapOk(b: Ranges, g: Gap) {
    g.Open? ==> Has(b, g.left) && Has(b, g.right) && b.lo[g.left] < b.hi[g.left] == b.lo[g.right] < b.hi[g.right]
  }

  /** The separators around child `i` of `p` are the ends of its slices; a missing child has none. */
  predicate SlotRanged(l: Links, b: Ranges, g: Gap, p: Ref, i: nat)
    requires p in l.nodes && i < |l.nodes[p].kids| == |l.nodes[p].keys| + 1 && Has(b, p) && GapOk(b, g)
  {
    var c, lo, hi := l.nodes[p].kids[i], Tree.KidLo(l.nodes[p].keys, b.lo[p], i), Tree.KidHi(l.nodes[p].keys, b.hi[p], i);
    if c == NULL then lo == hi else Has(b, c) && b.lo[c] == lo < hi == End(b, g, c)
  }

  ghost predicate NodeRanged(l: Links, b: Ranges, g: Gap, p: Ref)
    requires p in l.nodes
  {
    && Has(b, p) && GapOk(b, g) && |l.nodes[p].kids| == |l.nodes[p].keys| + 1
    && forall i {:trigger SlotRanged(l, b, g, p, i)} :: 0 <= i < |l.nodes[p].kids| ==> SlotRanged(l, b, g, p, i)
  }

  ghost predicate Ranged(l: Links, b: Ranges, g: Gap) {
    GapOk(b, g) && forall p {:trigger NodeRanged(l, b, g, p)} :: p in l.nodes ==> NodeRanged(l, b, g, p)
  }

  /** Separators ascend. */
  lemma RangedAscends(l: Links, b: Ranges, g: Gap, p: Ref)
    requires p in l.nodes && NodeRanged(l, b, g, p)
    ensures Tree.Ascending(l.nodes[p].keys, b.lo[p], b.hi[p])
  {
    var keys := l.nodes[p].keys;
    forall i | 0 <= i <= |keys| ensures Tree.KidLo(keys, b.lo[p], i) <= Tree.KidHi(keys, b.hi[p], i) {
      assert SlotRanged(l, b, g, p, i);
    }
  }

  lemma SeparatorsAscend(l: Links, b: Ranges, p: Ref, i: nat, j: nat)
    requires Wired(l) && Ranged(l, b, Closed) && p in l.nodes && i < j < |l.nodes[p].keys|
    ensures l.nodes[p].keys[i] < l.nodes[p].keys[j]
  {
    assert NodeRanged(l, b, Closed, p) && KidsWired(l, p);
    RangedAscends(l, b, Closed, p);
    assert SlotRanged(l, b, Closed, p, j);
    assert l.nodes[p].kids[j] != NULL;
    Tree.AscendTo(l.nodes[p].keys, b.lo[p], b.hi[p], i, j - 1);
  }

  /** The search in the parent for the new separator ends at the node that split. */
  lemma SearchFinds(l: Links, b: Ranges, n: Ref, c: Ref, p: Ref, i: nat)
    requires p in l.nodes && NodeRanged(l, b, Open(n, c), p) && i < |l.nodes[p].kids| && l.nodes[p].kids[i] == n != NULL
    ensures Tree.Upper(l.nodes[p].keys, b.hi[n]) == i
  {
    RangedAscends(l, b, Open(n, c), p);
    assert SlotRanged(l, b, Open(n, c), p, i);
    Tree.UpperFinds(l.nodes[p].keys, b.lo[p], b.hi[p], b.hi[n], i);
  }

  lemma AttachRanged(l: Links, b: Ranges, n: Ref, c: Ref, p: Ref, i: nat)
    requires Wired(l) && Ranged(l, b, Open(n, c)) && Detached(l, c) && p in l.nodes && n != c
    requires |l.nodes[p].kids| == |l.nodes[p].keys| + 1 && i < |l.nodes[p].kids| && l.nodes[p].kids[i] == n != NULL
    ensures Ranged(Attached(l, p, i, b.hi[n], c), b, Closed)
  {
    var m := Attached(l, p, i, b.hi[n], c);
    forall q | q in m.nodes ensures NodeRanged(m, b, Closed, q) {
      assert NodeRanged(l, b, Open(n, c), q) && KidsWired(l, q) && KidsWired(l, p);
      DetachedIsNoKid(l, c, q);
      forall j | 0 <= j < |m.nodes[q].kids| ensures SlotRanged(m, b, Closed, q, j) {
        if q == p {
          var k := if j <= i then j else j - 1;
          assert SlotRanged(l, b, Open(n, c), p, k);
          assert m.nodes[p].kids[j] == if j == i + 1 then c else l.nodes[p].kids[k];
        } else {
          assert SlotRanged(l, b, Open(n, c), q, j);
          assert l.nodes[q].kids[j] in l.nodes[q].kids && n in l.nodes[p].kids;
        }
      }
    }
  }

  /** The halves of a node that was cut. */
  function CutRanges(b: Ranges, p: Ref, x: nat, r: Ref): Ranges
    requires Has(b, p)
  {
    Ranges(b.lo[r := x], b.hi[r := b.hi[p]][p := x])
  }

  lemma CutRanged(l: Links, b: Ranges, p: Ref, mid: nat, r: Ref)
    requires Wired(l) && Ranged(l, b, Closed) && p in l.nodes && Known(l, p) && 0 < mid < |l.nodes[p].keys|
    requires r == Ref(l.next) && r != NULL && |l.nodes[p].kids| == |l.nodes[p].keys| + 1 && Has(b, p)
    ensures var x := l.nodes[p].keys[mid]; Ranged(CutAt(l, p, mid, r), CutRanges(b, p, x, r), Open(p, r))
  {
    var keys, kids, x := l.nodes[p].keys, l.nodes[p].kids, l.nodes[p].keys[mid];
    var m, d := CutAt(l, p, mid, r), CutRanges(b, p, x, r);
    assert NodeRanged(l, b, Closed, p) && KidsWired(l, p);
    assert r !in l.depth && p != r;
    RangedAscends(l, b, Closed, p);
    assert SlotRanged(l, b, Closed, p, mid) && SlotRanged(l, b, Closed, p, mid + 1);
    assert kids[mid] != NULL && kids[mid + 1] != NULL;
    Tree.AscendTo(keys, b.lo[p], b.hi[p], 0, mid - 1);
    Tree.AscendTo(keys, b.lo[p], b.hi[p], mid + 1, |keys|);
    forall q | q in m.nodes ensures NodeRanged(m, d, Open(p, r), q) { CutNodeRanged(l, b, p, mid, r, q); }
  }

  /** `r` is a new reference. */
  lemma NewIsNoKid(l: Links, r: Ref, q: Ref, i: nat)
    requires Wired(l) && r == Ref(l.next) && r != NULL && q in l.nodes && i < |l.nodes[q].kids|
    ensures l.nodes[q].kids[i] != r && q != r
  {
    var c := l.nodes[q].kids[i];
    assert KidsWired(l, q) && c in l.nodes[q].kids;
    if c != NULL { assert ParentWired(l, c); }
  }

  lemma CutNodeRanged(l: Links, b: Ranges, p: Ref, mid: nat, r: Ref, q: Ref)
    requires Wired(l) && Ranged(l, b, Closed) && p in l.nodes && Known(l, p) && 0 < mid < |l.nodes[p].keys|
    requires r == Ref(l.next) && r != NULL && |l.nodes[p].kids| == |l.nodes[p].keys| + 1 && Has(b, p)
    requires q in CutAt(l, p, mid, r).nodes && GapOk(CutRanges(b, p, l.nodes[p].keys[mid], r), Open(p, r))
    ensures NodeRanged(CutAt(l, p, mid, r), CutRanges(b, p, l.nodes[p].keys[mid], r), Open(p, r), q)
  {
    var m, d := CutAt(l, p, mid, r), CutRanges(b, p, l.nodes[p].keys[mid], r);
    var from, off := if q == r then p else q, if q == r then mid + 1 else 0;
    assert NodeRanged(l, b, Closed, from) && KidsWired(l, from);
    forall j | 0 <= j < |m.nodes[q].kids| ensures SlotRanged(m, d, Open(p, r), q, j) {
      assert SlotRanged(l, b, Closed, from, j + off);
      NewIsNoKid(l, r, from, j + off);
      assert m.nodes[q].kids[j] == l.nodes[from].kids[j + off];
      if q == p || q == r { NotOwnKid(l, p, j + off); }
    }
  }

  lemma NotOwnKid(l: Links, p: Ref, i: nat)
    requires Wired(l) && p in l.nodes && i < |l.nodes[p].kids|
    ensures l.nodes[p].kids[i] != p
  {
    var c := l.nodes[p].kids[i];
    assert KidsWired(l, p) && c in l.nodes[p].kids;
    if c != NULL { assert ParentWired(l, c); }
  }

  function RootRanges(b: Ranges, n: Ref, c: Ref, r: Ref): Ranges
    requires Has(b, n) && Has(b, c)
  {
    Ranges(b.lo[r := b.lo[n]], b.hi[r := b.hi[c]])
  }

  lemma RootRanged(l: Links, b: Ranges, n: Ref, c: Ref, r: Ref)
    requires Wired(l) && Ranged(l, b, Open(n, c)) && Detached(l, n) && Detached(l, c) && n != c && r == Ref(l.next) && r != NULL
    ensures Has(b, n) && Has(b, c) && Ranged(Rooted(l, n, b.hi[n], c, r), RootRanges(b, n, c, r), Closed)
  {
    var m, d := Rooted(l, n, b.hi[n], c, r), RootRanges(b, n, c, r);
    forall q | q in m.nodes ensures NodeRanged(m, d, Closed, q) {
      if q != r {
        assert NodeRanged(l, b, Open(n, c), q) && KidsWired(l, q);
        DetachedIsNoKid(l, n, q);
        DetachedIsNoKid(l, c, q);
        forall j | 0 <= j < |m.nodes[q].kids| ensures SlotRanged(m, d, Closed, q, j) {
          assert SlotRanged(l, b, Open(n, c), q, j);
          NewIsNoKid(l, r, q, j);
          assert l.nodes[q].kids[j] in l.nodes[q].kids;
        }
      }
    }
  }

  // ----- the descent -----

  /** The node after `k` steps of the descent for a slice. */
  function Reached(l: Links, n: Ref, y: nat, k: nat): Ref {
    if k == 0 then n
    else
      var p := Reached(l, n, y, k - 1);
      if p in l.nodes && Tree.Upper(l.nodes[p].keys, y) < |l.nodes[p].kids|
      then l.nodes[p].kids[Tree.Upper(l.nodes[p].keys, y)] else p
  }

  predicate Covers(b: Ranges, n: Ref, y: nat) {
    Has(b, n) && b.lo[n] <= y < b.hi[n]
  }

  /** Every step leads to a node responsible for the slice, never to a missing child, and deeper. */
  lemma {:induction false} DescentCovers(l: Links, b: Ranges, n: Ref, y: nat, k: nat)
    requires Wired(l) && Ranged(l, b, Closed) && Known(l, n) && Covers(b, n, y)
    ensures var c := Reached(l, n, y, k);
      Known(l, c) && Covers(b, c, y) && (c in l.nodes ==> l.depth[c] >= k)
  {
    if k > 0 {
      DescentCovers(l, b, n, y, k - 1);
      var p := Reached(l, n, y, k - 1);
      if p in l.nodes {
        var i := Tree.Upper(l.nodes[p].keys, y);
        assert NodeRanged(l, b, Closed, p) && KidsWired(l, p);
        assert SlotRanged(l, b, Closed, p, i);
        var c := l.nodes[p].kids[i];
        assert c in l.nodes[p].kids;
        assert ParentWired(l, c);
      }
    }
  }

  lemma {:induction false} DeepestIn(depth: map<Ref, nat>) returns (d: nat)
    ensures forall n :: n in depth ==> depth[n] < d
    decreases |depth|
  {
    if depth == map[] {
      d := 0;
    } else {
      var n :| n in depth;
      d := DeepestIn(depth - {n});
      assert forall m :: m in depth && m != n ==> m in depth - {n};
      d := if depth[n] < d then d else depth[n] + 1;
    }
  }

  /** So every slice of a node is routed to a bottom node responsible for it. */
  lemma DescentEnds(l: Links, b: Ranges, n: Ref, y: nat) returns (k: nat)
    requires Wired(l) && Ranged(l, b, Closed) && Known(l, n) && Covers(b, n, y)
    ensures var c := Reached(l, n, y, k); Known(l, c) && c !in l.nodes && Covers(b, c, y)
  {
    k := DeepestIn(l.depth);
    DescentCovers(l, b, n, y, k);
  }

  // ----- the loop -----

  class Heap {
    var links: Links
    ghost var ranges: Ranges

    constructor (links: Links, ghost ranges: Ranges)
      ensures this.links == links && this.ranges == ranges
    {
      this.links, this.ranges := links, ranges;
    }

    /** `finish_split` from a node `n0` and its new right sibling: afterwards every node but the root has
        a parent, which has it as a child between the separators of its slices, and no bottom node's slices
        have changed. */
    method FinishSplit(n0: Ref, child0: Ref, x0: nat, splitType: nat)
      requires Pending(n0, child0, x0)
      modifies this
      ensures Wired(links) && Narrow(links) && Ranged(links, ranges, Closed)
      ensures SameBottoms(old(ranges))
      ensures n0 in links.parent && child0 in links.parent && links.parent[n0] in links.nodes
      ensures forall c :: c in old(links.parent) ==> c in links.parent
    {
      var n, child, x, done := n0, child0, x0, false;
      while !done && n in links.parent
        invariant if done then Wired(links) && Narrow(links) && Ranged(links, ranges, Closed) else Pending(n, child, x)
        invariant SameBottoms(old(ranges))
        invariant (!done && n == n0 && child == child0) || (n0 in links.parent && child0 in links.parent)
        invariant forall c :: c in old(links.parent) ==> c in links.parent
        decreases !done, if n in links.depth then links.depth[n] else 0
      {
        done, n, child, x := Round(n, child, x, splitType);
      }
      if !done { AddRoot(n, child, x); }
      assert ParentWired(links, n0);
    }

    /** A node that has split at `x`, and its sibling without a parent. */
    ghost predicate Pending(n: Ref, child: Ref, x: nat)
      reads this
    {
      && Wired(links) && Narrow(links) && links.next > 0 && Known(links, n) && Detached(links, child) && n != child
      && links.depth[n] == links.depth[child] && Ranged(links, ranges, Open(n, child)) && x == ranges.hi[n]
    }

    /** One round of the loop: the parent takes the sibling in, and splits in turn if it was full. */
    method Round(n: Ref, child: Ref, x: nat, splitType: nat) returns (done: bool, p: Ref, r: Ref, y: nat)
      requires Pending(n, child, x) && n in links.parent
      modifies this
      ensures if done then Wired(links) && Narrow(links) && Ranged(links, ranges, Closed) else Pending(p, r, y)
      ensures !done ==> p in links.depth && n in old(links.depth) && links.depth[p] < old(links.depth)[n]
      ensures links.parent.Keys == old(links.parent.Keys) + {child}
      ensures links.nodes.Keys >= old(links.nodes.Keys) && SameBottoms(old(ranges))
    {
      p, r, y := links.parent[n], child, x;
      assert ParentWired(links, n);
      var _ := TakeIn(n, child, x);
      done := |links.nodes[p].keys| <= WIDTH;
      if !done { r, y := CutOff(p, splitType); }
    }

    /** A root that has split gets a parent. */
    method AddRoot(n: Ref, child: Ref, x: nat)
      requires Pending(n, child, x) && n !in links.parent
      modifies this
      ensures Wired(links) && Narrow(links) && Ranged(links, ranges, Closed)
      ensures links.parent.Keys == old(links.parent.Keys) + {n, child}
      ensures links.nodes.Keys >= old(links.nodes.Keys) && SameBottoms(old(ranges))
    {
      var r := Ref(links.next);
      RootWired(links, n, x, child, r);
      RootRanged(links, ranges, n, child, r);
      ranges := RootRanges(ranges, n, child, r);
      links := Rooted(links, n, x, child, r);
    }

    /** Bottom nodes keep their slices. */
    ghost predicate SameBottoms(was: Ranges)
      reads this
    {
      forall c :: c !in links.nodes && Has(was, c) ==>
        Has(ranges, c) && ranges.lo[c] == was.lo[c] && ranges.hi[c] == was.hi[c]
    }

    /** The parent of `n` takes `child` in just after `n`, with `x` between them, even if it is too wide then. */
    method TakeIn(n: Ref, child: Ref, x: nat) returns (ghost at: nat)
      requires Wired(links) && Narrow(links) && n in links.parent && Detached(links, child) && Known(links, n)
      requires links.depth[n] == links.depth[child] && n != child
      requires Ranged(links, ranges, Open(n, child)) && x == ranges.hi[n]
      modifies `links
      ensures Wired(links) && links.parent == old(links.parent)[child := old(links.parent)[n]]
      ensures Ranged(links, ranges, Closed)
      ensures var p := old(links.parent)[n];
        && p in links.nodes && links.nodes.Keys == old(links.nodes.Keys) && |links.nodes[p].keys| <= WIDTH + 1
        && (forall q :: q in links.nodes && q != p ==> links.nodes[q] == old(links.nodes)[q])
        && at + 1 < |links.nodes[p].kids| == |links.nodes[p].keys| + 1
        && links.nodes[p].kids[at] == n && links.nodes[p].keys[at] == x && links.nodes[p].kids[at + 1] == child
        && Without(links.nodes[p].keys, at) == old(links.nodes)[p].keys
        && Without(links.nodes[p].kids, at + 1) == old(links.nodes)[p].kids
      ensures links.depth == old(links.depth) && links.next == old(links.next)
    {
      var p := links.parent[n];
      assert ParentWired(links, n) && KidsWired(links, p) && NodeRanged(links, ranges, Open(n, child), p);
      at :| 0 <= at < |links.nodes[p].kids| && links.nodes[p].kids[at] == n;
      var kp := Tree.UpperLinear(links.nodes[p].keys, x);
      SearchFinds(links, ranges, n, child, p, at);
      AttachWired(links, p, kp, x, child);
      AttachRanged(links, ranges, n, child, p, at);
      AttachedAt(links, p, kp, x, child);
      links := Attached(links, p, kp, x, child);
    }

    /** A node that is too wide gives its upper part to a new sibling, which has no parent yet. */
    method CutOff(p: Ref, splitType: nat) returns (r: Ref, x: nat)
      requires Wired(links) && links.next > 0 && p in links.nodes && |links.nodes[p].keys| == WIDTH + 1
      requires forall q {:trigger links.nodes[q]} :: q in links.nodes && q != p ==> |links.nodes[q].keys| <= WIDTH
      requires Ranged(links, ranges, Closed)
      modifies this
      ensures Wired(links) && Narrow(links) && links.next > 0 && Known(links, p) && Detached(links, r) && p != r
      ensures links.depth[p] == links.depth[r] && p in old(links.depth) && links.depth[p] == old(links.depth)[p]
      ensures links.parent.Keys == old(links.parent.Keys) && links.nodes.Keys == old(links.nodes.Keys) + {r}
      ensures Ranged(links, ranges, Open(p, r)) && x == ranges.hi[p]
      ensures forall c :: c != p && c != r && Has(old(ranges), c) ==>
        Has(ranges, c) && ranges.lo[c] == old(ranges).lo[c] && ranges.hi[c] == old(ranges).hi[c]
    {
      assert KidsWired(links, p) && NodeRanged(links, ranges, Closed, p);
      var mid := SplitMid(splitType);
      r := Ref(links.next);
      x := links.nodes[p].keys[mid];
      CutWired(links, p, mid, r);
      CutRanged(links, ranges, p, mid, r);
      ranges := CutRanges(ranges, p, x, r);
      links := CutAt(links, p, mid, r);
    }
  }

  /** Parent fields as `Internode.SplitInsert` leaves them. */
  lemma ParentsMatch(l: Links, p: Ref, kp: nat, x: nat, c: Ref, mid: nat, r: Ref, of: map<Ref, Ref>)
    requires p in l.nodes && |l.nodes[p].kids| == |l.nodes[p].keys| + 1 && kp <= |l.nodes[p].keys| && p in l.depth
    requires 0 < mid <= |l.nodes[p].keys| && of.Keys == l.parent.Keys + {c}
    requires var right := Attached(l, p, kp, x, c).nodes[p].kids[mid + 1..];
      forall d :: d in of ==> of[d] == if d in right then r else if d == c then p else l.parent[d]
    ensures of == CutAt(Attached(l, p, kp, x, c), p, mid, r).parent
  {
    var cut := CutAt(Attached(l, p, kp, x, c), p, mid, r).parent;
    assert of.Keys == cut.Keys;
    forall d | d in of ensures of[d] == cut[d] {}
  }

  /** The array code of a full node's split does to keys, children and parent fields what a new child and a
      cut do here. */
  method ArraysRefine(l: Links, p: Ref, kp: nat, x: nat, c: Ref, splitType: nat, nl: Node, nr: Node, parents: Parents)
    returns (up: nat)
    requires Wired(l) && p in l.nodes && Detached(l, c) && |l.nodes[p].keys| == WIDTH && kp <= WIDTH
    requires nl.Valid() && nr.Valid() && Apart(nl, nr) && nl.self == p && nr.self == Ref(l.next)
    requires nl.Keys() == l.nodes[p].keys && nl.Kids() == l.nodes[p].kids && parents.of == l.parent
    modifies nl, nl.ikey, nl.child, nr, nr.ikey, nr.child, parents
    ensures nl.Valid() && nr.Valid() && |l.nodes[p].kids| == WIDTH + 1 && p in l.depth
    ensures var mid, m := SplitMid(splitType), Attached(l, p, kp, x, c);
      var cut := CutAt(m, p, mid, nr.self);
      && up == m.nodes[p].keys[mid] && p != nr.self
      && Interior(nl.Keys(), nl.Kids()) == cut.nodes[p] && Interior(nr.Keys(), nr.Kids()) == cut.nodes[nr.self]
      && parents.of == cut.parent
  {
    assert KidsWired(l, p);
    DetachedIsNoKid(l, c, p);
    ghost var kids := nl.Kids();
    assert forall i :: 0 < i < |kids| ==> kids[i] != NULL;
    up := SplitInsert(nl, nr, kp, x, c, splitType, parents);
    assert p.id < l.next;
    ParentsMatch(l, p, kp, x, c, SplitMid(splitType), nr.self, parents.of);
  }
}
