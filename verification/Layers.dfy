/**
  Lookup, insertion and removal of byte-string keys in a trie of B+trees
  (masstree/masstree_get.hh, masstree/masstree_insert.hh, masstree/masstree_remove.hh), run by one
  thread.
*/
module Layers {
  import opened Common
  import opened Tree
  import opened Slices
  import Leaf
  import Permuter

  // ----- what a tree holds -----

  /** A slot holds `v` for `key`, which may be the rest of a longer key. */
  ghost predicate EntryHas(e: Entry, key: Key, v: int)
    decreases |key|, 0
  {
    match e
    case Val(ikey, len, suffix, value) =>
      Slice(key) == ikey && Class(key) == len && (len == 9 ==> key[8..] == suffix) && v == value
    case Sub(ikey, layer) => |key| > 8 && Slice(key) == ikey && Has(layer, key[8..], v)
  }

  ghost predicate InData(data: seq<Entry>, key: Key, v: int)
    decreases |key|, 1
  {
    exists i :: 0 <= i < |data| && EntryHas(data[i], key, v)
  }

  ghost predicate HasIn(ls: seq<Node>, key: Key, v: int)
    decreases |key|, 2
  {
    exists j :: 0 <= j < |ls| && ls[j].Leaf? && InData(ls[j].data, key, v)
  }

  /** Some leaf of the layer holds `v` for `key`. */
  ghost predicate Has(n: Node, key: Key, v: int)
    decreases |key|, 3
  {
    HasIn(Leaves(n), key, v)
  }

  // ----- well-formed tries -----

  /** The slot for a key that ends in this layer or keeps its rest as a suffix. */
  function MakeEntry(key: Key, v: int): (e: Entry)
    ensures e.Val? && e.ikey == Slice(key) && e.Class() == Class(key) && OwnKey(e) == key
  {
    SliceGivesBack(key);
    assert |key| > 8 ==> key == key[..8] + key[8..];
    Val(Slice(key), Class(key), if |key| > 8 then key[8..] else [], v)
  }

  /** The key, or rest of a key, that a slot with a value is for. */
  function OwnKey(e: Entry): Key
    requires e.Val?
  {
    if e.len <= 8 then SliceBytes(e.ikey)[..e.len] else SliceBytes(e.ikey) + e.suffix
  }

  /** A value's slot is the one its key makes.  The rest of a longer key is not empty, so no layer but
      the first stores the empty key. */
  ghost predicate EntryOk(e: Entry)
    decreases e
  {
    match e
    case Val(_, _, _, value) => e == MakeEntry(OwnKey(e), value)
    case Sub(ikey, layer) => ikey < SLICES && WF(layer, 0, SLICES) && Deep(layer) && forall v :: !Has(layer, [], v)
  }

  ghost predicate Deep(n: Node)
    decreases n
  {
    match n
    case Null => true
    case Leaf(_, data) => forall i {:trigger EntryOk(data[i])} :: 0 <= i < |data| ==> EntryOk(data[i])
    case Inode(_, kids) => forall i {:trigger Deep(kids[i])} :: 0 <= i < |kids| ==> Deep(kids[i])
  }

  /** A layer and all layers below it are well formed. */
  ghost predicate TrieOk(n: Node) {
    WF(n, 0, SLICES) && Deep(n)
  }

  ghost predicate AllDeep(ls: seq<Node>) {
    forall i {:trigger Deep(ls[i])} :: 0 <= i < |ls| ==> Deep(ls[i])
  }

  lemma {:induction false} DeepLeaves(n: Node)
    ensures Deep(n) <==> AllDeep(Leaves(n))
    decreases n
  {
    if n.Inode? { DeepKids(n.kids); } else if n.Leaf? { assert [n][0] == n; }
  }

  lemma {:induction false} DeepKids(kids: seq<Node>)
    ensures (forall i :: 0 <= i < |kids| ==> Deep(kids[i])) <==> AllDeep(KidLeaves(kids))
    decreases kids
  {
    if kids != [] {
      DeepLeaves(kids[0]);
      DeepKids(kids[1..]);
      AllDeepConcat(Leaves(kids[0]), KidLeaves(kids[1..]));
      assert (forall i :: 0 <= i < |kids| ==> Deep(kids[i])) <==>
        Deep(kids[0]) && forall i :: 0 <= i < |kids[1..]| ==> Deep(kids[1..][i]) by {
        assert forall i :: 0 < i < |kids| ==> kids[i] == kids[1..][i - 1];
      }
    }
  }

  lemma AllDeepConcat(a: seq<Node>, b: seq<Node>)
    ensures AllDeep(a + b) <==> AllDeep(a) && AllDeep(b)
  {
    if AllDeep(a + b) {
      forall i | 0 <= i < |a| ensures Deep(a[i]) { assert a[i] == (a + b)[i]; }
      forall i | 0 <= i < |b| ensures Deep(b[i]) { assert b[i] == (a + b)[|a| + i]; }
    }
  }

  lemma HasInConcat(a: seq<Node>, b: seq<Node>, key: Key, v: int)
    ensures HasIn(a + b, key, v) <==> HasIn(a, key, v) || HasIn(b, key, v)
  {
    var c := a + b;
    if HasIn(c, key, v) {
      var j :| 0 <= j < |c| && c[j].Leaf? && InData(c[j].data, key, v);
      if j >= |a| { assert b[j - |a|] == c[j]; } else { assert a[j] == c[j]; }
    }
    if HasIn(a, key, v) {
      var j :| 0 <= j < |a| && a[j].Leaf? && InData(a[j].data, key, v);
      assert c[j] == a[j];
    }
    if HasIn(b, key, v) {
      var j :| 0 <= j < |b| && b[j].Leaf? && InData(b[j].data, key, v);
      assert c[|a| + j] == b[j];
    }
  }

  lemma HasInOne(l: Node, key: Key, v: int)
    requires l.Leaf?
    ensures HasIn([l], key, v) <==> InData(l.data, key, v)
  {
    assert [l][0] == l;
  }

  // ----- where a key can be -----

  lemma HasSlice(e: Entry, key: Key, v: int)
    requires EntryHas(e, key, v)
    ensures e.ikey == Slice(key) && e.Class() == Class(key)
  {}

  lemma InDataWithin(data: seq<Entry>, lo: nat, hi: nat, key: Key, v: int)
    requires Within(data, lo, hi) && InData(data, key, v)
    ensures lo <= Slice(key) < hi
  {
    var i :| 0 <= i < |data| && EntryHas(data[i], key, v);
    HasSlice(data[i], key, v);
  }

  /** Only the leaf the descent ends in can hold the key. */
  lemma NotBeside(path: Path, leaf: Node, key: Key, v: int)
    requires path.Ok() && leaf.Leaf? && WF(leaf, path.Lo(), path.Hi()) && path.Lo() <= Slice(key) < path.Hi()
    ensures !HasIn(path.Left(), key, v) && !HasIn(path.Right(), key, v)
  {
    PlugWF(path, leaf);
    PlugLeaves(path, leaf);
    LeavesCover(path.Plug(leaf), 0, SLICES);
    RightStarts(path, leaf);
    var a, b := path.Left(), path.Right();
    var all := a + [leaf] + b;
    if HasIn(a, key, v) {
      var j :| 0 <= j < |a| && a[j].Leaf? && InData(a[j].data, key, v);
      assert all[j] == a[j] && all[|a|] == leaf;
      BoundsAscend(all, 0, SLICES, j, |a|);
      assert LeafOk(all, SLICES, j);
      InDataWithin(a[j].data, a[j].bound, NextBound(all, SLICES, j), key, v);
    }
    if HasIn(b, key, v) {
      var j :| 0 <= j < |b| && b[j].Leaf? && InData(b[j].data, key, v);
      assert all[|a| + 1 + j] == b[j] && all[|a| + 1] == b[0];
      if j > 0 { BoundsAscend(all, 0, SLICES, |a| + 1, |a| + 1 + j); }
      assert LeafOk(all, SLICES, |a| + 1 + j);
      InDataWithin(b[j].data, b[j].bound, NextBound(all, SLICES, |a| + 1 + j), key, v);
    }
  }

  lemma HasAround(path: Path, ls: seq<Node>, root: Node, key: Key, v: int)
    requires path.Shape() && Leaves(root) == path.Left() + ls + path.Right()
    ensures Has(root, key, v) <==> HasIn(path.Left(), key, v) || HasIn(ls, key, v) || HasIn(path.Right(), key, v)
  {
    HasInConcat(path.Left() + ls, path.Right(), key, v);
    HasInConcat(path.Left(), ls, key, v);
  }

  // ----- searching a leaf -----

  /** `keylenx_`: at most 8 for a key that ends here, 9 with a suffix, 137 for a next layer. */
  function Lenx(e: Entry): nat {
    if e.Sub? then 8 + 129 else e.len
  }

  /** `key::compare` of a key with the given slice and length */
  function Compare(ikey: nat, len: nat, e: Entry): int {
    if ikey < e.ikey then -1
    else if ikey > e.ikey then 1
    else if len > 8 then (if Lenx(e) <= 8 then 1 else 0)
    else len - Lenx(e)
  }

  lemma CompareIs(ikey: nat, len: nat, e: Entry)
    requires e.Class() <= 9
    ensures Compare(ikey, len, e) < 0 <==> Before(ikey, ClassOf(len), e.ikey, e.Class())
    ensures Compare(ikey, len, e) == 0 <==> ikey == e.ikey && ClassOf(len) == e.Class()
    ensures Compare(ikey, len, e) > 0 <==> Before(e.ikey, e.Class(), ikey, ClassOf(len))
  {}

  ghost predicate DataOk(data: seq<Entry>) {
    Sorted(data) && forall i {:trigger EntryOk(data[i])} :: 0 <= i < |data| ==> EntryOk(data[i])
  }

  predicate Classed(data: seq<Entry>) {
    forall i :: 0 <= i < |data| ==> data[i].Class() <= 9
  }

  lemma DataClassed(data: seq<Entry>)
    requires DataOk(data)
    ensures Classed(data)
  {
    forall i | 0 <= i < |data| ensures data[i].Class() <= 9 { assert EntryOk(data[i]); }
  }

  /** `key_find_lower_bound_with_position_by` */
  method LowerWithPosition(data: seq<Entry>, ikey: nat, len: nat) returns (ki: nat, found: bool)
    requires Sorted(data) && Classed(data)
    ensures if found then ki < |data| && data[ki].ikey == ikey && data[ki].Class() == ClassOf(len)
            else Belongs(data, ki, ikey, ClassOf(len))
  {
    ki := 0;
    while ki < |data|
      invariant ki <= |data|
      invariant forall i :: 0 <= i < ki ==> Before(data[i].ikey, data[i].Class(), ikey, ClassOf(len))
    {
      CompareIs(ikey, len, data[ki]);
      var cmp := Compare(ikey, len, data[ki]);
      if cmp < 0 {
        return ki, false;
      } else if cmp == 0 {
        return ki, true;
      }
      ki := ki + 1;
    }
    found := false;
  }

  /** In a sorted leaf at most one slot is for the key. */
  lemma OnlyHere(data: seq<Entry>, ki: nat, key: Key, v: int)
    requires Sorted(data) && ki < |data| && data[ki].ikey == Slice(key) && data[ki].Class() == Class(key)
    ensures InData(data, key, v) <==> EntryHas(data[ki], key, v)
  {
    if InData(data, key, v) {
      var i :| 0 <= i < |data| && EntryHas(data[i], key, v);
      HasSlice(data[i], key, v);
    }
  }

  lemma Nowhere(data: seq<Entry>, ki: nat, key: Key, v: int)
    requires Belongs(data, ki, Slice(key), Class(key))
    ensures !InData(data, key, v)
  {
    if InData(data, key, v) {
      var i :| 0 <= i < |data| && EntryHas(data[i], key, v);
      HasSlice(data[i], key, v);
    }
  }

  // ----- lookup -----

  /** One layer of a lookup: the descent's leaf decides. */
  lemma HasInLeaf(path: Path, leaf: Node, key: Key, v: int)
    requires path.Ok() && leaf.Leaf? && WF(leaf, path.Lo(), path.Hi()) && path.Lo() <= Slice(key) < path.Hi()
    ensures Has(path.Plug(leaf), key, v) <==> InData(leaf.data, key, v)
  {
    NotBeside(path, leaf, key, v);
    PlugLeaves(path, leaf);
    HasAround(path, [leaf], path.Plug(leaf), key, v);
    HasInOne(leaf, key, v);
  }

  lemma LeafDeep(path: Path, leaf: Node)
    requires path.Shape() && leaf.Leaf? && Deep(path.Plug(leaf))
    ensures Deep(leaf) && AllDeep(path.Left()) && AllDeep(path.Right())
  {
    DeepLeaves(path.Plug(leaf));
    PlugLeaves(path, leaf);
    AllDeepConcat(path.Left() + [leaf], path.Right());
    AllDeepConcat(path.Left(), [leaf]);
    assert [leaf][0] == leaf;
  }

  /** `find_unlocked`: a loop over layers, each time with a shifted key. */
  method Get(root0: Node, key0: Key) returns (r: Option<int>)
    requires TrieOk(root0)
    ensures forall v :: Has(root0, key0, v) <==> r == Some(v)
  {
    var root, key := root0, key0;
    while true
      invariant TrieOk(root)
      invariant forall v :: Has(root0, key0, v) <==> Has(root, key, v)
      decreases |key|
    {
      SliceBound(key);
      var path, leaf := ReachLeaf(root, Slice(key));
      LeafDeep(path, leaf);
      DataClassed(leaf.data);
      var kp, found := LowerWithPosition(leaf.data, Slice(key), |key|);
      forall v ensures Has(root, key, v) <==> InData(leaf.data, key, v) { HasInLeaf(path, leaf, key, v); }
      if !found {
        forall v ensures !InData(leaf.data, key, v) { Nowhere(leaf.data, kp, key, v); }
        return None;
      }
      forall v ensures InData(leaf.data, key, v) <==> EntryHas(leaf.data[kp], key, v) { OnlyHere(leaf.data, kp, key, v); }
      var e := leaf.data[kp];
      assert EntryOk(e);
      match e {
        case Sub(_, layer) =>
          root, key := layer, key[8..];
        case Val(_, len, suffix, value) =>
          if len < 9 || suffix == key[8..] { return Some(value); } else { return None; }
      }
    }
  }

  // ----- insertion and removal in one leaf -----

  /** `after` is `before` with `key` bound to `v`, or unbound. */
  ghost predicate DataEffect(before: seq<Entry>, after: seq<Entry>, key: Key, v: Option<int>) {
    forall k, x :: InData(after, k, x) <==> if k == key then v == Some(x) else InData(before, k, x)
  }

  ghost predicate EntryEffect(before: Entry, after: Entry, key: Key, v: Option<int>) {
    forall k, x :: EntryHas(after, k, x) <==> if k == key then v == Some(x) else EntryHas(before, k, x)
  }

  ghost predicate Effect(before: Node, after: Node, key: Key, v: Option<int>) {
    forall k, x :: Has(after, k, x) <==> if k == key then v == Some(x) else Has(before, k, x)
  }

  lemma ReplaceEffect(data: seq<Entry>, ki: nat, e: Entry, key: Key, v: Option<int>)
    requires Sorted(data) && ki < |data| && data[ki].ikey == Slice(key) && data[ki].Class() == Class(key)
    requires e.ikey == data[ki].ikey && e.Class() == data[ki].Class() && EntryEffect(data[ki], e, key, v)
    ensures DataEffect(data, data[ki := e], key, v) && Sorted(data[ki := e])
  {
    var after := data[ki := e];
    assert Sorted(after) by {
      forall i, j | 0 <= i < j < |after|
        ensures Before(after[i].ikey, after[i].Class(), after[j].ikey, after[j].Class())
      {
        assert Before(data[i].ikey, data[i].Class(), data[j].ikey, data[j].Class());
      }
    }
    forall k, x ensures InData(after, k, x) <==> if k == key then v == Some(x) else InData(data, k, x) {
      if k == key {
        OnlyHere(after, ki, k, x);
      } else {
        OthersStay(data, ki, e, k, x);
      }
    }
  }

  lemma OthersStay(data: seq<Entry>, ki: nat, e: Entry, k: Key, x: int)
    requires ki < |data| && (EntryHas(e, k, x) <==> EntryHas(data[ki], k, x))
    ensures InData(data[ki := e], k, x) <==> InData(data, k, x)
  {
    var after := data[ki := e];
    if InData(after, k, x) {
      var i :| 0 <= i < |after| && EntryHas(after[i], k, x);
      assert EntryHas(data[i], k, x);
    }
    if InData(data, k, x) {
      var i :| 0 <= i < |data| && EntryHas(data[i], k, x);
      assert EntryHas(after[i], k, x);
    }
  }

  lemma InDataConcat(a: seq<Entry>, b: seq<Entry>, k: Key, x: int)
    ensures InData(a + b, k, x) <==> InData(a, k, x) || InData(b, k, x)
  {
    var c := a + b;
    if InData(c, k, x) {
      var j :| 0 <= j < |c| && EntryHas(c[j], k, x);
      if j >= |a| { assert b[j - |a|] == c[j]; } else { assert a[j] == c[j]; }
    }
    if InData(a, k, x) {
      var j :| 0 <= j < |a| && EntryHas(a[j], k, x);
      assert c[j] == a[j];
    }
    if InData(b, k, x) {
      var j :| 0 <= j < |b| && EntryHas(b[j], k, x);
      assert c[|a| + j] == b[j];
    }
  }

  lemma InOne(a: Entry, k: Key, x: int)
    ensures InData([a], k, x) <==> EntryHas(a, k, x)
  {
    assert [a][0] == a;
  }

  lemma InDataInserted(data: seq<Entry>, p: nat, e: Entry, k: Key, x: int)
    requires p <= |data|
    ensures InData(Inserted(data, p, e), k, x) <==> InData(data, k, x) || EntryHas(e, k, x)
  {
    InDataConcat(data[..p] + [e], data[p..], k, x);
    InDataConcat(data[..p], [e], k, x);
    InOne(e, k, x);
    InDataConcat(data[..p], data[p..], k, x);
    assert data == data[..p] + data[p..];
  }

  lemma RemoveEffect(data: seq<Entry>, ki: nat, key: Key)
    requires Sorted(data) && ki < |data| && forall k, x :: EntryHas(data[ki], k, x) ==> k == key
    requires data[ki].ikey == Slice(key) && data[ki].Class() == Class(key)
    ensures DataEffect(data, Without(data, ki), key, None) && Sorted(Without(data, ki))
  {
    var after := Without(data, ki);
    assert Inserted(after, ki, data[ki]) == data;
    forall i | 0 <= i < |after| ensures !(after[i].ikey == Slice(key) && after[i].Class() == Class(key)) {
      assert after[i] == data[if i < ki then i else i + 1];
    }
    forall k, x ensures InData(after, k, x) <==> if k == key then false else InData(data, k, x) {
      InDataInserted(after, ki, data[ki], k, x);
      if k == key && InData(after, k, x) {
        var i :| 0 <= i < |after| && EntryHas(after[i], k, x);
        HasSlice(after[i], k, x);
      }
    }
  }

  lemma MadeHas(key: Key, v: int, k: Key, x: int)
    ensures EntryHas(MakeEntry(key, v), k, x) <==> k == key && x == v
  {
    if EntryHas(MakeEntry(key, v), k, x) { SlicedInjective(k, key); }
  }

  /** A slot that holds a value holds it for one key only. */
  lemma ValIsMade(e: Entry, key: Key)
    requires e.Val? && EntryOk(e) && e.ikey == Slice(key) && e.len == Class(key) && (e.len == 9 ==> e.suffix == key[8..])
    ensures e == MakeEntry(key, e.value)
  {}

  /** Position `p` is where an entry with this slice and class belongs. */
  predicate Belongs(data: seq<Entry>, p: nat, ikey: nat, cls: nat) {
    && p <= |data|
    && (forall i :: 0 <= i < p ==> Before(data[i].ikey, data[i].Class(), ikey, cls))
    && (forall i :: p <= i < |data| ==> Before(ikey, cls, data[i].ikey, data[i].Class()))
  }

  lemma InsertOk(data: seq<Entry>, p: nat, e: Entry, lo: nat, hi: nat)
    requires DataOk(data) && Within(data, lo, hi) && EntryOk(e) && lo <= e.ikey < hi
    requires Belongs(data, p, e.ikey, e.Class())
    ensures DataOk(Inserted(data, p, e)) && Within(Inserted(data, p, e), lo, hi)
  {
    var c := Inserted(data, p, e);
    forall i | 0 <= i < |c| ensures EntryOk(c[i]) && lo <= c[i].ikey < hi {
      if i != p { assert EntryOk(data[if i < p then i else i - 1]); }
    }
    forall i, j | 0 <= i < j < |c| ensures Before(c[i].ikey, c[i].Class(), c[j].ikey, c[j].Class()) {
      var i', j' := if i < p then i else i - 1, if j < p then j else j - 1;
      if i != p && j != p { assert Before(data[i'].ikey, data[i'].Class(), data[j'].ikey, data[j'].Class()); }
    }
  }

  lemma InsertEffect(data: seq<Entry>, p: nat, key: Key, v: int)
    requires Belongs(data, p, Slice(key), Class(key))
    ensures DataEffect(data, Inserted(data, p, MakeEntry(key, v)), key, Some(v))
  {
    var e := MakeEntry(key, v);
    forall k, x ensures InData(Inserted(data, p, e), k, x) <==> if k == key then Some(v) == Some(x) else InData(data, k, x) {
      InDataInserted(data, p, e, k, x);
      MadeHas(key, v, k, x);
      if k == key { Nowhere(data, p, key, x); }
    }
  }

  // ----- the change of one leaf, seen from the root -----

  /** Replacing the leaf a key belongs to by leaves with the changed contents. */
  lemma LocalEffect(path: Path, leaf: Node, ls: seq<Node>, root: Node, key: Key, v: Option<int>)
    requires path.Ok() && leaf.Leaf? && WF(leaf, path.Lo(), path.Hi()) && path.Lo() <= Slice(key) < path.Hi()
    requires Leaves(root) == path.Left() + ls + path.Right()
    requires forall k, x :: HasIn(ls, k, x) <==> if k == key then v == Some(x) else InData(leaf.data, k, x)
    ensures Effect(path.Plug(leaf), root, key, v)
  {
    PlugLeaves(path, leaf);
    forall k, x ensures Has(root, k, x) <==> if k == key then v == Some(x) else Has(path.Plug(leaf), k, x) {
      HasAround(path, ls, root, k, x);
      HasAround(path, [leaf], path.Plug(leaf), k, x);
      HasInOne(leaf, k, x);
      if k == key { NotBeside(path, leaf, k, x); }
    }
  }

  lemma DeepAround(path: Path, leaf: Node, ls: seq<Node>, root: Node)
    requires path.Shape() && leaf.Leaf? && Deep(path.Plug(leaf)) && AllDeep(ls)
    requires Leaves(root) == path.Left() + ls + path.Right()
    ensures Deep(root)
  {
    LeafDeep(path, leaf);
    AllDeepConcat(path.Left() + ls, path.Right());
    AllDeepConcat(path.Left(), ls);
    DeepLeaves(root);
  }

  /** A leaf gets new contents that still fit. */
  method SetLeaf(path: Path, leaf: Node, data: seq<Entry>, ghost key: Key, ghost v: Option<int>) returns (root: Node)
    requires path.Ok() && leaf.Leaf? && WF(leaf, path.Lo(), path.Hi()) && path.Lo() <= Slice(key) < path.Hi()
    requires Deep(path.Plug(leaf)) && DataOk(data) && |data| <= WIDTH && Within(data, path.Lo(), path.Hi())
    requires DataEffect(leaf.data, data, key, v)
    ensures TrieOk(root) && Effect(path.Plug(leaf), root, key, v)
  {
    var l := Node.Leaf(leaf.bound, data);
    root := path.Plug(l);
    PlugWF(path, l);
    PlugLeaves(path, l);
    forall k, x ensures HasIn([l], k, x) <==> if k == key then v == Some(x) else InData(leaf.data, k, x) {
      HasInOne(l, k, x);
    }
    LocalEffect(path, leaf, [l], root, key, v);
    assert AllDeep([l]);
    DeepAround(path, leaf, [l], root);
  }

  function SlotOf(e: Entry): Leaf.Slot {
    Leaf.Slot(e.ikey, e.Class(), 0)
  }

  /** The split position `leaf_split` chooses, for a leaf whose slots are in key order. */
  method ChooseSplit(data: seq<Entry>, p: nat, e: Entry, hasPrev: bool, hasNext: bool) returns (mid: nat)
    requires WIDTH - 1 <= |data| <= WIDTH && p <= |data|
    requires Sorted(Inserted(data, p, e)) && Classed(Inserted(data, p, e))
    ensures 0 < mid <= |data| && Inserted(data, p, e)[mid - 1].ikey < Inserted(data, p, e)[mid].ikey
  {
    var slots := seq(WIDTH, i requires 0 <= i < WIDTH => if i < |data| then SlotOf(data[i]) else Leaf.Slot(0, 0, 0));
    var perm := Permuter.Perm.Sorted(|data|);
    Leaf.ViewSorted(|data|, slots);
    ghost var c := Inserted(Leaf.View(perm, slots), p, SlotOf(e));
    assert forall i :: 0 <= i < |c| ==> c[i] == SlotOf(Inserted(data, p, e)[i]);
    mid := Leaf.SplitPoint(perm, slots, p, SlotOf(e), hasPrev, hasNext);
  }

  /** Both halves of a split are well formed leaves. */
  lemma HalvesWF(c: seq<Entry>, mid: nat, lo: nat, hi: nat)
    requires Sorted(c) && Within(c, lo, hi) && 0 < mid < |c| <= WIDTH + 1 && c[mid - 1].ikey < c[mid].ikey
    ensures WF(Node.Leaf(lo, c[..mid]), lo, c[mid].ikey) && WF(Node.Leaf(c[mid].ikey, c[mid..]), c[mid].ikey, hi)
  {
    forall i | 0 <= i < mid ensures c[i].ikey <= c[mid - 1].ikey {
      if i < mid - 1 { assert Before(c[i].ikey, c[i].Class(), c[mid - 1].ikey, c[mid - 1].Class()); }
    }
    forall i | mid <= i < |c| ensures c[mid].ikey <= c[i].ikey {
      if mid < i { assert Before(c[mid].ikey, c[mid].Class(), c[i].ikey, c[i].Class()); }
    }
  }

  lemma HalvesDeep(c: seq<Entry>, mid: nat, lo: nat, x: nat)
    requires DataOk(c) && mid <= |c|
    ensures Deep(Node.Leaf(lo, c[..mid])) && Deep(Node.Leaf(x, c[mid..]))
  {
    forall i | 0 <= i < mid ensures EntryOk(c[..mid][i]) { assert EntryOk(c[i]); }
    forall i | 0 <= i < |c| - mid ensures EntryOk(c[mid..][i]) { assert EntryOk(c[mid + i]); }
  }

  lemma HalvesHas(c: seq<Entry>, mid: nat, l: Node, r: Node, k: Key, x: int)
    requires mid <= |c| && l.Leaf? && r.Leaf? && l.data == c[..mid] && r.data == c[mid..]
    ensures HasIn([l, r], k, x) <==> InData(c, k, x)
  {
    assert [l, r] == [l] + [r] && c == c[..mid] + c[mid..];
    HasInConcat([l], [r], k, x);
    HasInOne(l, k, x);
    HasInOne(r, k, x);
    InDataConcat(c[..mid], c[mid..], k, x);
  }

  lemma SplitEffect(path: Path, leaf: Node, c: seq<Entry>, mid: nat, l: Node, r: Node, root: Node, key: Key, v: int)
    requires path.Ok() && leaf.Leaf? && WF(leaf, path.Lo(), path.Hi()) && path.Lo() <= Slice(key) < path.Hi()
    requires Deep(path.Plug(leaf)) && DataEffect(leaf.data, c, key, Some(v)) && mid <= |c|
    requires l.Leaf? && r.Leaf? && l.data == c[..mid] && r.data == c[mid..] && Deep(l) && Deep(r)
    requires Leaves(root) == path.Left() + [l, r] + path.Right()
    ensures Deep(root) && Effect(path.Plug(leaf), root, key, Some(v))
  {
    forall k, x ensures HasIn([l, r], k, x) <==> if k == key then Some(v) == Some(x) else InData(leaf.data, k, x) {
      HalvesHas(c, mid, l, r, k, x);
    }
    LocalEffect(path, leaf, [l, r], root, key, Some(v));
    DeepAround(path, leaf, [l, r], root);
  }

  /** `leaf_split` on the leaf's entries with the new one. */
  method CutLeaf(leaf: Node, p: nat, e: Entry, hasNext: bool, ghost hi: nat)
    returns (l: Node, x: nat, r: Node, splitType: nat, ghost mid: nat)
    requires leaf.Leaf? && WIDTH - 1 <= |leaf.data| <= WIDTH && p <= |leaf.data|
    requires DataOk(Inserted(leaf.data, p, e)) && Within(Inserted(leaf.data, p, e), leaf.bound, hi)
    ensures l.Leaf? && r.Leaf? && WF(l, leaf.bound, x) && WF(r, x, hi) && Deep(l) && Deep(r)
    ensures mid <= |leaf.data| && l.data == Inserted(leaf.data, p, e)[..mid] && r.data == Inserted(leaf.data, p, e)[mid..]
  {
    DataClassed(Inserted(leaf.data, p, e));
    var cut := ChooseSplit(leaf.data, p, e, leaf.bound > 0, hasNext);
    var c := Inserted(leaf.data, p, e);
    HalvesWF(c, cut, leaf.bound, hi);
    HalvesDeep(c, cut, leaf.bound, c[cut].ikey);
    l, x, r := Node.Leaf(leaf.bound, c[..cut]), c[cut].ikey, Node.Leaf(c[cut].ikey, c[cut..]);
    splitType := if p < cut then 0 else if cut == |leaf.data| then 2 else 1;
    mid := cut;
  }

  /** A full leaf and a new key: two leaves, and a new separator further up. */
  method SplitLeaf(path: Path, leaf: Node, p: nat, e: Entry, ghost key: Key, ghost v: int) returns (root: Node)
    requires path.Ok() && leaf.Leaf? && WF(leaf, path.Lo(), path.Hi()) && path.Lo() <= Slice(key) < path.Hi()
    requires Deep(path.Plug(leaf)) && p <= |leaf.data| && |leaf.data| >= WIDTH - 1 && e.ikey == Slice(key)
    requires DataOk(Inserted(leaf.data, p, e)) && Within(Inserted(leaf.data, p, e), path.Lo(), path.Hi())
    requires DataEffect(leaf.data, Inserted(leaf.data, p, e), key, Some(v))
    ensures TrieOk(root) && Effect(path.Plug(leaf), root, key, Some(v))
  {
    var l, x, r, splitType;
    ghost var mid;
    l, x, r, splitType, mid := CutLeaf(leaf, p, e, path.Right() != [], path.Hi());
    root := FinishSplit(path, l, x, r, splitType);
    assert Leaves(l) + Leaves(r) == [l, r];
    SplitEffect(path, leaf, Inserted(leaf.data, p, e), mid, l, r, root, key, v);
  }

  /** Insertion of a key that has no slot yet.  A leaf with one free slot splits or not, depending on
      whether that slot is the reserved slot 0. */
  method InsertKey(path: Path, leaf: Node, p: nat, key: Key, v: int) returns (root: Node)
    requires path.Ok() && leaf.Leaf? && WF(leaf, path.Lo(), path.Hi()) && path.Lo() <= Slice(key) < path.Hi()
    requires Deep(path.Plug(leaf)) && Belongs(leaf.data, p, Slice(key), Class(key))
    ensures TrieOk(root) && Effect(path.Plug(leaf), root, key, Some(v))
  {
    LeafDeep(path, leaf);
    InsertEffect(leaf.data, p, key, v);
    var e := MakeEntry(key, v);
    InsertOk(leaf.data, p, e, path.Lo(), path.Hi());
    var reserved: bool := *;
    if |leaf.data| == WIDTH || (|leaf.data| == WIDTH - 1 && reserved) {
      root := SplitLeaf(path, leaf, p, e, key, v);
    } else {
      root := SetLeaf(path, leaf, Inserted(leaf.data, p, e), key, Some(v));
    }
  }

  // ----- insertion -----

  lemma SubEffect(e: Entry, layer: Node, key: Key, v: Option<int>)
    requires e.Sub? && |key| > 8 && Slice(key) == e.ikey && Effect(e.layer, layer, key[8..], v)
    ensures EntryEffect(e, Sub(e.ikey, layer), key, v)
  {
    forall k, x ensures EntryHas(Sub(e.ikey, layer), k, x) <==> if k == key then v == Some(x) else EntryHas(e, k, x) {
      if |k| > 8 && Slice(k) == e.ikey {
        if k[8..] == key[8..] { SlicedInjective(k, key); }
      }
    }
  }

  /** A slot with another suffix becomes a layer that holds that suffix and the new key's. */
  lemma NewLayerEffect(e: Entry, layer: Node, key: Key, v: int)
    requires e.Val? && e.len == 9 == Class(key) && Slice(key) == e.ikey && e.suffix != key[8..]
    requires forall s, y :: Has(layer, s, y) <==> (s == key[8..] && y == v) || (s == e.suffix && y == e.value)
    ensures EntryEffect(e, Sub(e.ikey, layer), key, Some(v))
  {
    forall k, x ensures EntryHas(Sub(e.ikey, layer), k, x) <==> if k == key then Some(v) == Some(x) else EntryHas(e, k, x) {
      if |k| > 8 && Slice(k) == e.ikey {
        if k[8..] == key[8..] { SlicedInjective(k, key); }
      }
    }
  }

  lemma UpdateEffect(e: Entry, key: Key, v: int)
    requires e.Val? && EntryOk(e) && e.ikey == Slice(key) && e.len == Class(key) && (e.len == 9 ==> e.suffix == key[8..])
    ensures EntryEffect(e, Val(e.ikey, e.len, e.suffix, v), key, Some(v))
  {
    ValIsMade(e, key);
    var r := MakeEntry(key, v);
    forall k, x ensures EntryHas(r, k, x) <==> if k == key then Some(v) == Some(x) else EntryHas(e, k, x) {
      MadeHas(key, v, k, x);
      MadeHas(key, e.value, k, x);
    }
  }

  lemma OneLeaf(data: seq<Entry>)
    requires DataOk(data) && Within(data, 0, SLICES) && |data| <= WIDTH
    ensures TrieOk(Node.Leaf(0, data))
    ensures forall k, x :: Has(Node.Leaf(0, data), k, x) <==> InData(data, k, x)
  {
    var l := Node.Leaf(0, data);
    forall k, x ensures Has(l, k, x) <==> InData(data, k, x) { HasInOne(l, k, x); }
  }

  /** `check_leaf_insert` repeated layer by layer, and `finish_insert`. */
  method Put(root: Node, key: Key, v: int) returns (after: Node)
    requires TrieOk(root)
    ensures TrieOk(after) && Effect(root, after, key, Some(v))
    decreases |key|, 1
  {
    SliceBound(key);
    var path, leaf := ReachLeaf(root, Slice(key));
    LeafDeep(path, leaf);
    DataClassed(leaf.data);
    var ki, found := LowerWithPosition(leaf.data, Slice(key), |key|);
    if !found {
      after := InsertKey(path, leaf, ki, key, v);
    } else {
      var e := PutEntry(leaf.data[ki], key, v);
      ReplaceEffect(leaf.data, ki, e, key, Some(v));
      after := SetLeaf(path, leaf, leaf.data[ki := e], key, Some(v));
    }
  }

  /** The slot for the key's slice and class is there: it has the key's value, or becomes a layer, or is
      one. */
  method PutEntry(e: Entry, key: Key, v: int) returns (r: Entry)
    requires EntryOk(e) && e.ikey == Slice(key) && e.Class() == Class(key)
    ensures EntryOk(r) && r.ikey == e.ikey && r.Class() == e.Class() && EntryEffect(e, r, key, Some(v))
    decreases |key|, 0
  {
    SliceBound(key);
    match e {
      case Sub(ikey, layer) =>
        var below := Put(layer, key[8..], v);
        SubEffect(e, below, key, Some(v));
        r := Sub(ikey, below);
      case Val(ikey, len, suffix, value) =>
        if len < 9 || suffix == key[8..] {
          UpdateEffect(e, key, v);
          r := Val(ikey, len, suffix, v);
        } else {
          var layer := NewLayer(suffix, value, key[8..], v);
          NewLayerEffect(e, layer, key, v);
          r := Sub(ikey, layer);
        }
    }
  }

  /** The new layer for two keys that agree up to here: a leaf with both if their slices or classes
      differ, else with the old one only, into which the new one is then put. */
  method NewLayer(oka: Key, ovalue: int, ka: Key, v: int) returns (layer: Node)
    requires oka != ka
    ensures TrieOk(layer)
    ensures forall k, x :: Has(layer, k, x) <==> (k == ka && x == v) || (k == oka && x == ovalue)
    decreases |ka|, 2
  {
    var o, n := MakeEntry(oka, ovalue), MakeEntry(ka, v);
    CompareIs(Slice(oka), |oka|, n);
    var kc := Compare(Slice(oka), |oka|, n);
    if kc == 0 {
      SingleLayer(oka, ovalue);
      layer := Put(Node.Leaf(0, [o]), ka, v);
    } else if kc < 0 {
      PairLayer(oka, ovalue, ka, v);
      layer := Node.Leaf(0, [o, n]);
    } else {
      PairLayer(ka, v, oka, ovalue);
      layer := Node.Leaf(0, [n, o]);
    }
  }

  lemma SingleLayer(key: Key, v: int)
    ensures TrieOk(Node.Leaf(0, [MakeEntry(key, v)]))
    ensures forall k, x :: Has(Node.Leaf(0, [MakeEntry(key, v)]), k, x) <==> k == key && x == v
  {
    var e := MakeEntry(key, v);
    SliceBound(key);
    OneLeaf([e]);
    forall k, x ensures InData([e], k, x) <==> k == key && x == v { InOne(e, k, x); MadeHas(key, v, k, x); }
  }

  lemma PairLayer(a: Key, v: int, b: Key, w: int)
    requires Before(Slice(a), Class(a), Slice(b), Class(b))
    ensures TrieOk(Node.Leaf(0, [MakeEntry(a, v), MakeEntry(b, w)]))
    ensures forall k, x :: Has(Node.Leaf(0, [MakeEntry(a, v), MakeEntry(b, w)]), k, x)
                      <==> (k == a && x == v) || (k == b && x == w)
  {
    var d, e := MakeEntry(a, v), MakeEntry(b, w);
    SliceBound(a);
    SliceBound(b);
    PairOk(d, e);
    OneLeaf([d, e]);
    forall k, x ensures InData([d, e], k, x) <==> (k == a && x == v) || (k == b && x == w) {
      InDataInserted([d], 1, e, k, x);
      InOne(d, k, x);
      assert Inserted([d], 1, e) == [d, e];
      MadeHas(a, v, k, x);
      MadeHas(b, w, k, x);
    }
  }

  lemma PairOk(d: Entry, e: Entry)
    requires EntryOk(d) && EntryOk(e) && Before(d.ikey, d.Class(), e.ikey, e.Class())
    requires d.ikey < SLICES && e.ikey < SLICES
    ensures DataOk([d, e]) && Within([d, e], 0, SLICES)
  {}

  // ----- removal -----

  /** `finish_remove` in the leaf: an emptied leaf with a predecessor is taken out of the tree. */
  method RemoveAt(path: Path, leaf: Node, ki: nat, ghost key: Key) returns (root: Node)
    requires path.Ok() && leaf.Leaf? && WF(leaf, path.Lo(), path.Hi()) && path.Lo() <= Slice(key) < path.Hi()
    requires Deep(path.Plug(leaf)) && ki < |leaf.data|
    requires leaf.data[ki].ikey == Slice(key) && leaf.data[ki].Class() == Class(key)
    requires forall k, x :: EntryHas(leaf.data[ki], k, x) ==> k == key
    ensures TrieOk(root) && Effect(path.Plug(leaf), root, key, None)
  {
    LeafDeep(path, leaf);
    RemoveEffect(leaf.data, ki, key);
    var data := Without(leaf.data, ki);
    if |data| == 0 && leaf.bound > 0 {
      root := RemoveLeaf(path, leaf);
      assert path.Left() + [] == path.Left();
      forall k, x ensures HasIn([], k, x) <==> if k == key then None == Some(x) else InData(leaf.data, k, x) {
        assert !InData(data, k, x);
      }
      LocalEffect(path, leaf, [], root, key, None);
      DeepAround(path, leaf, [], root);
    } else {
      root := SetLeaf(path, leaf, data, key, None);
    }
  }

  /** Some value is stored for the key. */
  ghost predicate Stored(root: Node, key: Key) {
    exists v :: Has(root, key, v)
  }

  /** `find_locked` layer by layer, and `finish_remove`. */
  method Remove(root: Node, key: Key) returns (after: Node, removed: bool)
    requires TrieOk(root)
    ensures TrieOk(after) && Effect(root, after, key, None)
    ensures removed <==> Stored(root, key)
    ensures !removed ==> after == root
    decreases |key|, 1
  {
    SliceBound(key);
    var path, leaf := ReachLeaf(root, Slice(key));
    LeafDeep(path, leaf);
    DataClassed(leaf.data);
    forall v ensures Has(root, key, v) <==> InData(leaf.data, key, v) { HasInLeaf(path, leaf, key, v); }
    var ki, found := LowerWithPosition(leaf.data, Slice(key), |key|);
    if !found {
      forall v ensures !InData(leaf.data, key, v) { Nowhere(leaf.data, ki, key, v); }
      return root, false;
    }
    forall v ensures InData(leaf.data, key, v) <==> EntryHas(leaf.data[ki], key, v) { OnlyHere(leaf.data, ki, key, v); }
    after, removed := RemoveFound(path, leaf, ki, key);
  }

  /** The slot for the key's slice and class is there. */
  method RemoveFound(path: Path, leaf: Node, ki: nat, key: Key) returns (after: Node, removed: bool)
    requires path.Ok() && leaf.Leaf? && WF(leaf, path.Lo(), path.Hi()) && path.Lo() <= Slice(key) < path.Hi()
    requires Deep(path.Plug(leaf)) && ki < |leaf.data| && EntryOk(leaf.data[ki])
    requires leaf.data[ki].ikey == Slice(key) && leaf.data[ki].Class() == Class(key)
    requires forall v :: Has(path.Plug(leaf), key, v) <==> EntryHas(leaf.data[ki], key, v)
    ensures TrieOk(after) && Effect(path.Plug(leaf), after, key, None)
    ensures removed <==> Stored(path.Plug(leaf), key)
    ensures !removed ==> after == path.Plug(leaf)
    decreases |key|, 0
  {
    PlugWF(path, leaf);
    LeafDeep(path, leaf);
    var e := leaf.data[ki];
    match e {
      case Sub(ikey, layer) =>
        assert forall v :: EntryHas(e, key, v) <==> Has(layer, key[8..], v);
        var below;
        below, removed := Remove(layer, key[8..]);
        if !removed {
          assert forall v :: !Has(layer, key[8..], v);
          return path.Plug(leaf), false;
        }
        assert Stored(layer, key[8..]);
        ghost var v :| Has(layer, key[8..], v);
        assert Has(path.Plug(leaf), key, v);
        SubEffect(e, below, key, None);
        ReplaceEffect(leaf.data, ki, Sub(ikey, below), key, None);
        after := SetLeaf(path, leaf, leaf.data[ki := Sub(ikey, below)], key, None);
      case Val(_, len, suffix, value) =>
        if len == 9 && suffix != key[8..] { return path.Plug(leaf), false; }
        ValIsMade(e, key);
        forall k, x ensures EntryHas(e, k, x) ==> k == key { MadeHas(key, value, k, x); }
        assert EntryHas(e, key, value);
        assert Has(path.Plug(leaf), key, value);
        after := RemoveAt(path, leaf, ki, key);
        removed := true;
    }
  }

  // ----- runs -----

  datatype Op = DoGet(key: Key) | DoPut(key: Key, value: int) | DoRemove(key: Key)
  datatype Answer = Found(value: Option<int>) | Accepted | Removed(was: bool)

  /** What a plain map answers to one operation, and what it becomes. */
  function PlainAnswer(op: Op, m: map<Key, int>): Answer {
    match op
    case DoGet(k) => Found(if k in m then Some(m[k]) else None)
    case DoPut(_, _) => Accepted
    case DoRemove(k) => Removed(k in m)
  }

  function PlainStep(op: Op, m: map<Key, int>): map<Key, int> {
    match op
    case DoGet(_) => m
    case DoPut(k, v) => m[k := v]
    case DoRemove(k) => m - {k}
  }

  function PlainRun(ops: seq<Op>, m: map<Key, int>): seq<Answer> {
    if ops == [] then [] else [PlainAnswer(ops[0], m)] + PlainRun(ops[1..], PlainStep(ops[0], m))
  }

  class Table {
    var root: Node
    ghost var model: map<Key, int>

    ghost predicate Valid()
      reads this
    {
      TrieOk(root) && forall k, v :: Has(root, k, v) <==> k in model && model[k] == v
    }

    constructor ()
      ensures Valid() && model == map[]
    {
      root, model := Node.Leaf(0, []), map[];
      OneLeaf([]);
    }

    method Do(op: Op) returns (a: Answer)
      requires Valid()
      modifies this
      ensures Valid() && a == PlainAnswer(op, old(model)) && model == PlainStep(op, old(model))
    {
      model := PlainStep(op, model);
      match op {
        case DoGet(k) =>
          var r := Get(root, k);
          assert k in model ==> Has(root, k, model[k]);
          assert r.Some? ==> Has(root, k, r.value);
          a := Found(r);
        case DoPut(k, v) =>
          root := Put(root, k, v);
          a := Accepted;
        case DoRemove(k) =>
          assert Stored(root, k) <==> k in old(model) by {
            if k in old(model) { assert Has(root, k, old(model)[k]); }
          }
          var was;
          root, was := Remove(root, k);
          a := Removed(was);
      }
    }
  }

  /** Every run from an empty table answers as a plain map would. */
  method Run(ops: seq<Op>) returns (answers: seq<Answer>)
    ensures answers == PlainRun(ops, map[])
  {
    var t := new Table();
    answers := [];
    for i := 0 to |ops|
      invariant t.Valid()
      invariant PlainRun(ops, map[]) == answers + PlainRun(ops[i..], t.model)
    {
      var a := t.Do(ops[i]);
      assert ops[i..][1..] == ops[i + 1..];
      answers := answers + [a];
    }
    assert ops[|ops|..] == [];
  }
}
