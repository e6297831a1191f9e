/**
  Forward scans (masstree/masstree_scan.hh), run by one thread: a stack with one element per layer and a
  key buffer that holds the current key.
*/
module Scan {
  import opened Common
  import opened Tree
  import opened Slices
  import opened Layers

  datatype Item = Item(key: Key, value: int)

  // ----- everything a tree stores, in its own order -----

  function EntryItems(prefix: Key, e: Entry): seq<Item>
    decreases e
  {
    match e
    case Val(_, _, _, value) => [Item(prefix + OwnKey(e), value)]
    case Sub(ikey, layer) => TreeItems(prefix + SliceBytes(ikey), layer)
  }

  function DataItems(prefix: Key, data: seq<Entry>): seq<Item>
    decreases data
  {
    if data == [] then [] else EntryItems(prefix, data[0]) + DataItems(prefix, data[1..])
  }

  function TreeItems(prefix: Key, n: Node): seq<Item>
    decreases n
  {
    match n
    case Null => []
    case Leaf(_, data) => DataItems(prefix, data)
    case Inode(_, kids) => KidItems(prefix, kids)
  }

  function KidItems(prefix: Key, kids: seq<Node>): seq<Item>
    decreases kids
  {
    if kids == [] then [] else TreeItems(prefix, kids[0]) + KidItems(prefix, kids[1..])
  }

  /** The entries of a list of leaves. */
  function Flat(ls: seq<Node>): seq<Entry> {
    if ls == [] then [] else (if ls[0].Leaf? then ls[0].data else []) + Flat(ls[1..])
  }

  lemma {:induction false} DataItemsConcat(prefix: Key, a: seq<Entry>, b: seq<Entry>)
    ensures DataItems(prefix, a + b) == DataItems(prefix, a) + DataItems(prefix, b)
  {
    if a == [] {
      assert a + b == b;
    } else {
      assert (a + b)[1..] == a[1..] + b;
      DataItemsConcat(prefix, a[1..], b);
    }
  }

  lemma {:induction false} FlatConcat(a: seq<Node>, b: seq<Node>)
    ensures Flat(a + b) == Flat(a) + Flat(b)
  {
    if a == [] {
      assert a + b == b;
    } else {
      assert (a + b)[1..] == a[1..] + b;
      FlatConcat(a[1..], b);
    }
  }

  /** A layer's items are those of its leaf list. */
  lemma {:induction false} TreeItemsFlat(prefix: Key, n: Node)
    ensures TreeItems(prefix, n) == DataItems(prefix, Flat(Leaves(n)))
    decreases n
  {
    match n
    case Null =>
    case Leaf(_, data) =>
      assert [n][1..] == [] && Flat([n]) == data + Flat([]) == data;
    case Inode(_, kids) => KidItemsFlat(prefix, kids);
  }

  lemma {:induction false} KidItemsFlat(prefix: Key, kids: seq<Node>)
    ensures KidItems(prefix, kids) == DataItems(prefix, Flat(KidLeaves(kids)))
    decreases kids
  {
    if kids != [] {
      TreeItemsFlat(prefix, kids[0]);
      KidItemsFlat(prefix, kids[1..]);
      FlatConcat(Leaves(kids[0]), KidLeaves(kids[1..]));
      DataItemsConcat(prefix, Flat(Leaves(kids[0])), Flat(KidLeaves(kids[1..])));
    }
  }

  // ----- a layer's entries are sorted -----

  lemma {:induction false} FlatWithin(ls: seq<Node>, lo: nat, hi: nat)
    requires Covers(ls, lo, hi)
    ensures Sorted(Flat(ls)) && Within(Flat(ls), lo, hi)
    decreases |ls|
  {
    var d := ls[0].data;
    assert LeafOk(ls, hi, 0);
    if |ls| > 1 {
      CoversTail(ls, lo, hi);
      FlatWithin(ls[1..], ls[1].bound, hi);
      BoundsAscend(ls, lo, hi, 0, 1);
      SortedConcat(d, Flat(ls[1..]), lo, ls[1].bound, hi);
    } else {
      assert ls[1..] == [] && d + [] == d;
    }
  }

  lemma SortedConcat(a: seq<Entry>, b: seq<Entry>, lo: nat, mid: nat, hi: nat)
    requires Sorted(a) && Within(a, lo, mid) && Sorted(b) && Within(b, mid, hi) && lo <= mid < hi
    ensures Sorted(a + b) && Within(a + b, lo, hi)
  {
    var c := a + b;
    forall i, j | 0 <= i < j < |c| ensures Before(c[i].ikey, c[i].Class(), c[j].ikey, c[j].Class()) {
      if j < |a| {
        assert Before(a[i].ikey, a[i].Class(), a[j].ikey, a[j].Class());
      } else if i >= |a| {
        assert Before(b[i - |a|].ikey, b[i - |a|].Class(), b[j - |a|].ikey, b[j - |a|].Class());
      } else {
        assert c[i] == a[i] && c[j] == b[j - |a|];
      }
    }
  }

  lemma {:induction false} FlatDeep(ls: seq<Node>)
    requires AllDeep(ls)
    ensures forall i :: 0 <= i < |Flat(ls)| ==> EntryOk(Flat(ls)[i])
  {
    if ls != [] {
      assert Deep(ls[0]);
      forall i | 0 <= i < |ls[1..]| ensures Deep(ls[1..][i]) { assert Deep(ls[i + 1]); }
      FlatDeep(ls[1..]);
    }
  }

  /** The entries of a well-formed layer. */
  function Entries(n: Node): seq<Entry> {
    Flat(Leaves(n))
  }

  lemma EntriesOk(n: Node)
    requires TrieOk(n)
    ensures DataOk(Entries(n)) && Within(Entries(n), 0, SLICES)
  {
    LeavesCover(n, 0, SLICES);
    FlatWithin(Leaves(n), 0, SLICES);
    DeepLeaves(n);
    FlatDeep(Leaves(n));
  }

  // ----- how much there is to do below an entry -----

  function Work(e: Entry): (w: nat)
    ensures w > 1
    decreases e
  {
    if e.Val? then 2 else 3 + TreeWork(e.layer)
  }

  function DataWork(data: seq<Entry>): nat
    decreases data
  {
    if data == [] then 0 else Work(data[0]) + DataWork(data[1..])
  }

  function TreeWork(n: Node): nat
    decreases n
  {
    match n
    case Null => 0
    case Leaf(_, data) => DataWork(data)
    case Inode(_, kids) => KidWork(kids)
  }

  function KidWork(kids: seq<Node>): nat
    decreases kids
  {
    if kids == [] then 0 else TreeWork(kids[0]) + KidWork(kids[1..])
  }

  lemma {:induction false} DataWorkConcat(a: seq<Entry>, b: seq<Entry>)
    ensures DataWork(a + b) == DataWork(a) + DataWork(b)
  {
    if a == [] {
      assert a + b == b;
    } else {
      assert (a + b)[1..] == a[1..] + b;
      DataWorkConcat(a[1..], b);
    }
  }

  lemma {:induction false} TreeWorkFlat(n: Node)
    ensures TreeWork(n) == DataWork(Entries(n))
    decreases n
  {
    match n
    case Null =>
    case Leaf(_, data) =>
      assert [n][1..] == [] && Flat([n]) == data + Flat([]) == data;
    case Inode(_, kids) => KidWorkFlat(kids);
  }

  lemma {:induction false} KidWorkFlat(kids: seq<Node>)
    ensures KidWork(kids) == DataWork(Flat(KidLeaves(kids)))
    decreases kids
  {
    if kids != [] {
      TreeWorkFlat(kids[0]);
      KidWorkFlat(kids[1..]);
      FlatConcat(Leaves(kids[0]), KidLeaves(kids[1..]));
      DataWorkConcat(Flat(Leaves(kids[0])), Flat(KidLeaves(kids[1..])));
    }
  }

  // ----- items are what the tree has -----

  lemma {:induction false} HasFlat(ls: seq<Node>, k: Key, v: int)
    ensures HasIn(ls, k, v) <==> InData(Flat(ls), k, v)
  {
    if ls != [] {
      assert ls == [ls[0]] + ls[1..];
      HasInConcat([ls[0]], ls[1..], k, v);
      HasFlat(ls[1..], k, v);
      InDataConcat(if ls[0].Leaf? then ls[0].data else [], Flat(ls[1..]), k, v);
      if ls[0].Leaf? { HasInOne(ls[0], k, v); }
    }
  }

  ghost predicate AllOk(data: seq<Entry>) {
    forall i {:trigger EntryOk(data[i])} :: 0 <= i < |data| ==> EntryOk(data[i])
  }

  lemma JoinedSlice(ikey: nat, r: Key)
    requires ikey < SLICES
    ensures Slice(SliceBytes(ikey) + r) == ikey && (SliceBytes(ikey) + r)[8..] == r
  {
    SlicePacked(ikey);
    PackPrefix(SliceBytes(ikey), r, 8);
  }

  lemma OwnHas(e: Entry)
    requires e.Val? && EntryOk(e)
    ensures EntryHas(e, OwnKey(e), e.value)
  {
    MadeHas(OwnKey(e), e.value, OwnKey(e), e.value);
  }

  lemma SubHas(e: Entry, t: Key, v: int)
    requires e.Sub? && EntryOk(e) && InData(Entries(e.layer), t, v)
    ensures EntryHas(e, SliceBytes(e.ikey) + t, v)
  {
    HasFlat(Leaves(e.layer), t, v);
    assert Has(e.layer, t, v) && !Has(e.layer, [], v);
    JoinedSlice(e.ikey, t);
  }

  lemma SubKey(prefix: Key, e: Entry, r: Key)
    requires |r| > 8 && e.ikey == Slice(r)
    ensures prefix + SliceBytes(e.ikey) + r[8..] == prefix + r
  {
    SliceGivesBack(r);
    assert r == r[..8] + r[8..];
  }

  lemma LayerItems(prefix: Key, e: Entry)
    requires e.Sub? && EntryOk(e)
    ensures DataOk(Entries(e.layer)) && Within(Entries(e.layer), 0, SLICES)
    ensures EntryItems(prefix, e) == DataItems(prefix + SliceBytes(e.ikey), Entries(e.layer))
    ensures DataWork(Entries(e.layer)) + 1 < Work(e)
  {
    EntriesOk(e.layer);
    TreeItemsFlat(prefix + SliceBytes(e.ikey), e.layer);
    TreeWorkFlat(e.layer);
  }

  /** Every item of an entry is there for the key it names. */
  lemma {:induction false} EntrySound(prefix: Key, e: Entry, x: Item) returns (r: Key)
    requires EntryOk(e) && x in EntryItems(prefix, e)
    ensures x.key == prefix + r && EntryHas(e, r, x.value)
    decreases Work(e), 1
  {
    if e.Val? {
      r := OwnKey(e);
      OwnHas(e);
    } else {
      r := LayerSound(prefix, e, x);
    }
  }

  lemma {:induction false} LayerSound(prefix: Key, e: Entry, x: Item) returns (r: Key)
    requires e.Sub? && EntryOk(e) && x in EntryItems(prefix, e)
    ensures x.key == prefix + r && EntryHas(e, r, x.value)
    decreases Work(e), 0
  {
    var below := prefix + SliceBytes(e.ikey);
    LayerItems(prefix, e);
    var t := DataSound(below, Entries(e.layer), x);
    SubHas(e, t, x.value);
    r := SliceBytes(e.ikey) + t;
    Joined(prefix, SliceBytes(e.ikey), t);
  }

  lemma {:induction false} DataSound(prefix: Key, data: seq<Entry>, x: Item) returns (r: Key)
    requires AllOk(data) && x in DataItems(prefix, data)
    ensures x.key == prefix + r && InData(data, r, x.value)
    decreases DataWork(data), 2
  {
    if x in EntryItems(prefix, data[0]) {
      r := EntrySound(prefix, data[0], x);
    } else {
      r := DataSound(prefix, data[1..], x);
      assert data == [data[0]] + data[1..];
      InDataConcat([data[0]], data[1..], r, x.value);
    }
  }

  /** Every key the tree has is among its items. */
  lemma {:induction false} EntryComplete(prefix: Key, e: Entry, r: Key, v: int)
    requires EntryOk(e) && EntryHas(e, r, v)
    ensures Item(prefix + r, v) in EntryItems(prefix, e)
    decreases |r|, 0
  {
    match e
    case Val(_, _, _, value) =>
      MadeHas(OwnKey(e), value, r, v);
    case Sub(ikey, layer) =>
      LayerItems(prefix, e);
      HasFlat(Leaves(layer), r[8..], v);
      DataComplete(prefix + SliceBytes(ikey), Entries(layer), r[8..], v);
      SubKey(prefix, e, r);
  }

  lemma {:induction false} DataComplete(prefix: Key, data: seq<Entry>, r: Key, v: int)
    requires AllOk(data) && InData(data, r, v)
    ensures Item(prefix + r, v) in DataItems(prefix, data)
    decreases |r|, 1
  {
    var i :| 0 <= i < |data| && EntryHas(data[i], r, v);
    EntryComplete(prefix, data[i], r, v);
    assert data == data[..i] + ([data[i]] + data[i + 1..]);
    DataItemsConcat(prefix, data[..i], [data[i]] + data[i + 1..]);
  }

  // ----- items are in byte order -----

  ghost predicate InByteOrder(xs: seq<Item>) {
    forall i, j :: 0 <= i < j < |xs| ==> Lex(xs[i].key, xs[j].key)
  }

  /** Items of an entry before `(ikey, class of r)` have smaller keys, and after it greater ones. */
  lemma EntryBefore(prefix: Key, e: Entry, x: Item, r: Key)
    requires EntryOk(e) && x in EntryItems(prefix, e)
    ensures Before(e.ikey, e.Class(), Slice(r), Class(r)) ==> Lex(x.key, prefix + r)
    ensures Before(Slice(r), Class(r), e.ikey, e.Class()) ==> Lex(prefix + r, x.key)
  {
    var t := EntrySound(prefix, e, x);
    HasSlice(e, t, x.value);
    SlicedOrder(t, r);
    SlicedOrder(r, t);
    LexPrefix(prefix, t, r);
    LexPrefix(prefix, r, t);
  }

  lemma DataBefore(prefix: Key, data: seq<Entry>, x: Item, r: Key)
    requires AllOk(data) && x in DataItems(prefix, data)
    ensures (forall i :: 0 <= i < |data| ==> Before(data[i].ikey, data[i].Class(), Slice(r), Class(r))) ==> Lex(x.key, prefix + r)
    ensures (forall i :: 0 <= i < |data| ==> Before(Slice(r), Class(r), data[i].ikey, data[i].Class())) ==> Lex(prefix + r, x.key)
  {
    var e := DataItemOf(prefix, data, x);
    EntryBefore(prefix, e, x, r);
  }

  lemma {:induction false} DataItemOf(prefix: Key, data: seq<Entry>, x: Item) returns (e: Entry)
    requires x in DataItems(prefix, data)
    ensures e in data && x in EntryItems(prefix, e)
  {
    if x in EntryItems(prefix, data[0]) { e := data[0]; } else { e := DataItemOf(prefix, data[1..], x); }
  }

  lemma ByteOrderConcat(a: seq<Item>, b: seq<Item>)
    requires InByteOrder(a) && InByteOrder(b) && forall x, y :: x in a && y in b ==> Lex(x.key, y.key)
    ensures InByteOrder(a + b)
  {
    var c := a + b;
    forall i, j | 0 <= i < j < |c| ensures Lex(c[i].key, c[j].key) {
      if i < |a| && j >= |a| { assert c[i] in a && c[j] in b; }
    }
  }

  lemma {:induction false} EntryOrder(prefix: Key, e: Entry)
    requires EntryOk(e)
    ensures InByteOrder(EntryItems(prefix, e))
    decreases Work(e), 0
  {
    if e.Sub? {
      LayerItems(prefix, e);
      DataOrder(prefix + SliceBytes(e.ikey), Entries(e.layer));
    }
  }

  lemma {:induction false} DataOrder(prefix: Key, data: seq<Entry>)
    requires DataOk(data)
    ensures InByteOrder(DataItems(prefix, data))
    decreases DataWork(data), 2
  {
    if data != [] {
      EntryOrder(prefix, data[0]);
      DataOrder(prefix, data[1..]);
      forall x, y | x in EntryItems(prefix, data[0]) && y in DataItems(prefix, data[1..]) ensures Lex(x.key, y.key) {
        var t := DataSound(prefix, data[1..], y);
        var i :| 0 <= i < |data[1..]| && EntryHas(data[1..][i], t, y.value);
        HasSlice(data[1..][i], t, y.value);
        assert Before(data[0].ikey, data[0].Class(), data[i + 1].ikey, data[i + 1].Class());
        EntryBefore(prefix, data[0], x, t);
      }
      ByteOrderConcat(EntryItems(prefix, data[0]), DataItems(prefix, data[1..]));
    }
  }

  /** The tree's items are exactly what it has, in strictly ascending byte order. */
  lemma ItemsAreContents(n: Node)
    requires TrieOk(n)
    ensures InByteOrder(TreeItems([], n))
    ensures forall k, v :: Item(k, v) in TreeItems([], n) <==> Has(n, k, v)
  {
    EntriesOk(n);
    TreeItemsFlat([], n);
    DataOrder([], Entries(n));
    forall k, v ensures Item(k, v) in TreeItems([], n) <==> Has(n, k, v) {
      HasFlat(Leaves(n), k, v);
      assert [] + k == k;
      if Item(k, v) in TreeItems([], n) {
        var r := DataSound([], Entries(n), Item(k, v));
        assert [] + r == r;
      }
      if Has(n, k, v) { DataComplete([], Entries(n), k, v); }
    }
  }

  // ----- the scan's state -----

  /** A stack element: the layer, the number of the current leaf in its leaf list, and the position. */
  datatype Elt = Elt(root: Node, j: nat, ki: nat)
  {
    predicate Ok() {
      j < |Leaves(root)| && ki <= |Leaves(root)[j].data|
    }

    function Data(): seq<Entry>
      requires j < |Leaves(root)|
    {
      Leaves(root)[j].data
    }

    /** What this layer still has to give. */
    ghost function Rest(): seq<Entry>
      requires Ok()
    {
      Data()[ki..] + Flat(Leaves(root)[j + 1..])
    }
  }

  /** The current key: the buffer, where the current layer's part starts in it, and that part's slice and
      length. */
  datatype Cursor = Cursor(buf: Key, s: nat, ikey: nat, len: nat)

  datatype State = Emit | Find | Down | Ascend

  /** `memcpy` into the buffer. */
  function Store(buf: Key, at: nat, bytes: Key): (r: Key)
    ensures |r| >= at + |bytes| && r[at..at + |bytes|] == bytes
    ensures at <= |buf| ==> r[..at] == buf[..at]
    ensures forall i :: at + |bytes| <= i < |buf| ==> i < |r| && r[i] == buf[i]
  {
    var front := if at <= |buf| then buf[..at] else buf + Zeros(at - |buf|);
    front + bytes + (if at + |bytes| <= |buf| then buf[at + |bytes|..] else [])
  }

  /** The cursor's slice and length come before all of these entries. */
  ghost predicate Precedes(ka: Cursor, rest: seq<Entry>) {
    forall i :: 0 <= i < |rest| ==> Before(ka.ikey, ClassOf(ka.len), rest[i].ikey, rest[i].Class())
  }

  /** The buffer holds this entry's key. */
  ghost predicate HoldsKey(ka: Cursor, e: Entry) {
    && e.Val? && ka.ikey == e.ikey && ClassOf(ka.len) == e.Class()
    && ka.s + ka.len <= |ka.buf| && ka.buf[..ka.s + ka.len] == ka.buf[..ka.s] + OwnKey(e)
  }

  /** The buffer holds the slice that leads to this layer. */
  ghost predicate HoldsSlice(ka: Cursor, e: Entry) {
    e.Sub? && ka.ikey == e.ikey && ka.s + 8 <= |ka.buf| && ka.buf[ka.s..ka.s + 8] == SliceBytes(e.ikey)
  }

  ghost predicate AtEntry(ka: Cursor, e: Entry, state: State) {
    if e.Val? then state == Emit && HoldsKey(ka, e) else state == Down && HoldsSlice(ka, e)
  }

  lemma SplitMiddle<T>(a: seq<T>, b: seq<T>, c: seq<T>, k: nat)
    requires k <= |b|
    ensures a + b + c == a + b[..k] + (b[k..] + c)
  {
    assert b == b[..k] + b[k..];
  }

  lemma RestIsSuffix(elt: Elt)
    requires elt.Ok()
    ensures Entries(elt.root) == Flat(Leaves(elt.root)[..elt.j]) + elt.Data()[..elt.ki] + elt.Rest()
  {
    var ls := Leaves(elt.root);
    FlatAt(ls, elt.j);
    SplitMiddle(Flat(ls[..elt.j]), elt.Data(), Flat(ls[elt.j + 1..]), elt.ki);
  }

  lemma RestOk(elt: Elt)
    requires elt.Ok() && TrieOk(elt.root)
    ensures DataOk(elt.Rest())
  {
    EntriesOk(elt.root);
    RestIsSuffix(elt);
    SuffixOk(Flat(Leaves(elt.root)[..elt.j]) + elt.Data()[..elt.ki], elt.Rest());
  }

  lemma FlatAt(ls: seq<Node>, j: nat)
    requires j < |ls| && ls[j].Leaf?
    ensures Flat(ls) == Flat(ls[..j]) + ls[j].data + Flat(ls[j + 1..])
    ensures Flat(ls[j..]) == ls[j].data + Flat(ls[j + 1..])
  {
    assert ls == ls[..j] + ls[j..] && ls[j..][1..] == ls[j + 1..];
    FlatConcat(ls[..j], ls[j..]);
  }

  lemma SuffixOk(a: seq<Entry>, b: seq<Entry>)
    requires DataOk(a + b)
    ensures DataOk(b)
  {
    var c := a + b;
    forall i | 0 <= i < |b| ensures EntryOk(b[i]) { assert b[i] == c[|a| + i]; }
    forall i, j | 0 <= i < j < |b| ensures Before(b[i].ikey, b[i].Class(), b[j].ikey, b[j].Class()) {
      assert b[i] == c[|a| + i] && b[j] == c[|a| + j];
    }
  }

  // ----- find_next -----

  /** `is_duplicate` until it fails. */
  method SkipDuplicates(data: seq<Entry>, start: nat, ka: Cursor) returns (ki: nat)
    requires start <= |data| && Classed(data)
    ensures start <= ki <= |data|
    ensures forall i :: start <= i < ki ==> !Before(ka.ikey, ClassOf(ka.len), data[i].ikey, data[i].Class())
    ensures ki < |data| ==> Before(ka.ikey, ClassOf(ka.len), data[ki].ikey, data[ki].Class())
    ensures Precedes(ka, data[start..]) ==> ki == start
  {
    assert Precedes(ka, data[start..]) && start < |data| ==>
      Before(ka.ikey, ClassOf(ka.len), data[start..][0].ikey, data[start..][0].Class());
    ki := start;
    while ki < |data|
      invariant start <= ki <= |data|
      invariant forall i :: start <= i < ki ==> !Before(ka.ikey, ClassOf(ka.len), data[i].ikey, data[i].Class())
    {
      CompareIs(ka.ikey, ka.len, data[ki]);
      if Compare(ka.ikey, ka.len, data[ki]) < 0 { return; }
      ki := ki + 1;
    }
  }

  /** The cursor takes over the entry it stops at. */
  method TakeKey(ka0: Cursor, e: Entry) returns (ka: Cursor, state: State)
    requires ka0.s <= |ka0.buf| && EntryOk(e)
    ensures ka.s == ka0.s && ka.s <= |ka.buf| && ka.buf[..ka.s] == ka0.buf[..ka.s]
    ensures AtEntry(ka, e, state)
  {
    var buf, keylen, s := ka0.buf, Lenx(e), ka0.s;
    if e.Val? && e.len == 9 {
      buf := Store(buf, s + 8, e.suffix);
      keylen := 8 + |e.suffix|;
    }
    var bytes := SliceBytes(e.ikey);
    var after := Store(buf, s, bytes);
    assert buf[..s] == ka0.buf[..s];
    if e.Sub? {
      ka, state := Cursor(after, s, e.ikey, ka0.len), Down;
    } else {
      ka, state := Cursor(after, s, e.ikey, keylen), Emit;
      StoredKey(ka0.buf, s, e, buf, after, keylen);
    }
  }

  lemma StoredKey(buf0: Key, s: nat, e: Entry, buf: Key, after: Key, keylen: nat)
    requires s <= |buf0| && e.Val? && EntryOk(e)
    requires buf == if e.len == 9 then Store(buf0, s + 8, e.suffix) else buf0
    requires keylen == if e.len == 9 then 8 + |e.suffix| else e.len
    requires after == Store(buf, s, SliceBytes(e.ikey))
    ensures s + keylen <= |after| && after[..s + keylen] == after[..s] + OwnKey(e) && ClassOf(keylen) == e.Class()
  {
    var bytes := SliceBytes(e.ikey);
    if e.len == 9 {
      var n := s + 8 + |e.suffix|;
      StoreKeeps(buf, s, bytes, s + 8, n);
      assert after[..n] == after[..s] + after[s..s + 8] + after[s + 8..n];
      Joined(after[..s], bytes, e.suffix);
    } else {
      assert after[s..s + e.len] == after[s..s + 8][..e.len];
      assert after[..s + keylen] == after[..s] + after[s..s + keylen];
    }
  }

  lemma StoreKeeps(buf: Key, at: nat, bytes: Key, m: nat, n: nat)
    requires at + |bytes| <= m <= n <= |buf|
    ensures n <= |Store(buf, at, bytes)| && Store(buf, at, bytes)[m..n] == buf[m..n]
  {
    var r := Store(buf, at, bytes);
    assert n > m ==> r[n - 1] == buf[n - 1];
  }

  /** `find_next`: the next entry of the layer, from the current leaf or a later one. */
  method FindNext(elt0: Elt, ka0: Cursor) returns (elt: Elt, ka: Cursor, state: State)
    requires elt0.Ok() && TrieOk(elt0.root) && ka0.s <= |ka0.buf| && Precedes(ka0, elt0.Rest())
    ensures elt.Ok() && elt.root == elt0.root && elt.Rest() == elt0.Rest()
    ensures ka.s == ka0.s && ka.s <= |ka.buf| && ka.buf[..ka.s] == ka0.buf[..ka.s]
    ensures elt0.Rest() == [] ==> state == Ascend
    ensures elt0.Rest() != [] ==> elt.ki < |elt.Data()| && AtEntry(ka, elt.Data()[elt.ki], state)
  {
    elt, ka := elt0, ka0;
    while true
      invariant elt.Ok() && elt.root == elt0.root && elt.Rest() == elt0.Rest()
      decreases |Leaves(elt0.root)| - elt.j
    {
      var data := elt.Data();
      LeafDataOk(elt);
      RestHead(elt, ka);
      var ki := SkipDuplicates(data, elt.ki, ka);
      if ki < |data| {
        ka, state := TakeKey(ka, data[ki]);
        return;
      }
      if elt.j + 1 == |Leaves(elt.root)| {
        state := Ascend;
        return;
      }
      elt := NextLeaf(elt, ka);
    }
  }

  lemma RestHead(elt: Elt, ka: Cursor)
    requires elt.Ok() && Precedes(ka, elt.Rest())
    ensures Precedes(ka, elt.Data()[elt.ki..])
    ensures elt.ki < |elt.Data()| ==> elt.Rest() != [] && elt.Rest()[0] == elt.Data()[elt.ki]
    ensures elt.ki == |elt.Data()| && elt.j + 1 == |Leaves(elt.root)| ==> elt.Rest() == []
  {
    var data := elt.Data()[elt.ki..];
    assert forall i :: 0 <= i < |data| ==> data[i] == elt.Rest()[i];
    if elt.j + 1 == |Leaves(elt.root)| { assert Leaves(elt.root)[elt.j + 1..] == []; }
  }

  lemma LeafDataOk(elt: Elt)
    requires elt.Ok() && TrieOk(elt.root)
    ensures DataOk(elt.Data()) && Classed(elt.Data())
  {
    LeavesCover(elt.root, 0, SLICES);
    var ls := Leaves(elt.root);
    assert LeafOk(ls, SLICES, elt.j);
    DeepLeaves(elt.root);
    assert Deep(ls[elt.j]);
    DataClassed(elt.Data());
  }

  /** The search for a position, when nothing is below the cursor. */
  method LowerAtStart(data: seq<Entry>, ka: Cursor) returns (ki: nat)
    requires Sorted(data) && Classed(data) && Precedes(ka, data)
    ensures ki == 0
  {
    var found;
    ki, found := LowerWithPosition(data, ka.ikey, ka.len);
    assert data != [] ==> Before(ka.ikey, ClassOf(ka.len), data[0].ikey, data[0].Class());
  }

  /** On to the next leaf, at the first entry not below the cursor. */
  method NextLeaf(elt0: Elt, ka: Cursor) returns (elt: Elt)
    requires elt0.Ok() && TrieOk(elt0.root) && Precedes(ka, elt0.Rest())
    requires elt0.ki == |elt0.Data()| && elt0.j + 1 < |Leaves(elt0.root)|
    ensures elt.Ok() && elt.root == elt0.root && elt.j == elt0.j + 1 && elt.Rest() == elt0.Rest()
  {
    elt := Elt(elt0.root, elt0.j + 1, 0);
    NextRest(elt0, elt);
    RestHead(elt, ka);
    LeafDataOk(elt);
    assert elt.Data()[0..] == elt.Data();
    var ki := LowerAtStart(elt.Data(), ka);
    elt := Elt(elt.root, elt.j, ki);
  }

  lemma NextRest(elt0: Elt, elt: Elt)
    requires elt0.Ok() && elt0.ki == |elt0.Data()| && elt0.j + 1 < |Leaves(elt0.root)|
    requires elt == Elt(elt0.root, elt0.j + 1, 0)
    ensures elt.Ok() && elt.Rest() == elt0.Rest()
  {
    FlatAt(Leaves(elt0.root), elt.j);
    assert elt.Data()[0..] == elt.Data();
  }

  // ----- the whole stack -----

  function Take(buf: Key, n: nat): Key {
    if n <= |buf| then buf[..n] else buf
  }

  function Tail(rest: seq<Entry>): seq<Entry> {
    if rest == [] then [] else rest[1..]
  }

  /** The element stands at the entry for `layer`, whose slice is at its place in the buffer. */
  ghost predicate Leads(elt: Elt, depth: nat, buf: Key, layer: Node) {
    && elt.Ok() && elt.ki < |elt.Data()| && elt.Data()[elt.ki] == Sub(elt.Data()[elt.ki].ikey, layer)
    && 8 * (depth + 1) <= |buf| && buf[8 * depth..8 * depth + 8] == SliceBytes(elt.Data()[elt.ki].ikey)
  }

  /** The elements above the current layer, outermost first. */
  ghost predicate Parents(up: seq<Elt>, buf: Key, root: Node)
    decreases |up|
  {
    up != [] ==>
      var n := |up| - 1;
      Leads(up[n], n, buf, root) && Parents(up[..n], buf, up[n].root)
  }

  /** What those layers still have to give, once the current one is done. */
  ghost function Pending(up: seq<Elt>, buf: Key): seq<Item>
    decreases |up|
  {
    if up == [] then []
    else
      var n := |up| - 1;
      DataItems(Take(buf, 8 * n), if up[n].Ok() then Tail(up[n].Rest()) else []) + Pending(up[..n], buf)
  }

  ghost function PendingWork(up: seq<Elt>): nat
    decreases |up|
  {
    if up == [] then 0
    else
      var n := |up| - 1;
      DataWork(if up[n].Ok() then Tail(up[n].Rest()) else []) + PendingWork(up[..n])
  }

  lemma {:induction false} ParentsFrame(up: seq<Elt>, a: Key, b: Key, root: Node)
    requires Parents(up, a, root) && 8 * |up| <= |a| && 8 * |up| <= |b| && a[..8 * |up|] == b[..8 * |up|]
    ensures Parents(up, b, root)
    decreases |up|
  {
    if up != [] {
      var n := |up| - 1;
      SamePrefix(a, b, 8 * n, 8 * n + 8);
      assert Leads(up[n], n, a, root);
      ParentsFrame(up[..n], a, b, up[n].root);
    }
  }

  lemma {:induction false} PendingFrame(up: seq<Elt>, a: Key, b: Key)
    requires 8 * |up| <= |a| && 8 * |up| <= |b| && a[..8 * |up|] == b[..8 * |up|]
    ensures Pending(up, b) == Pending(up, a)
    decreases |up|
  {
    if up != [] {
      var n := |up| - 1;
      SamePrefix(a, b, 8 * n, 8 * n + 8);
      PendingFrame(up[..n], a, b);
    }
  }

  lemma SamePrefix(a: Key, b: Key, m: nat, n: nat)
    requires m <= n <= |a| && n <= |b| && a[..n] == b[..n]
    ensures a[..m] == b[..m] && a[m..n] == b[m..n]
  {
    assert a[..m] == a[..n][..m] && b[..m] == b[..n][..m];
    assert a[m..n] == a[..n][m..] && b[m..n] == b[..n][m..];
  }

  lemma ParentsPush(up: seq<Elt>, top: Elt, buf: Key, layer: Node)
    requires Parents(up, buf, top.root) && Leads(top, |up|, buf, layer)
    ensures Parents(up + [top], buf, layer)
  {
    assert (up + [top])[..|up|] == up && (up + [top])[|up|] == top;
  }

  lemma PendingPush(up: seq<Elt>, top: Elt, buf: Key)
    requires top.Ok() && 8 * |up| <= |buf|
    ensures Pending(up + [top], buf) == DataItems(buf[..8 * |up|], Tail(top.Rest())) + Pending(up, buf)
    ensures PendingWork(up + [top]) == DataWork(Tail(top.Rest())) + PendingWork(up)
  {
    assert (up + [top])[..|up|] == up && (up + [top])[|up|] == top;
  }

  lemma ItemsHead(prefix: Key, e: Entry, rest: seq<Entry>)
    ensures DataItems(prefix, [e] + rest) == EntryItems(prefix, e) + DataItems(prefix, rest)
    ensures DataWork([e] + rest) == Work(e) + DataWork(rest)
  {
    assert ([e] + rest)[1..] == rest;
  }

  /** The stack and the buffer fit together, and the cursor is where the state says. */
  ghost predicate Scanning(up: seq<Elt>, top: Elt, ka: Cursor, state: State) {
    && ka.s == 8 * |up| <= |ka.buf| && top.Ok() && Parents(up, ka.buf, top.root)
    && match state
       case Find => Precedes(ka, top.Rest())
       case Ascend => top.Rest() == []
       case _ => top.ki < |top.Data()| && AtEntry(ka, top.Data()[top.ki], state)
  }

  /** What the scan still has to give. */
  ghost function Giving(up: seq<Elt>, top: Elt, ka: Cursor): seq<Item>
    requires top.Ok() && ka.s <= |ka.buf|
  {
    DataItems(ka.buf[..ka.s], top.Rest()) + Pending(up, ka.buf)
  }

  ghost function ToDo(up: seq<Elt>, top: Elt): nat
    requires top.Ok()
  {
    DataWork(top.Rest()) + PendingWork(up) + |up|
  }

  function Next(elt: Elt): Elt {
    Elt(elt.root, elt.j, elt.ki + 1)
  }

  /** Moving on in the same leaf. */
  lemma StepRight(elt: Elt)
    requires elt.Ok() && elt.ki < |elt.Data()|
    ensures Next(elt).Ok() && elt.Rest() == [elt.Data()[elt.ki]] + Next(elt).Rest() && Tail(elt.Rest()) == Next(elt).Rest()
  {
    var tail := Flat(Leaves(elt.root)[elt.j + 1..]);
    assert elt.Data()[elt.ki..] == [elt.Data()[elt.ki]] + elt.Data()[elt.ki + 1..];
    assert elt.Rest()[1..] == elt.Data()[elt.ki + 1..] + tail;
  }

  lemma StepPrecedes(elt: Elt, ka: Cursor)
    requires elt.Ok() && TrieOk(elt.root) && elt.ki < |elt.Data()|
    requires ka.ikey == elt.Data()[elt.ki].ikey && ClassOf(ka.len) == elt.Data()[elt.ki].Class()
    ensures Next(elt).Ok() && Precedes(ka, Next(elt).Rest())
  {
    StepRight(elt);
    RestOk(elt);
    var after, rest := Next(elt).Rest(), elt.Rest();
    forall i | 0 <= i < |after| ensures Before(ka.ikey, ClassOf(ka.len), after[i].ikey, after[i].Class()) {
      assert after[i] == rest[i + 1] && rest[0] == elt.Data()[elt.ki];
      assert Before(rest[0].ikey, rest[0].Class(), rest[i + 1].ikey, rest[i + 1].Class());
    }
  }

  lemma RestItems(prefix: Key, elt: Elt)
    requires elt.Ok() && elt.ki < |elt.Data()|
    ensures Next(elt).Ok() && elt.Rest() != [] && Tail(elt.Rest()) == Next(elt).Rest()
    ensures DataItems(prefix, elt.Rest()) == EntryItems(prefix, elt.Data()[elt.ki]) + DataItems(prefix, Next(elt).Rest())
    ensures DataWork(elt.Rest()) == Work(elt.Data()[elt.ki]) + DataWork(Next(elt).Rest())
  {
    StepRight(elt);
    ItemsHead(prefix, elt.Data()[elt.ki], Next(elt).Rest());
  }

  /** Emitting: the key in the buffer is the first item. */
  lemma EmitGives(up: seq<Elt>, top: Elt, ka: Cursor)
    requires top.Ok() && top.ki < |top.Data()| && ka.s <= |ka.buf| && HoldsKey(ka, top.Data()[top.ki])
    ensures Next(top).Ok() && ToDo(up, Next(top)) < ToDo(up, top)
    ensures Giving(up, top, ka) == [Item(ka.buf[..ka.s + ka.len], top.Data()[top.ki].value)] + Giving(up, Next(top), ka)
  {
    var prefix, e := ka.buf[..ka.s], top.Data()[top.ki];
    RestItems(prefix, top);
    Joined(EntryItems(prefix, e), DataItems(prefix, Next(top).Rest()), Pending(up, ka.buf));
  }

  /** Finding the next entry changes the buffer only after the layers above. */
  lemma FindGives(up: seq<Elt>, top: Elt, ka: Cursor, next: Elt, ka': Cursor)
    requires top.Ok() && next.Ok() && next.Rest() == top.Rest() && ka.s == 8 * |up|
    requires ka'.s == ka.s <= |ka.buf| && ka'.s <= |ka'.buf| && ka'.buf[..ka'.s] == ka.buf[..ka.s]
    ensures Giving(up, next, ka') == Giving(up, top, ka) && ToDo(up, next) == ToDo(up, top)
  {
    PendingFrame(up, ka.buf, ka'.buf);
  }

  /** `shift_clear` */
  function ShiftClear(ka: Cursor): Cursor {
    Cursor(ka.buf, ka.s + 8, 0, 0)
  }

  /** Down one layer. */
  lemma DownGives(up: seq<Elt>, top: Elt, ka: Cursor, next: Elt)
    requires top.Ok() && top.ki < |top.Data()| && ka.s == 8 * |up| <= |ka.buf| && HoldsSlice(ka, top.Data()[top.ki])
    requires next.Ok() && EntryItems(ka.buf[..ka.s], top.Data()[top.ki]) == DataItems(ka.buf[..ka.s + 8], next.Rest())
    ensures Giving(up + [top], next, ShiftClear(ka)) == Giving(up, top, ka)
  {
    var e, prefix := top.Data()[top.ki], ka.buf[..ka.s];
    RestItems(prefix, top);
    PendingPush(up, top, ka.buf);
    Joined(EntryItems(prefix, e), DataItems(prefix, Next(top).Rest()), Pending(up, ka.buf));
  }

  lemma DownToDo(up: seq<Elt>, top: Elt, next: Elt)
    requires top.Ok() && top.ki < |top.Data()| && next.Ok()
    requires DataWork(next.Rest()) + 1 < Work(top.Data()[top.ki])
    ensures ToDo(up + [top], next) < ToDo(up, top)
  {
    RestItems([], top);
    PendingPush(up, top, Zeros(8 * |up|));
  }

  /** `unshift` */
  function Unshift(ka: Cursor): Cursor
    requires 8 <= ka.s <= |ka.buf|
  {
    Cursor(ka.buf, ka.s - 8, Slice(ka.buf[ka.s - 8..ka.s]), 9)
  }

  /** Up one layer, past the entry that led down. */
  lemma AscendGives(up: seq<Elt>, last: Elt, top: Elt, ka: Cursor)
    requires top.Ok() && top.Rest() == [] && ka.s == 8 * |up| + 8 <= |ka.buf|
    requires last.Ok() && last.ki < |last.Data()|
    ensures Next(last).Ok() && Giving(up, Next(last), Unshift(ka)) == Giving(up + [last], top, ka)
    ensures ToDo(up, Next(last)) < ToDo(up + [last], top)
  {
    StepRight(last);
    PendingPush(up, last, ka.buf);
  }

  // ----- the loop -----

  /** The cursor at the very start of a layer comes before all its entries: only the first layer stores
      the empty key. */
  lemma NothingBelow(e: Entry, ka: Cursor)
    requires e.Sub? && EntryOk(e)
    ensures Precedes(ShiftClear(ka), Entries(e.layer))
  {
    var rest := Entries(e.layer);
    EntriesOk(e.layer);
    forall i | 0 <= i < |rest| ensures Before(0, 0, rest[i].ikey, rest[i].Class()) {
      NotEmptyKey(e, i);
    }
  }

  lemma NotEmptyKey(e: Entry, i: nat)
    requires e.Sub? && EntryOk(e) && i < |Entries(e.layer)|
    ensures var d := Entries(e.layer)[i]; d.ikey > 0 || d.Class() > 0
  {
    var d := Entries(e.layer)[i];
    EntriesOk(e.layer);
    assert EntryOk(d);
    if d.Val? {
      OwnHas(d);
      HasFlat(Leaves(e.layer), OwnKey(d), d.value);
      assert Has(e.layer, OwnKey(d), d.value) && !Has(e.layer, [], d.value);
      assert d.len <= 8 ==> |OwnKey(d)| == d.len;
    }
  }

  lemma FirstIsLowest(ls: seq<Node>, lo: nat, hi: nat, i: nat)
    requires Covers(ls, lo, hi) && i < |ls|
    ensures i > 0 ==> ls[i].bound > lo
  {
    if i > 0 { BoundsAscend(ls, lo, hi, 0, i); }
  }

  /** `find_retry` at the start of a layer */
  method FindRetry(layer: Node, ka: Cursor) returns (elt: Elt)
    requires TrieOk(layer) && ka.ikey == 0 && Precedes(ka, Entries(layer))
    ensures elt.Ok() && elt.root == layer && elt.Rest() == Entries(layer)
  {
    var path, leaf := ReachLeaf(layer, ka.ikey);
    PlugLeaves(path, leaf);
    LeavesCover(layer, 0, SLICES);
    var ls := Leaves(layer);
    assert ls[|path.Left()|] == leaf;
    FirstIsLowest(ls, 0, SLICES, |path.Left()|);
    elt := Elt(layer, 0, 0);
    assert ls[0] == leaf;
    FlatAt(ls, 0);
    assert ls[..0] == [] && elt.Data()[0..] == elt.Data();
    RestHead(elt, ka);
    LeafDataOk(elt);
    var ki := LowerAtStart(leaf.data, ka);
    elt := Elt(layer, |path.Left()|, ki);
  }

  /** Every layer on the stack is well formed. */
  ghost predicate Tries(up: seq<Elt>, top: Elt) {
    TrieOk(top.root) && forall i {:trigger TrieOk(up[i].root)} :: 0 <= i < |up| ==> TrieOk(up[i].root)
  }

  /** Into an entry's layer. */
  method GoDown(up: seq<Elt>, top: Elt, ka: Cursor) returns (next: Elt)
    requires Scanning(up, top, ka, Down) && Tries(up, top)
    ensures next.Ok() && Scanning(up + [top], next, ShiftClear(ka), Find) && Tries(up + [top], next)
    ensures Giving(up + [top], next, ShiftClear(ka)) == Giving(up, top, ka) && ToDo(up + [top], next) < ToDo(up, top)
  {
    var e := top.Data()[top.ki];
    AtEntryOk(top);
    NothingBelow(e, ka);
    next := FindRetry(e.layer, ShiftClear(ka));
    EnterGives(up, top, ka, next);
    EnterScanning(up, top, ka, next);
    PushTries(up, top, next);
  }

  lemma AtEntryOk(elt: Elt)
    requires elt.Ok() && TrieOk(elt.root) && elt.ki < |elt.Data()|
    ensures EntryOk(elt.Data()[elt.ki])
  {
    LeafDataOk(elt);
  }

  lemma EnterGives(up: seq<Elt>, top: Elt, ka: Cursor, next: Elt)
    requires top.Ok() && top.ki < |top.Data()| && ka.s == 8 * |up| <= |ka.buf| && HoldsSlice(ka, top.Data()[top.ki])
    requires EntryOk(top.Data()[top.ki])
    requires next.Ok() && next.root == top.Data()[top.ki].layer && next.Rest() == Entries(next.root)
    ensures Giving(up + [top], next, ShiftClear(ka)) == Giving(up, top, ka) && ToDo(up + [top], next) < ToDo(up, top)
  {
    var e := top.Data()[top.ki];
    LayerItems(ka.buf[..ka.s], e);
    assert ka.buf[..ka.s] + SliceBytes(e.ikey) == ka.buf[..ka.s + 8];
    DownGives(up, top, ka, next);
    DownToDo(up, top, next);
  }

  lemma EnterScanning(up: seq<Elt>, top: Elt, ka: Cursor, next: Elt)
    requires Scanning(up, top, ka, Down)
    requires next.Ok() && next.root == top.Data()[top.ki].layer && Precedes(ShiftClear(ka), next.Rest())
    ensures Scanning(up + [top], next, ShiftClear(ka), Find)
  {
    assert Leads(top, |up|, ka.buf, next.root);
    ParentsPush(up, top, ka.buf, next.root);
  }

  lemma PushTries(up: seq<Elt>, top: Elt, next: Elt)
    requires Tries(up, top) && TrieOk(next.root)
    ensures Tries(up + [top], next)
  {
    forall i | 0 <= i < |up + [top]| ensures TrieOk((up + [top])[i].root) {
      if i < |up| { assert TrieOk(up[i].root); }
    }
  }

  /** Back in the layer above, past the entry that led down. */
  lemma GoUp(up: seq<Elt>, last: Elt, top: Elt, ka: Cursor)
    requires Scanning(up + [last], top, ka, Ascend) && Tries(up + [last], top)
    ensures Next(last).Ok() && Scanning(up, Next(last), Unshift(ka), Find) && Tries(up, Next(last))
    ensures Giving(up, Next(last), Unshift(ka)) == Giving(up + [last], top, ka) && ToDo(up, Next(last)) < ToDo(up + [last], top)
  {
    var n := |up|;
    assert (up + [last])[..n] == up && (up + [last])[n] == last;
    assert Leads(last, n, ka.buf, top.root);
    assert TrieOk((up + [last])[n].root);
    LeafDataOk(last);
    assert EntryOk(last.Data()[last.ki]);
    SlicePacked(last.Data()[last.ki].ikey);
    StepPrecedes(last, Unshift(ka));
    AscendGives(up, last, top, ka);
    forall i | 0 <= i < n ensures TrieOk(up[i].root) { assert TrieOk((up + [last])[i].root); }
  }

  // ----- where to start -----

  /** The keys a scan gives out. */
  predicate Passes(start: Key, emitEqual: bool, k: Key) {
    Lex(start, k) || (emitEqual && k == start)
  }

  lemma {:induction false} LexTotal(a: Key, b: Key)
    ensures Lex(a, b) || Lex(b, a) || a == b
  {
    if a != [] && b != [] && a[0] == b[0] {
      LexTotal(a[1..], b[1..]);
      assert a == [a[0]] + a[1..] && b == [b[0]] + b[1..];
    }
  }

  lemma LowerDoesNotPass(start: Key, emitEqual: bool, k: Key)
    requires Lex(k, start)
    ensures !Passes(start, emitEqual, k)
  {
    LexIrreflexive(k);
    if Lex(start, k) { LexTransitive(k, start, k); }
  }

  /** Entries before and after a slice and class. */
  ghost predicate Splits(before: seq<Entry>, after: seq<Entry>, ikey: nat, cls: nat) {
    && (forall i :: 0 <= i < |before| ==> Before(before[i].ikey, before[i].Class(), ikey, cls))
    && (forall i :: 0 <= i < |after| ==> Before(ikey, cls, after[i].ikey, after[i].Class()))
  }

  ghost predicate NonePass(start: Key, emitEqual: bool, xs: seq<Item>) {
    forall x :: x in xs ==> !Passes(start, emitEqual, x.key)
  }

  ghost predicate AllPass(start: Key, emitEqual: bool, xs: seq<Item>) {
    forall x :: x in xs ==> Passes(start, emitEqual, x.key)
  }

  lemma SplitPasses(prefix: Key, before: seq<Entry>, after: seq<Entry>, r: Key, emitEqual: bool)
    requires AllOk(before) && AllOk(after) && Splits(before, after, Slice(r), Class(r))
    ensures NonePass(prefix + r, emitEqual, DataItems(prefix, before))
    ensures AllPass(prefix + r, emitEqual, DataItems(prefix, after))
  {
    forall x | x in DataItems(prefix, before) ensures !Passes(prefix + r, emitEqual, x.key) {
      DataBefore(prefix, before, x, r);
      LowerDoesNotPass(prefix + r, emitEqual, x.key);
    }
    forall x | x in DataItems(prefix, after) ensures Passes(prefix + r, emitEqual, x.key) {
      DataBefore(prefix, after, x, r);
    }
  }

  lemma {:induction false} FlatAll(ls: seq<Node>, lo: nat, hi: nat)
    requires forall i :: 0 <= i < |ls| ==> ls[i].Leaf? && Within(ls[i].data, lo, hi)
    ensures Within(Flat(ls), lo, hi)
  {
    if ls != [] { FlatAll(ls[1..], lo, hi); }
  }

  /** The leaves beside a path hold smaller and greater slices. */
  lemma FlatBeside(path: Path, leaf: Node)
    requires path.Ok() && leaf.Leaf? && WF(leaf, path.Lo(), path.Hi())
    ensures Within(Flat(path.Left()), 0, path.Lo()) && Within(Flat(path.Right()), path.Hi(), SLICES)
  {
    PlugWF(path, leaf);
    PlugLeaves(path, leaf);
    LeavesCover(path.Plug(leaf), 0, SLICES);
    RightStarts(path, leaf);
    var a, b := path.Left(), path.Right();
    var all := a + [leaf] + b;
    forall i | 0 <= i < |a| ensures a[i].Leaf? && Within(a[i].data, 0, path.Lo()) {
      assert all[i] == a[i] && all[|a|] == leaf;
      assert LeafOk(all, SLICES, i);
      BoundsAscend(all, 0, SLICES, i, |a|);
    }
    forall i | 0 <= i < |b| ensures b[i].Leaf? && Within(b[i].data, path.Hi(), SLICES) {
      assert all[|a| + 1 + i] == b[i] && all[|a| + 1] == b[0];
      assert LeafOk(all, SLICES, |a| + 1 + i);
      if i > 0 { BoundsAscend(all, 0, SLICES, |a| + 1, |a| + 1 + i); }
      if i + 1 < |b| { BoundsAscend(all, 0, SLICES, |a| + 1 + i, |a| + 2 + i); }
    }
    FlatAll(a, 0, path.Lo());
    FlatAll(b, path.Hi(), SLICES);
  }

  /** The position found in a layer: what is before it and after it. */
  method Position(root: Node, ikey: nat, len: nat) returns (elt: Elt, found: bool, ghost before: seq<Entry>)
    requires TrieOk(root) && ikey < SLICES
    ensures elt.Ok() && elt.root == root && Entries(root) == before + elt.Rest() && AllOk(before) && AllOk(elt.Rest())
    ensures found ==> elt.ki < |elt.Data()| && elt.Data()[elt.ki].ikey == ikey && elt.Data()[elt.ki].Class() == ClassOf(len)
    ensures Splits(before, if found then Tail(elt.Rest()) else elt.Rest(), ikey, ClassOf(len))
  {
    var path, leaf := ReachLeaf(root, ikey);
    PlugLeaves(path, leaf);
    FlatBeside(path, leaf);
    LeafDeep(path, leaf);
    DataClassed(leaf.data);
    var ki;
    ki, found := LowerWithPosition(leaf.data, ikey, len);
    elt := Elt(root, |path.Left()|, ki);
    before := PositionSplits(path, leaf, elt, ikey, len, found);
  }

  lemma PositionSplits(path: Path, leaf: Node, elt: Elt, ikey: nat, len: nat, found: bool) returns (before: seq<Entry>)
    requires path.Shape() && leaf.Leaf? && Leaves(elt.root) == path.Left() + [leaf] + path.Right() && TrieOk(elt.root)
    requires path.Lo() <= ikey < path.Hi() && Sorted(leaf.data)
    requires Within(Flat(path.Left()), 0, path.Lo()) && Within(Flat(path.Right()), path.Hi(), SLICES)
    requires elt.j == |path.Left()| && elt.ki <= |leaf.data|
    requires if found then elt.ki < |leaf.data| && leaf.data[elt.ki].ikey == ikey && leaf.data[elt.ki].Class() == ClassOf(len)
             else Belongs(leaf.data, elt.ki, ikey, ClassOf(len))
    ensures elt.Ok() && elt.Data() == leaf.data && Entries(elt.root) == before + elt.Rest() && AllOk(before) && AllOk(elt.Rest())
    ensures Splits(before, if found then Tail(elt.Rest()) else elt.Rest(), ikey, ClassOf(len))
  {
    var ls, a, b, d := Leaves(elt.root), Flat(path.Left()), Flat(path.Right()), leaf.data;
    assert ls[..elt.j] == path.Left() && ls[elt.j + 1..] == path.Right() && ls[elt.j] == leaf;
    RestIsSuffix(elt);
    before := a + d[..elt.ki];
    EntriesOk(elt.root);
    PrefixOk(before, elt.Rest());
    SuffixOk(before, elt.Rest());
    var k := if found then elt.ki + 1 else elt.ki;
    SplitsAround(a, d, b, elt.ki, k, path.Lo(), path.Hi(), ikey, ClassOf(len));
    if found { assert (d[elt.ki..] + b)[1..] == d[k..] + b; }
  }

  lemma PrefixOk(a: seq<Entry>, b: seq<Entry>)
    requires DataOk(a + b)
    ensures AllOk(a)
  {
    forall i | 0 <= i < |a| ensures EntryOk(a[i]) { assert a[i] == (a + b)[i] && EntryOk((a + b)[i]); }
  }

  lemma SplitsAround(a: seq<Entry>, d: seq<Entry>, b: seq<Entry>, ki: nat, k: nat, lo: nat, hi: nat, ikey: nat, cls: nat)
    requires Within(a, 0, lo) && Within(b, hi, SLICES) && lo <= ikey < hi && Sorted(d) && ki <= k <= |d|
    requires if k == ki then Belongs(d, ki, ikey, cls)
             else k == ki + 1 && d[ki].ikey == ikey && d[ki].Class() == cls
    ensures Splits(a + d[..ki], d[k..] + b, ikey, cls)
  {
    var before, after := a + d[..ki], d[k..] + b;
    forall i | 0 <= i < |before| ensures Before(before[i].ikey, before[i].Class(), ikey, cls) {
      if i >= |a| { assert before[i] == d[i - |a|]; }
    }
    forall i | 0 <= i < |after| ensures Before(ikey, cls, after[i].ikey, after[i].Class()) {
      if i < |d| - k { assert after[i] == d[k + i]; } else { assert after[i] == b[i - (|d| - k)]; }
    }
  }

  // ----- find_initial -----

  /** The cursor for the part of the start key from offset `s` on. */
  function StartCursor(start: Key, s: nat): Cursor
    requires s <= |start|
  {
    Cursor(start, s, Slice(start[s..]), |start| - s)
  }

  /** How the key of a value found at the start key's slice and class compares with the start key. */
  lemma FoundPasses(start: Key, s: nat, e: Entry, emitEqual: bool)
    requires s <= |start| && e.Val? && EntryOk(e) && e.ikey == Slice(start[s..]) && e.Class() == Class(start[s..])
    ensures Passes(start, emitEqual, start[..s] + OwnKey(e)) <==>
      if e.len == 9 then Lex(start[s..][8..], e.suffix) || (emitEqual && e.suffix == start[s..][8..]) else emitEqual
    ensures e.len < 9 || e.suffix == start[s..][8..] ==> OwnKey(e) == start[s..]
  {
    var r, k := start[s..], OwnKey(e);
    assert start == start[..s] + r;
    LexPrefix(start[..s], r, k);
    SlicedOrder(r, k);
    LexIrreflexive(r);
    if e.len < 9 || e.suffix == r[8..] { ValIsMade(e, r); }
    if e.len == 9 { assert k[8..] == e.suffix; }
    if start[..s] + k == start { assert k == start[s..]; }
  }

  lemma StartHolds(start: Key, s: nat, e: Entry, buf: Key, len: nat)
    requires s <= |start| && e.Val? && EntryOk(e) && e.ikey == Slice(start[s..]) && e.Class() == Class(start[s..])
    requires if e.len == 9 then buf == Store(start, s + 8, e.suffix) && len == 8 + |e.suffix|
             else buf == start && len == |start| - s
    ensures s <= |buf| && buf[..s] == start[..s] && HoldsKey(Cursor(buf, s, e.ikey, len), e)
  {
    var r := start[s..];
    SliceGivesBack(r);
    if e.len == 9 {
      StoredAfter(start, s, e.suffix, buf);
      assert start[s..s + 8] == r[..8];
      Joined(buf[..s], SliceBytes(e.ikey), e.suffix);
    } else {
      ValIsMade(e, r);
      assert buf[..s + len] == start == start[..s] + r;
    }
  }

  lemma StoredAfter(start: Key, s: nat, suffix: Key, buf: Key)
    requires s + 8 <= |start| && buf == Store(start, s + 8, suffix)
    ensures s + 8 + |suffix| <= |buf| && buf[..s] == start[..s]
    ensures buf[..s + 8 + |suffix|] == buf[..s] + start[s..s + 8] + suffix
  {
    var n := s + 8 + |suffix|;
    assert buf[..s + 8] == start[..s + 8];
    SamePrefix(buf, start, s, s + 8);
    assert buf[..n] == buf[..s] + buf[s..s + 8] + buf[s + 8..n];
  }

  /** `find_initial`, with the key from offset `s` of the start key on. */
  method FindInitial(root: Node, start: Key, s: nat, emitEqual: bool)
    returns (elt: Elt, ka: Cursor, state: State, ghost before: seq<Entry>)
    requires TrieOk(root) && s <= |start|
    ensures elt.Ok() && elt.root == root && Entries(root) == before + elt.Rest()
    ensures NonePass(start, emitEqual, DataItems(start[..s], before))
    ensures ka.s == s <= |ka.buf| && ka.buf[..s] == start[..s]
    ensures match state
      case Down =>
        && ka == StartCursor(start, s) && |start| > s + 8
        && elt.ki < |elt.Data()| && HoldsSlice(ka, elt.Data()[elt.ki])
        && AllPass(start, emitEqual, DataItems(start[..s], Tail(elt.Rest())))
      case Emit =>
        && elt.ki < |elt.Data()| && HoldsKey(ka, elt.Data()[elt.ki])
        && AllPass(start, emitEqual, DataItems(start[..s], elt.Rest()))
      case Find => Precedes(ka, elt.Rest()) && AllPass(start, emitEqual, DataItems(start[..s], elt.Rest()))
      case Ascend => false
  {
    var r := start[s..];
    assert start == start[..s] + r;
    SliceBound(r);
    ka := StartCursor(start, s);
    var found;
    elt, found, before := Position(root, ka.ikey, ka.len);
    SplitPasses(start[..s], before, if found then Tail(elt.Rest()) else elt.Rest(), r, emitEqual);
    if !found {
      state := Find;
    } else if elt.Data()[elt.ki].Sub? {
      state := Down;
      SliceGivesBack(r);
      assert start[s..s + 8] == r[..8];
    } else {
      elt, ka, state, before := StartAtValue(elt, start, s, emitEqual, before);
    }
  }

  /** A value with the start key's slice and class: it is the first to give, or it is skipped. */
  method StartAtValue(elt0: Elt, start: Key, s: nat, emitEqual: bool, ghost before0: seq<Entry>)
    returns (elt: Elt, ka: Cursor, state: State, ghost before: seq<Entry>)
    requires elt0.Ok() && TrieOk(elt0.root) && s <= |start| && elt0.ki < |elt0.Data()| && elt0.Data()[elt0.ki].Val?
    requires elt0.Data()[elt0.ki].ikey == Slice(start[s..]) && elt0.Data()[elt0.ki].Class() == Class(start[s..])
    requires Entries(elt0.root) == before0 + elt0.Rest()
    requires NonePass(start, emitEqual, DataItems(start[..s], before0))
    requires AllPass(start, emitEqual, DataItems(start[..s], Tail(elt0.Rest())))
    ensures elt.Ok() && elt.root == elt0.root && Entries(elt.root) == before + elt.Rest()
    ensures NonePass(start, emitEqual, DataItems(start[..s], before))
    ensures ka.s == s <= |ka.buf| && ka.buf[..s] == start[..s]
    ensures AllPass(start, emitEqual, DataItems(start[..s], elt.Rest()))
    ensures (state == Find && Precedes(ka, elt.Rest())) || (state == Emit && elt.ki < |elt.Data()| && HoldsKey(ka, elt.Data()[elt.ki]))
  {
    var e := elt0.Data()[elt0.ki];
    AtEntryOk(elt0);
    RestItems(start[..s], elt0);
    FoundPasses(start, s, e, emitEqual);
    var pass;
    var buf, len := start, |start| - s;
    if e.len == 9 {
      pass := Lex(start[s + 8..], e.suffix) || (emitEqual && e.suffix == start[s + 8..]);
      assert start[s..][8..] == start[s + 8..];
      if pass { buf, len := Store(start, s + 8, e.suffix), 8 + |e.suffix|; }
    } else {
      pass := emitEqual;
    }
    if pass {
      StartHolds(start, s, e, buf, len);
      elt, ka, state, before := elt0, Cursor(buf, s, e.ikey, len), Emit, before0;
    } else {
      ka := StartCursor(start, s);
      StepPrecedes(elt0, ka);
      elt, state := Next(elt0), Find;
      before := before0 + [e];
      SkipOne(elt0, before0, start[..s]);
    }
  }

  lemma SkipOne(elt: Elt, before: seq<Entry>, prefix: Key)
    requires elt.Ok() && elt.ki < |elt.Data()| && Entries(elt.root) == before + elt.Rest()
    ensures Next(elt).Ok() && Entries(elt.root) == before + [elt.Data()[elt.ki]] + Next(elt).Rest()
    ensures DataItems(prefix, before + [elt.Data()[elt.ki]]) == DataItems(prefix, before) + EntryItems(prefix, elt.Data()[elt.ki])
  {
    StepRight(elt);
    Joined(before, [elt.Data()[elt.ki]], Next(elt).Rest());
    DataItemsConcat(prefix, before, [elt.Data()[elt.ki]]);
    ItemsHead(prefix, elt.Data()[elt.ki], []);
  }

  // ----- scan -----

  /** Going down on the way to the start key. */
  lemma DescendGives(up: seq<Elt>, elt: Elt, start: Key, s: nat, before: seq<Entry>)
    requires elt.Ok() && TrieOk(elt.root) && s == 8 * |up| && s + 8 < |start| && elt.ki < |elt.Data()|
    requires HoldsSlice(StartCursor(start, s), elt.Data()[elt.ki]) && Entries(elt.root) == before + elt.Rest()
    ensures DataItems(start[..s], Entries(elt.root)) + Pending(up, start)
         == DataItems(start[..s], before) + (DataItems(start[..s + 8], Entries(elt.Data()[elt.ki].layer)) + Pending(up + [elt], start))
  {
    var e, prefix := elt.Data()[elt.ki], start[..s];
    AtEntryOk(elt);
    LayerItems(prefix, e);
    assert prefix + SliceBytes(e.ikey) == start[..s + 8];
    RestItems(prefix, elt);
    PendingPush(up, elt, start);
    DataItemsConcat(prefix, before, elt.Rest());
    Regrouped(DataItems(prefix, before), EntryItems(prefix, e), DataItems(prefix, Next(elt).Rest()), Pending(up, start));
  }

  lemma NonePassConcat(start: Key, emitEqual: bool, a: seq<Item>, b: seq<Item>)
    requires NonePass(start, emitEqual, a) && NonePass(start, emitEqual, b)
    ensures NonePass(start, emitEqual, a + b)
  {}

  lemma AllPassConcat(start: Key, emitEqual: bool, a: seq<Item>, b: seq<Item>)
    ensures AllPass(start, emitEqual, a + b) <==> AllPass(start, emitEqual, a) && AllPass(start, emitEqual, b)
  {
    assert forall x :: x in a + b <==> x in a || x in b;
  }

  /** On the way down: `skip` is everything before the current layer, and what the layers above still
      have is after the start key. */
  ghost predicate Seeking(all: seq<Item>, up: seq<Elt>, cur: Node, start: Key, s: nat, emitEqual: bool, skip: seq<Item>) {
    && s == 8 * |up| && s <= |start| && Parents(up, start, cur)
    && all == skip + (DataItems(start[..s], Entries(cur)) + Pending(up, start))
    && NonePass(start, emitEqual, skip) && AllPass(start, emitEqual, Pending(up, start))
  }

  lemma SeekDown(all: seq<Item>, up: seq<Elt>, elt: Elt, start: Key, s: nat, emitEqual: bool, skip: seq<Item>, before: seq<Entry>)
    requires Seeking(all, up, elt.root, start, s, emitEqual, skip) && s + 8 < |start|
    requires elt.Ok() && TrieOk(elt.root) && elt.ki < |elt.Data()| && Entries(elt.root) == before + elt.Rest()
    requires HoldsSlice(StartCursor(start, s), elt.Data()[elt.ki])
    requires NonePass(start, emitEqual, DataItems(start[..s], before))
    requires AllPass(start, emitEqual, DataItems(start[..s], Tail(elt.Rest())))
    ensures Seeking(all, up + [elt], elt.Data()[elt.ki].layer, start, s + 8, emitEqual, skip + DataItems(start[..s], before))
  {
    var layer := elt.Data()[elt.ki].layer;
    DescendGives(up, elt, start, s, before);
    Joined(skip, DataItems(start[..s], before), DataItems(start[..s + 8], Entries(layer)) + Pending(up + [elt], start));
    assert Leads(elt, |up|, start, layer);
    ParentsPush(up, elt, start, layer);
    DownPasses(up, elt, start, s, emitEqual);
    NonePassConcat(start, emitEqual, skip, DataItems(start[..s], before));
  }

  lemma DownPasses(up: seq<Elt>, elt: Elt, start: Key, s: nat, emitEqual: bool)
    requires s == 8 * |up| && s <= |start| && elt.Ok() && AllPass(start, emitEqual, Pending(up, start))
    requires AllPass(start, emitEqual, DataItems(start[..s], Tail(elt.Rest())))
    ensures AllPass(start, emitEqual, Pending(up + [elt], start))
  {
    PendingPush(up, elt, start);
    AllPassConcat(start, emitEqual, DataItems(start[..s], Tail(elt.Rest())), Pending(up, start));
  }

  lemma SeekEnd(all: seq<Item>, up: seq<Elt>, top: Elt, ka: Cursor, start: Key, emitEqual: bool, skip: seq<Item>, before: seq<Entry>)
    requires Seeking(all, up, top.root, start, ka.s, emitEqual, skip)
    requires top.Ok() && Entries(top.root) == before + top.Rest()
    requires ka.s <= |ka.buf| && ka.buf[..ka.s] == start[..ka.s]
    requires NonePass(start, emitEqual, DataItems(start[..ka.s], before))
    requires AllPass(start, emitEqual, DataItems(start[..ka.s], top.Rest()))
    ensures Parents(up, ka.buf, top.root)
    ensures NonePass(start, emitEqual, skip + DataItems(start[..ka.s], before)) && AllPass(start, emitEqual, Giving(up, top, ka))
    ensures all == skip + DataItems(start[..ka.s], before) + Giving(up, top, ka)
  {
    StartGives(up, top, ka, start, before);
    AllPassConcat(start, emitEqual, DataItems(start[..ka.s], top.Rest()), Pending(up, start));
    NonePassConcat(start, emitEqual, skip, DataItems(start[..ka.s], before));
    Joined(skip, DataItems(start[..ka.s], before), Giving(up, top, ka));
  }

  /** The first loop of `scan`: down to the start key's place.  `skip` is everything before it. */
  method Initial(root: Node, start: Key, emitEqual: bool)
    returns (up: seq<Elt>, top: Elt, ka: Cursor, state: State, ghost skip: seq<Item>)
    requires TrieOk(root)
    ensures Scanning(up, top, ka, state) && Tries(up, top)
    ensures TreeItems([], root) == skip + Giving(up, top, ka)
    ensures NonePass(start, emitEqual, skip) && AllPass(start, emitEqual, Giving(up, top, ka))
  {
    up, skip := [], [];
    var cur, s := root, 0;
    TreeItemsFlat([], root);
    assert start[..0] == [];
    while true
      invariant Tries(up, Elt(cur, 0, 0)) && Seeking(TreeItems([], root), up, cur, start, s, emitEqual, skip)
      decreases |start| - s
    {
      ghost var before;
      top, ka, state, before := FindInitial(cur, start, s, emitEqual);
      if state != Down {
        SeekEnd(TreeItems([], root), up, top, ka, start, emitEqual, skip, before);
        skip := skip + DataItems(start[..s], before);
        return;
      }
      SeekDown(TreeItems([], root), up, top, start, s, emitEqual, skip, before);
      skip := skip + DataItems(start[..s], before);
      AtEntryOk(top);
      cur := top.Data()[top.ki].layer;
      PushTries(up, top, Elt(cur, 0, 0));
      up, s := up + [top], s + 8;
    }
  }

  lemma StartGives(up: seq<Elt>, top: Elt, ka: Cursor, start: Key, before: seq<Entry>)
    requires top.Ok() && ka.s == 8 * |up| <= |start| && ka.s <= |ka.buf| && ka.buf[..ka.s] == start[..ka.s]
    requires Parents(up, start, top.root) && Entries(top.root) == before + top.Rest()
    ensures Parents(up, ka.buf, top.root)
    ensures Giving(up, top, ka) == DataItems(start[..ka.s], top.Rest()) + Pending(up, start)
    ensures DataItems(start[..ka.s], Entries(top.root)) + Pending(up, start)
         == DataItems(start[..ka.s], before) + Giving(up, top, ka)
  {
    ParentsFrame(up, start, ka.buf, top.root);
    PendingFrame(up, start, ka.buf);
    DataItemsConcat(start[..ka.s], before, top.Rest());
    Joined(DataItems(start[..ka.s], before), DataItems(start[..ka.s], top.Rest()), Pending(up, start));
  }

  /** One call of `find_next` on the top of the stack. */
  method FindOnTop(up: seq<Elt>, top0: Elt, ka0: Cursor) returns (top: Elt, ka: Cursor, state: State)
    requires Scanning(up, top0, ka0, Find) && Tries(up, top0)
    ensures Scanning(up, top, ka, state) && Tries(up, top) && state != Find
    ensures Giving(up, top, ka) == Giving(up, top0, ka0) && ToDo(up, top) == ToDo(up, top0)
  {
    top, ka, state := FindNext(top0, ka0);
    ParentsFrame(up, ka0.buf, ka.buf, top.root);
    FindGives(up, top0, ka0, top, ka);
  }

  /** The scanner gets the current key and value, and the scan moves on. */
  method EmitOnTop(up: seq<Elt>, top0: Elt, ka0: Cursor) returns (item: Item, top: Elt, ka: Cursor, state: State)
    requires Scanning(up, top0, ka0, Emit) && Tries(up, top0)
    ensures Scanning(up, top, ka, state) && Tries(up, top) && ToDo(up, top) < ToDo(up, top0)
    ensures Giving(up, top0, ka0) == [item] + Giving(up, top, ka)
  {
    item := Item(ka0.buf[..ka0.s + ka0.len], top0.Data()[top0.ki].value);
    EmitGives(up, top0, ka0);
    StepPrecedes(top0, ka0);
    top, ka, state := FindOnTop(up, Next(top0), ka0);
  }

  method Rise(up0: seq<Elt>, top0: Elt, ka0: Cursor) returns (up: seq<Elt>, top: Elt, ka: Cursor)
    requires up0 != [] && Scanning(up0, top0, ka0, Ascend) && Tries(up0, top0)
    ensures Scanning(up, top, ka, Find) && Tries(up, top)
    ensures Giving(up, top, ka) == Giving(up0, top0, ka0) && ToDo(up, top) < ToDo(up0, top0)
  {
    var n := |up0| - 1;
    assert up0 == up0[..n] + [up0[n]];
    GoUp(up0[..n], up0[n], top0, ka0);
    up, top, ka := up0[..n], Next(up0[n]), Unshift(ka0);
  }

  lemma NothingLeft(top: Elt, ka: Cursor)
    requires top.Ok() && top.Rest() == [] && ka.s <= |ka.buf|
    ensures Giving([], top, ka) == []
  {}

  /** `scan` with the forward helper.  `stop` is what the scanner answers to the items given to it so far. */
  method ScanAll(root: Node, start: Key, emitEqual: bool, stop: seq<Item> -> bool)
    returns (out: seq<Item>, ghost skip: seq<Item>, ghost rest: seq<Item>)
    requires TrieOk(root)
    ensures TreeItems([], root) == skip + (out + rest)
    ensures NonePass(start, emitEqual, skip) && AllPass(start, emitEqual, out + rest)
    ensures Stopped(out, rest, stop)
  {
    var up, top, ka, state;
    up, top, ka, state, skip := Initial(root, start, emitEqual);
    ghost var target := Giving(up, top, ka);
    out := [];
    while true
      invariant Scanning(up, top, ka, state) && Tries(up, top)
      invariant target == out + Giving(up, top, ka)
      invariant forall i {:trigger out[..i]} :: 0 < i <= |out| ==> !stop(out[..i])
      decreases ToDo(up, top), if state == Find then 1 else 0
    {
      match state {
        case Emit =>
          var item;
          ghost var before := out;
          item, top, ka, state := EmitOnTop(up, top, ka);
          Joined(out, [item], Giving(up, top, ka));
          out := out + [item];
          Pushed(before, item, stop);
          if stop(out) {
            rest := Giving(up, top, ka);
            return;
          }
        case Find =>
          top, ka, state := FindOnTop(up, top, ka);
        case Down =>
          var next := GoDown(up, top, ka);
          up, top, ka, state := up + [top], next, ShiftClear(ka), Find;
        case Ascend =>
          if up == [] {
            NothingLeft(top, ka);
            rest := [];
            return;
          }
          up, top, ka := Rise(up, top, ka);
          state := Find;
      }
    }
  }

  /** The scan went on exactly as long as the scanner did not stop it. */
  ghost predicate Stopped(out: seq<Item>, rest: seq<Item>, stop: seq<Item> -> bool) {
    && (forall i {:trigger out[..i]} :: 0 < i < |out| ==> !stop(out[..i]))
    && (rest != [] ==> out != [] && stop(out))
  }

  lemma Pushed(before: seq<Item>, item: Item, stop: seq<Item> -> bool)
    requires forall i {:trigger before[..i]} :: 0 < i <= |before| ==> !stop(before[..i])
    ensures forall i {:trigger (before + [item])[..i]} :: 0 < i < |before + [item]| ==> !stop((before + [item])[..i])
    ensures !stop(before + [item]) ==> forall i {:trigger (before + [item])[..i]} :: 0 < i <= |before + [item]| ==> !stop((before + [item])[..i])
  {
    var after := before + [item];
    forall i | 0 < i < |after| ensures !stop(after[..i]) { assert after[..i] == before[..i]; }
    assert after[..|after|] == after;
  }

  /** A forward scan gives stored keys from the start key on, each once, in ascending byte order, until the
      scanner stops it: whatever else there is comes after all that was given. */
  method ScanUntil(root: Node, start: Key, emitEqual: bool, stop: seq<Item> -> bool) returns (out: seq<Item>)
    requires TrieOk(root)
    ensures InByteOrder(out)
    ensures forall k, v :: Item(k, v) in out ==> Has(root, k, v) && Passes(start, emitEqual, k)
    ensures forall i {:trigger out[..i]} :: 0 < i < |out| ==> !stop(out[..i])
    ensures forall k, v :: Has(root, k, v) && Passes(start, emitEqual, k) && Item(k, v) !in out ==>
      out != [] && stop(out) && forall x :: x in out ==> Lex(x.key, k)
  {
    ghost var skip, rest;
    out, skip, rest := ScanAll(root, start, emitEqual, stop);
    ItemsAreContents(root);
    ghost var all := TreeItems([], root);
    GivenInOrder(all, skip, out, rest);
    forall k, v ensures Item(k, v) in all <==> Item(k, v) in skip || Item(k, v) in out || Item(k, v) in rest {}
    forall k, v | Item(k, v) in out ensures Has(root, k, v) && Passes(start, emitEqual, k) {
      assert Item(k, v) in out + rest;
    }
    forall k, v | Has(root, k, v) && Passes(start, emitEqual, k) && Item(k, v) !in out
      ensures out != [] && stop(out) && forall x :: x in out ==> Lex(x.key, k)
    {
      assert Item(k, v) in rest;
    }
  }

  lemma GivenInOrder(all: seq<Item>, skip: seq<Item>, out: seq<Item>, rest: seq<Item>)
    requires InByteOrder(all) && all == skip + (out + rest)
    ensures InByteOrder(out) && forall x, y :: x in out && y in rest ==> Lex(x.key, y.key)
  {
    var n := |skip|;
    forall i, j | 0 <= i < j < |out| ensures Lex(out[i].key, out[j].key) {
      assert out[i] == all[n + i] && out[j] == all[n + j];
    }
    forall x, y | x in out && y in rest ensures Lex(x.key, y.key) {
      var i :| 0 <= i < |out| && out[i] == x;
      var j :| 0 <= j < |rest| && rest[j] == y;
      assert all[n + i] == x && all[n + |out| + j] == y;
    }
  }

  /** With a scanner that never stops it: exactly the stored keys from the start key on. */
  method ScanForward(root: Node, start: Key, emitEqual: bool) returns (out: seq<Item>)
    requires TrieOk(root)
    ensures InByteOrder(out)
    ensures forall k, v :: Item(k, v) in out <==> Has(root, k, v) && Passes(start, emitEqual, k)
  {
    out := ScanUntil(root, start, emitEqual, _ => false);
  }

  /** A scan of a table gives what the plain map holds from the start key on. */
  method ScanTable(t: Table, start: Key, emitEqual: bool) returns (out: seq<Item>)
    requires t.Valid()
    ensures InByteOrder(out)
    ensures forall k, v :: Item(k, v) in out <==> k in t.model && t.model[k] == v && Passes(start, emitEqual, k)
  {
    out := ScanForward(t.root, start, emitEqual);
  }
}
