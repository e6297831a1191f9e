/**
  The insertion-ordered hash table inside `Json::ObjectJson` (masstree/json.cc, masstree/json.hh): items in
  an array, in the order of their insertion, linked into chains by their indices.
*/
module ObjectJson {

  type Key = string

  /** Values are handles; this is the one for null. */
  const NULL_JSON: int := 0

  /** An item; an erased one (`next_ == -2`) keeps its place. */
  datatype Slot = Erased | Item(key: Key, value: int, next: int)

  datatype Pair = Pair(key: Key, value: int)

  // ----- what the links have to be -----

  /** `bucket`: the hash sizes are powers of two, so masking is a remainder. */
  function Bucket(hashcode: Key -> nat, buckets: nat, key: Key): (b: nat)
    requires buckets > 0
    ensures b < buckets
  {
    hashcode(key) % buckets
  }

  predicate InBucket(s: Slot, hashcode: Key -> nat, buckets: nat, b: nat)
    requires buckets > 0
  {
    s.Item? && Bucket(hashcode, buckets, s.key) == b
  }

  /** The first live item of a bucket from index `i` on, or -1. */
  function First(os: seq<Slot>, hashcode: Key -> nat, buckets: nat, b: nat, i: nat): (p: int)
    requires buckets > 0
    ensures p == -1 || (i <= p < |os| && InBucket(os[p], hashcode, buckets, b))
    ensures forall j :: i <= j < |os| && (p == -1 || j < p) ==> !InBucket(os[j], hashcode, buckets, b)
    decreases |os| - i
  {
    if i >= |os| then -1
    else if InBucket(os[i], hashcode, buckets, b) then i
    else First(os, hashcode, buckets, b, i + 1)
  }

  lemma FirstIs(os: seq<Slot>, hashcode: Key -> nat, buckets: nat, b: nat, i: nat, p: int)
    requires buckets > 0
    requires p == -1 || (i <= p < |os| && InBucket(os[p], hashcode, buckets, b))
    requires forall j :: i <= j < |os| && (p == -1 || j < p) ==> !InBucket(os[j], hashcode, buckets, b)
    ensures First(os, hashcode, buckets, b, i) == p
  {
  }

  /** A link after item `i` points to the next item of the same bucket. */
  predicate LinkOk(os: seq<Slot>, hashcode: Key -> nat, buckets: nat, i: nat)
    requires buckets > 0 && i < |os|
  {
    os[i].Item? ==> os[i].next == First(os, hashcode, buckets, Bucket(hashcode, buckets, os[i].key), i + 1)
  }

  predicate HeadOk(hash: seq<int>, os: seq<Slot>, hashcode: Key -> nat, b: nat)
    requires b < |hash|
  {
    hash[b] == First(os, hashcode, |hash|, b, 0)
  }

  /** Each chain lists its bucket's items in ascending order of their indices. */
  predicate Linked(hash: seq<int>, os: seq<Slot>, hashcode: Key -> nat)
    requires |hash| > 0
  {
    && (forall b {:trigger HeadOk(hash, os, hashcode, b)} :: 0 <= b < |hash| ==> HeadOk(hash, os, hashcode, b))
    && (forall i {:trigger LinkOk(os, hashcode, |hash|, i)} :: 0 <= i < |os| ==> LinkOk(os, hashcode, |hash|, i))
  }

  /** Same items, possibly with other links. */
  predicate SameItems(os: seq<Slot>, other: seq<Slot>) {
    |os| == |other| && forall i :: 0 <= i < |os| ==>
      os[i].Item? == other[i].Item? && (os[i].Item? ==> os[i].key == other[i].key && os[i].value == other[i].value)
  }

  lemma FirstSame(os: seq<Slot>, other: seq<Slot>, hashcode: Key -> nat, buckets: nat, b: nat, i: nat)
    requires buckets > 0 && SameItems(os, other)
    ensures First(other, hashcode, buckets, b, i) == First(os, hashcode, buckets, b, i)
  {
    FirstIs(other, hashcode, buckets, b, i, First(os, hashcode, buckets, b, i));
  }

  // ----- contents -----

  /** The live items in the order of their insertion. */
  function Live(os: seq<Slot>): seq<Pair> {
    if os == [] then []
    else
      var n := |os| - 1;
      if os[n].Item? then Live(os[..n]) + [Pair(os[n].key, os[n].value)] else Live(os[..n])
  }

  predicate KeysDistinct(os: seq<Slot>) {
    forall i, j :: 0 <= i < j < |os| && os[i].Item? && os[j].Item? ==> os[i].key != os[j].key
  }

  /** A pair list without one key. */
  function Dropped(ps: seq<Pair>, key: Key): seq<Pair> {
    if ps == [] then []
    else
      var n := |ps| - 1;
      if ps[n].key == key then Dropped(ps[..n], key) else Dropped(ps[..n], key) + [ps[n]]
  }

  lemma {:induction false} LiveSame(os: seq<Slot>, other: seq<Slot>)
    requires SameItems(os, other)
    ensures Live(other) == Live(os)
  {
    if os != [] { LiveSame(os[..|os| - 1], other[..|os| - 1]); }
  }

  lemma DropPush(ps: seq<Pair>, x: Pair, key: Key)
    ensures Dropped(ps + [x], key) == if x.key == key then Dropped(ps, key) else Dropped(ps, key) + [x]
  {
    assert (ps + [x])[..|ps|] == ps;
  }

  lemma {:induction false} LiveErased(os: seq<Slot>, p: nat)
    requires KeysDistinct(os) && p < |os| && os[p].Item?
    ensures Live(os[p := Erased]) == Dropped(Live(os), os[p].key)
  {
    var n := |os| - 1;
    var front, last, key := os[..n], os[n], os[p].key;
    LiveSnoc(os, front, last, key);
    if p == n {
      assert os[p := Erased] == front + [Erased];
      LivePush(front, Erased);
      DropAbsent(front, key);
    } else {
      LiveErased(front, p);
      assert os[p := Erased] == front[p := Erased] + [last];
      LivePush(front[p := Erased], last);
    }
  }

  lemma LiveSnoc(os: seq<Slot>, front: seq<Slot>, last: Slot, key: Key)
    requires os == front + [last]
    ensures Dropped(Live(os), key) ==
      if last.Item? && last.key != key then Dropped(Live(front), key) + [Pair(last.key, last.value)] else Dropped(Live(front), key)
  {
    LivePush(front, last);
    if last.Item? { DropPush(Live(front), Pair(last.key, last.value), key); }
  }

  lemma {:induction false} DropAbsent(os: seq<Slot>, key: Key)
    requires forall i :: 0 <= i < |os| && os[i].Item? ==> os[i].key != key
    ensures Dropped(Live(os), key) == Live(os)
  {
    if os != [] {
      var n := |os| - 1;
      DropAbsent(os[..n], key);
      if os[n].Item? { DropPush(Live(os[..n]), Pair(os[n].key, os[n].value), key); }
    }
  }

  lemma LivePush(os: seq<Slot>, s: Slot)
    ensures Live(os + [s]) == if s.Item? then Live(os) + [Pair(s.key, s.value)] else Live(os)
  {
    assert (os + [s])[..|os|] == os;
  }

  lemma {:induction false} LiveHas(os: seq<Slot>, i: nat)
    requires i < |os| && os[i].Item?
    ensures Pair(os[i].key, os[i].value) in Live(os)
  {
    if i < |os| - 1 { LiveHas(os[..|os| - 1], i); }
  }

  lemma {:induction false} LiveFrom(os: seq<Slot>, x: Pair) returns (i: nat)
    requires x in Live(os)
    ensures i < |os| && os[i].Item? && x == Pair(os[i].key, os[i].value)
  {
    var n := |os| - 1;
    if os[n].Item? && x == Pair(os[n].key, os[n].value) { i := n; } else { i := LiveFrom(os[..n], x); }
  }

  // ----- how operations change chains -----

  /** Where the search for a key in its bucket's chain stands: `last` is the item whose link was followed
      (-1: the bucket's head), `p` the item reached. */
  ghost predicate Walking(hash: seq<int>, os: seq<Slot>, hashcode: Key -> nat, b: nat, last: int, p: int)
    requires |hash| > 0
  {
    && b < |hash| && -1 <= last < |os|
    && (last >= 0 ==> InBucket(os[last], hashcode, |hash|, b))
    && p == First(os, hashcode, |hash|, b, last + 1)
  }

  lemma WalkStarts(hash: seq<int>, os: seq<Slot>, hashcode: Key -> nat, b: nat)
    requires |hash| > 0 && Linked(hash, os, hashcode) && b < |hash|
    ensures Walking(hash, os, hashcode, b, -1, hash[b])
  {
    assert HeadOk(hash, os, hashcode, b);
  }

  lemma WalkOn(hash: seq<int>, os: seq<Slot>, hashcode: Key -> nat, b: nat, last: int, p: int)
    requires |hash| > 0 && Linked(hash, os, hashcode) && Walking(hash, os, hashcode, b, last, p) && p >= 0
    ensures Walking(hash, os, hashcode, b, p, os[p].next)
  {
    assert LinkOk(os, hashcode, |hash|, p);
  }

  /** The link that ends a chain gets the new item. */
  lemma AppendFirst(os: seq<Slot>, s: Slot, hashcode: Key -> nat, buckets: nat, b: nat, i: nat)
    requires buckets > 0 && i <= |os|
    ensures First(os + [s], hashcode, buckets, b, i) ==
      var p := First(os, hashcode, buckets, b, i);
      if p != -1 then p else if InBucket(s, hashcode, buckets, b) then |os| else -1
  {
    var p := First(os, hashcode, buckets, b, i);
    var q := if p != -1 then p else if InBucket(s, hashcode, buckets, b) then |os| else -1;
    FirstIs(os + [s], hashcode, buckets, b, i, q);
  }

  /** An erased item leaves every chain. */
  lemma EraseFirst(os: seq<Slot>, p: nat, hashcode: Key -> nat, buckets: nat, b: nat, i: nat)
    requires buckets > 0 && p < |os| && os[p].Item?
    ensures First(os[p := Erased], hashcode, buckets, b, i) ==
      var q := First(os, hashcode, buckets, b, i);
      if q == p then First(os, hashcode, buckets, b, p + 1) else q
  {
    var q := First(os, hashcode, buckets, b, i);
    FirstIs(os[p := Erased], hashcode, buckets, b, i, if q == p then First(os, hashcode, buckets, b, p + 1) else q);
  }

  /** Writing through the link at which a walk stands. */
  function SetHash(hash: seq<int>, b: nat, last: int, to: int): (r: seq<int>)
    requires b < |hash|
    ensures |r| == |hash|
  {
    if last == -1 then hash[b := to] else hash
  }

  function SetLink(os: seq<Slot>, last: int, to: int): (r: seq<Slot>)
    requires -1 <= last < |os| && (last >= 0 ==> os[last].Item?)
    ensures SameItems(os, r)
  {
    if last == -1 then os else os[last := os[last].(next := to)]
  }

  lemma LinkedAppend(hash: seq<int>, os: seq<Slot>, hashcode: Key -> nat, b: nat, last: int, s: Slot)
    requires |hash| > 0 && Linked(hash, os, hashcode) && Walking(hash, os, hashcode, b, last, -1)
    requires s.Item? && s.next == -1 && Bucket(hashcode, |hash|, s.key) == b
    ensures Linked(SetHash(hash, b, last, |os|), SetLink(os, last, |os|) + [s], hashcode)
  {
    var n, hash', mid := |os|, SetHash(hash, b, last, |os|), SetLink(os, last, |os|);
    var os' := mid + [s];
    forall c | 0 <= c < |hash| ensures HeadOk(hash', os', hashcode, c) {
      assert HeadOk(hash, os, hashcode, c);
      AppendFirst(mid, s, hashcode, |hash|, c, 0);
      FirstSame(os, mid, hashcode, |hash|, c, 0);
    }
    forall i | 0 <= i < |os'| ensures LinkOk(os', hashcode, |hash|, i) {
      if i < n {
        assert LinkOk(os, hashcode, |hash|, i);
        if os[i].Item? {
          var c := Bucket(hashcode, |hash|, os[i].key);
          AppendFirst(mid, s, hashcode, |hash|, c, i + 1);
          FirstSame(os, mid, hashcode, |hash|, c, i + 1);
        }
      }
    }
  }

  /** After an erasure, the first item of a bucket from `i` on. */
  lemma FirstAfterErase(os: seq<Slot>, last: int, to: int, p: nat, hashcode: Key -> nat, buckets: nat, c: nat, i: nat)
    requires buckets > 0 && -1 <= last < |os| && (last >= 0 ==> os[last].Item?) && p < |os| && os[p].Item?
    ensures First(SetLink(os, last, to)[p := Erased], hashcode, buckets, c, i) ==
      if First(os, hashcode, buckets, c, i) == p then First(os, hashcode, buckets, c, p + 1) else First(os, hashcode, buckets, c, i)
  {
    var mid := SetLink(os, last, to);
    EraseFirst(mid, p, hashcode, buckets, c, i);
    FirstSame(os, mid, hashcode, buckets, c, i);
    FirstSame(os, mid, hashcode, buckets, c, p + 1);
  }

  lemma LinkErased(hash: seq<int>, os: seq<Slot>, hashcode: Key -> nat, b: nat, last: int, p: nat, i: nat)
    requires |hash| > 0 && Linked(hash, os, hashcode) && Walking(hash, os, hashcode, b, last, p) && i < |os|
    ensures LinkOk(SetLink(os, last, os[p].next)[p := Erased], hashcode, |hash|, i)
  {
    assert LinkOk(os, hashcode, |hash|, i) && LinkOk(os, hashcode, |hash|, p);
    if i != p && os[i].Item? {
      FirstAfterErase(os, last, os[p].next, p, hashcode, |hash|, Bucket(hashcode, |hash|, os[i].key), i + 1);
    }
  }

  lemma LinkedErase(hash: seq<int>, os: seq<Slot>, hashcode: Key -> nat, b: nat, last: int, p: nat)
    requires |hash| > 0 && Linked(hash, os, hashcode) && Walking(hash, os, hashcode, b, last, p)
    ensures Linked(SetHash(hash, b, last, os[p].next), SetLink(os, last, os[p].next)[p := Erased], hashcode)
  {
    var to := os[p].next;
    var hash', os' := SetHash(hash, b, last, to), SetLink(os, last, to)[p := Erased];
    assert LinkOk(os, hashcode, |hash|, p);
    forall c | 0 <= c < |hash| ensures HeadOk(hash', os', hashcode, c) {
      assert HeadOk(hash, os, hashcode, c);
      FirstAfterErase(os, last, to, p, hashcode, |hash|, c, 0);
    }
    forall i | 0 <= i < |os'| ensures LinkOk(os', hashcode, |hash|, i) {
      LinkErased(hash, os, hashcode, b, last, p, i);
    }
  }

  // ----- the table -----

  class Table {
    const hashcode: Key -> nat
    var hash: seq<int>
    /** `os_[0]` to `os_[n_ - 1]` */
    var os: seq<Slot>
    var capacity: nat
    var size: nat

    ghost predicate Valid()
      reads this
    {
      && |os| <= capacity && (hash == [] ==> os == [])
      && (hash != [] ==> Linked(hash, os, hashcode))
      && KeysDistinct(os) && size == |Live(os)|
    }

    function Contents(): seq<Pair>
      reads this
    {
      Live(os)
    }

    /** `key` is at index `p`, or nowhere. */
    ghost predicate At(key: Key, p: int)
      reads this
    {
      if p >= 0 then p < |os| && os[p].Item? && os[p].key == key
      else p == -1 && forall i :: 0 <= i < |os| && os[i].Item? ==> os[i].key != key
    }

    constructor (hashcode: Key -> nat)
      ensures Valid() && Contents() == [] && hash == []
    {
      this.hashcode := hashcode;
      hash, os, capacity, size := [], [], 0, 0;
    }

    /** The search loop all operations share: the link it stops at and how many it followed. */
    method Walk(key: Key) returns (b: nat, last: int, p: int, chain: nat)
      requires Valid() && hash != []
      ensures b == Bucket(hashcode, |hash|, key) && Walking(hash, os, hashcode, b, last, p) && At(key, p)
    {
      b := Bucket(hashcode, |hash|, key);
      last, p, chain := -1, hash[b], 0;
      WalkStarts(hash, os, hashcode, b);
      while p >= 0 && os[p].key != key
        invariant Walking(hash, os, hashcode, b, last, p)
        invariant forall j :: 0 <= j <= last && os[j].Item? ==> os[j].key != key
        decreases if p >= 0 then |os| - p else 0
      {
        WalkOn(hash, os, hashcode, b, last, p);
        assert forall j :: last < j < p && os[j].Item? ==> !InBucket(os[j], hashcode, |hash|, b);
        last, p, chain := p, os[p].next, chain + 1;
      }
      assert p < 0 ==> forall j :: last < j < |os| && os[j].Item? ==> !InBucket(os[j], hashcode, |hash|, b);
    }

    /** `find` */
    method FindKey(key: Key) returns (p: int)
      requires Valid()
      ensures At(key, p)
    {
      p := -1;
      if hash != [] {
        var b, last, chain;
        b, last, p, chain := Walk(key);
      }
    }

    /** `find_insert` */
    method FindInsert(key: Key, value: int) returns (p: nat)
      requires Valid()
      modifies this
      ensures Valid() && hash != [] && At(key, p)
      ensures if (exists x :: x in old(Contents()) && x.key == key) then os == old(os)
              else p == |old(os)| && Contents() == old(Contents()) + [Pair(key, value)]
    {
      if hash == [] {
        hash := seq(8, _ => -1);
        assert forall b {:trigger HeadOk(hash, os, hashcode, b)} :: 0 <= b < |hash| ==> HeadOk(hash, os, hashcode, b);
      }
      var b, last, q, chain := Walk(key);
      if q >= 0 {
        LiveHas(os, q);
        return q;
      }
      NotStored(key);
      p := |os|;
      Append(key, value, b, last);
      if chain > 4 { Rehash(); }
    }

    /** `get_insert`: a new key starts with the null value. */
    method GetInsert(key: Key) returns (p: nat)
      requires Valid()
      modifies this
      ensures Valid() && hash != [] && At(key, p)
      ensures if (exists x :: x in old(Contents()) && x.key == key) then os == old(os)
              else p == |old(os)| && Contents() == old(Contents()) + [Pair(key, NULL_JSON)]
    {
      p := FindInsert(key, NULL_JSON);
    }

    lemma NotStored(key: Key)
      requires At(key, -1)
      ensures !exists x :: x in Contents() && x.key == key
    {
      forall x | x in Contents() ensures x.key != key {
        var i := LiveFrom(os, x);
      }
    }

    /** A new item goes to the end of the array and of its chain; a full array grows first. */
    method Append(key: Key, value: int, b: nat, last: int)
      requires Valid() && hash != [] && At(key, -1)
      requires b == Bucket(hashcode, |hash|, key) && Walking(hash, os, hashcode, b, last, -1)
      modifies this
      ensures Valid() && hash != [] && |os| == |old(os)| + 1 && os[|old(os)|] == Item(key, value, -1)
      ensures Contents() == old(Contents()) + [Pair(key, value)]
    {
      var n, item := |os|, Item(key, value, -1);
      LinkedAppend(hash, os, hashcode, b, last, item);
      ghost var was := os;
      hash, os := SetHash(hash, b, last, n), SetLink(os, last, n);
      LiveSame(was, os);
      LivePush(os, item);
      if n == capacity { Grow(); }
      os := os + [item];
      size := size + 1;
    }

    /** `grow(false)`: the items move to a larger array. */
    method Grow()
      modifies `capacity
      ensures capacity > old(capacity)
    {
      capacity := if capacity > 0 then capacity * 2 else 8;
    }

    /** `rehash`: twice as many buckets, chains rebuilt from the last item to the first. */
    method Rehash()
      requires Valid() && hash != []
      modifies `hash, `os
      ensures Valid() && |hash| == 2 * |old(hash)| && SameItems(old(os), os) && Contents() == old(Contents())
    {
      hash := seq(|hash| * 2, _ => -1);
      var i := |os|;
      while i > 0
        invariant 0 <= i <= |os| && |hash| == 2 * |old(hash)| && SameItems(old(os), os)
        invariant forall b :: 0 <= b < |hash| ==> hash[b] == First(os, hashcode, |hash|, b, i)
        invariant forall j {:trigger LinkOk(os, hashcode, |hash|, j)} :: i <= j < |os| ==> LinkOk(os, hashcode, |hash|, j)
      {
        i := i - 1;
        if os[i].Item? { RehashItem(i); }
      }
      LiveSame(old(os), os);
      assert forall b {:trigger HeadOk(hash, os, hashcode, b)} :: 0 <= b < |hash| ==> HeadOk(hash, os, hashcode, b);
    }

    /** One item becomes the head of its chain. */
    method RehashItem(i: nat)
      requires i < |os| && os[i].Item? && hash != []
      requires forall b :: 0 <= b < |hash| ==> hash[b] == First(os, hashcode, |hash|, b, i + 1)
      requires forall j {:trigger LinkOk(os, hashcode, |hash|, j)} :: i < j < |os| ==> LinkOk(os, hashcode, |hash|, j)
      modifies `hash, `os
      ensures SameItems(old(os), os) && |hash| == |old(hash)|
      ensures forall b :: 0 <= b < |hash| ==> hash[b] == First(os, hashcode, |hash|, b, i)
      ensures forall j {:trigger LinkOk(os, hashcode, |hash|, j)} :: i <= j < |os| ==> LinkOk(os, hashcode, |hash|, j)
    {
      var b := Bucket(hashcode, |hash|, os[i].key);
      ghost var was := os;
      os := SetLink(os, i, hash[b]);
      hash := hash[b := i];
      forall c | 0 <= c < |hash| ensures hash[c] == First(os, hashcode, |hash|, c, i) {
        FirstSame(was, os, hashcode, |hash|, c, i);
      }
      forall j | i <= j < |os| ensures LinkOk(os, hashcode, |hash|, j) {
        if os[j].Item? { FirstSame(was, os, hashcode, |hash|, Bucket(hashcode, |hash|, os[j].key), j + 1); }
        if j > i { assert LinkOk(was, hashcode, |hash|, j); }
      }
    }

    /** `erase(Str)`; there has been an insertion before. */
    method EraseKey(key: Key) returns (n: nat)
      requires Valid() && hash != []
      modifies this
      ensures Valid() && hash != [] && Contents() == Dropped(old(Contents()), key)
      ensures n == |old(Contents())| - |Contents()| && n == if (exists x :: x in old(Contents()) && x.key == key) then 1 else 0
    {
      var b, last, p, chain := Walk(key);
      if p >= 0 {
        LiveHas(os, p);
        Unlink(b, last, p);
        n := 1;
      } else {
        NotStored(key);
        DropAbsent(os, key);
        n := 0;
      }
    }

    /** The item at which a walk stands leaves its chain and the table. */
    method Unlink(b: nat, last: int, p: nat)
      requires Valid() && hash != [] && Walking(hash, os, hashcode, b, last, p)
      modifies this
      ensures Valid() && hash != [] && Contents() == Dropped(old(Contents()), old(os[p].key))
      ensures |Contents()| == |old(Contents())| - 1
    {
      LinkedErase(hash, os, hashcode, b, last, p);
      ghost var was := os;
      var to := os[p].next;
      hash, os := SetHash(hash, b, last, to), SetLink(os, last, to);
      LiveSame(was, os);
      LiveErased(os, p);
      LiveShorter(os, p);
      os := os[p := Erased];
      size := size - 1;
    }

    /** The walk of `erase(int)` always reaches the item. */
    method WalkTo(p: nat) returns (b: nat, last: int)
      requires Valid() && p < |os| && os[p].Item?
      ensures hash != [] && Walking(hash, os, hashcode, b, last, p)
    {
      b := Bucket(hashcode, |hash|, os[p].key);
      last := -1;
      var q := hash[b];
      WalkStarts(hash, os, hashcode, b);
      while q >= 0 && q != p
        invariant Walking(hash, os, hashcode, b, last, q) && last < p && 0 <= q <= p
        decreases p - q
      {
        WalkOn(hash, os, hashcode, b, last, q);
        last, q := q, os[q].next;
        assert InBucket(os[p], hashcode, |hash|, b);
      }
    }

    /** `erase(int)` */
    method EraseAt(p: nat)
      requires Valid() && p < |os| && os[p].Item?
      modifies this
      ensures Valid() && Contents() == Dropped(old(Contents()), old(os[p].key))
    {
      var b, last := WalkTo(p);
      Unlink(b, last, p);
    }
  }

  lemma {:induction false} LiveShorter(os: seq<Slot>, p: nat)
    requires p < |os| && os[p].Item?
    ensures |Live(os[p := Erased])| == |Live(os)| - 1
  {
    var n := |os| - 1;
    if p == n {
      assert os[p := Erased][..n] == os[..n];
    } else {
      LiveShorter(os[..n], p);
      assert os[p := Erased][..n] == os[..n][p := Erased];
    }
  }
}
