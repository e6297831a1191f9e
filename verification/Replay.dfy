/**
  Log replay of one key (masstree/log.hh, `replay_query::apply`).

  Recovery replays every log without merging them by time.  A row under recovery is a chain:
  delta markers, each parking a modification whose predecessor has not arrived, above at most
  one real row or remove marker.  `chain[0]` is the pointer the tree holds and `chain[i + 1]`
  is the `prev_` of the delta marker `chain[i]`.
*/
module Replay {
  import opened Common

  type Str = seq<Byte>

  /** Columns of a row, and a change to some of them. */
  type Columns = map<nat, Str>

  datatype Row =
    | Value(ts: nat, cols: Columns)
    | Tombstone(ts: nat)
    | Delta(ts: nat, prevTs: nat, change: Columns)

  datatype Record =
    | Put(ts: nat, cols: Columns)
    | Put1(ts: nat, value: Str)
    | Remove(ts: nat)
    | Modify(ts: nat, prevTs: nat, change: Columns)

  /** `ts | 1`, a marker timestamp. */
  function Mark(ts: nat): nat {
    if ts % 2 == 0 then ts + 1 else ts
  }

  /** The timestamp `begin_replay_*` gives the query. */
  function QueryTs(q: Record): nat {
    if q.Remove? then Mark(q.ts) else q.ts
  }

  /** The row `R::create`, `R::create1` or a remove record makes. */
  function Created(q: Record): Row
    requires !q.Modify?
  {
    match q
    case Put(ts, cols) => Value(ts, cols)
    case Put1(ts, value) => Value(ts, map[0 := value])
    case Remove(ts) => Tombstone(Mark(ts))
  }

  /** `R::update`: the row with a change applied. */
  function Updated(r: Row, change: Columns, ts: nat): Row
    requires !r.Delta?
  {
    Value(ts, (if r.Value? then r.cols else map[]) + change)
  }

  /** Only delta markers have a predecessor. */
  predicate IsChain(c: seq<Row>) {
    forall i :: 0 <= i < |c| - 1 ==> c[i].Delta?
  }

  // ----- what apply computes -----

  /** The chain with the record put in its place, before the final clean-up. */
  function Place(c: seq<Row>, q: Record): seq<Row> {
    if c != [] && c[0].Delta? && c[0].ts > QueryTs(q) then [c[0]] + Place(c[1..], q)
    else if c != [] && c[0].ts >= QueryTs(q) then c
    else if !q.Modify? then [Created(q)]
    else if c != [] && c[0].ts == q.prevTs && !c[0].Delta? then [Updated(c[0], q.change, q.ts)]
    else [Delta(Mark(q.ts), q.prevTs, q.change)] + c
  }

  /** A delta marker meets the row it was waiting for. */
  predicate Meets(d: Row, below: seq<Row>) {
    d.Delta? && |below| == 1 && !below[0].Delta? && d.prevTs == below[0].ts
  }

  /** The clean-up: from the bottom up, delta markers melt into the row they were waiting for. */
  function Settle(c: seq<Row>): seq<Row> {
    if c == [] || !c[0].Delta? then c
    else
      var below := Settle(c[1..]);
      if Meets(c[0], below)
      then [Updated(below[0], c[0].change, if c[0].ts > 0 then c[0].ts - 1 else 0)]
      else [c[0]] + below
  }

  function Apply(c: seq<Row>, q: Record): seq<Row> {
    Settle(Place(c, q))
  }

  function Deltas(c: seq<Row>): nat {
    if c == [] then 0 else (if c[0].Delta? then 1 else 0) + Deltas(c[1..])
  }

  // ----- histories -----

  /** One key's history as the server logs it: even, strictly increasing timestamps, and a
      modify record names the live row just before it. */
  predicate History(h: seq<Record>) {
    && (forall i :: 0 <= i < |h| ==> h[i].ts % 2 == 0)
    && (forall i, j :: 0 <= i < j < |h| ==> h[i].ts < h[j].ts)
    && (forall i :: 0 <= i < |h| && h[i].Modify? ==>
          i > 0 && !h[i - 1].Remove? && h[i].prevTs == h[i - 1].ts)
  }

  /** The row after the first `k` operations ran in order. */
  function InOrder(h: seq<Record>, k: nat): (r: Row)
    requires History(h) && 0 < k <= |h|
    ensures !r.Delta? && (r.Tombstone? <==> h[k - 1].Remove?) && r.ts == QueryTs(h[k - 1])
  {
    if h[k - 1].Modify? then Updated(InOrder(h, k - 1), h[k - 1].change, h[k - 1].ts)
    else Created(h[k - 1])
  }

  // ----- the columns of a row -----

  /** The record writes this value to this column. */
  predicate Writes(q: Record, c: nat, v: Str) {
    match q
    case Put(_, cols) => c in cols && cols[c] == v
    case Put1(_, value) => c == 0 && v == value
    case Remove(_) => false
    case Modify(_, _, change) => c in change && change[c] == v
  }

  predicate WritesColumn(q: Record, c: nat) {
    match q
    case Put(_, cols) => c in cols
    case Put1(_, _) => c == 0
    case Remove(_) => false
    case Modify(_, _, change) => c in change
  }

  /** Record `i` wrote the value, and nothing below `k` has overwritten, replaced or removed it since. */
  predicate LastWrite(h: seq<Record>, k: nat, i: nat, c: nat, v: Str)
    requires k <= |h|
  {
    i < k && Writes(h[i], c, v) && forall j :: i < j < k ==> h[j].Modify? && !WritesColumn(h[j], c)
  }

  ghost predicate Written(h: seq<Record>, k: nat, c: nat, v: Str)
    requires k <= |h|
  {
    exists i: nat :: LastWrite(h, k, i, c, v)
  }

  /** The row has this value in this column. */
  predicate Holds(r: Row, c: nat, v: Str) {
    r.Value? && c in r.cols && r.cols[c] == v
  }

  /** A row has just the columns that its operations wrote last. */
  lemma {:induction false} RowColumns(h: seq<Record>, k: nat, c: nat, v: Str)
    requires History(h) && 0 < k <= |h|
    ensures Holds(InOrder(h, k), c, v) <==> Written(h, k, c, v)
  {
    var q := h[k - 1];
    if Written(h, k, c, v) {
      var i: nat :| LastWrite(h, k, i, c, v);
      if i < k - 1 {
        assert h[k - 1].Modify?;
        assert LastWrite(h, k - 1, i, c, v);
        RowColumns(h, k - 1, c, v);
      }
    }
    if Holds(InOrder(h, k), c, v) {
      if Writes(q, c, v) {
        assert LastWrite(h, k, k - 1, c, v);
      } else {
        RowColumns(h, k - 1, c, v);
        var i: nat :| LastWrite(h, k - 1, i, c, v);
        assert LastWrite(h, k, i, c, v);
      }
    }
  }

  /** What the chain must be once exactly the records of `s` with index below `k` were seen. */
  function Canon(h: seq<Record>, s: set<nat>, k: nat): seq<Row>
    requires k <= |h|
  {
    if k == 0 then []
    else if k - 1 !in s then Canon(h, s, k - 1)
    else
      var q := h[k - 1];
      if !q.Modify? then [Created(q)]
      else
        var below := Canon(h, s, k - 1);
        if |below| == 1 && !below[0].Delta? && below[0].ts == q.prevTs
        then [Updated(below[0], q.change, q.ts)]
        else [Delta(Mark(q.ts), q.prevTs, q.change)] + below
  }

  /** Canonical chains are chains, settled, and hold only timestamps of seen records. */
  lemma {:induction false} CanonShape(h: seq<Record>, s: set<nat>, k: nat)
    requires History(h) && k <= |h|
    ensures IsChain(Canon(h, s, k)) && Settle(Canon(h, s, k)) == Canon(h, s, k)
    ensures forall x :: x in Canon(h, s, k) ==> k > 0 && x.ts <= h[k - 1].ts + 1
    ensures forall x :: x in Canon(h, s, k) && x.Delta? ==> x.ts % 2 == 1
  {
    if k > 0 {
      CanonShape(h, s, k - 1);
    }
  }

  /** The newest record goes on top. */
  lemma ApplyNewest(h: seq<Record>, s: set<nat>, i: nat)
    requires History(h) && i < |h| && i !in s
    ensures Apply(Canon(h, s, i), h[i]) == Canon(h, s + {i}, i + 1)
  {
    var c := Canon(h, s, i);
    CanonShape(h, s, i);
    CanonIgnores(h, s, i, i);
    if h[i].Modify? && !(c != [] && c[0].ts == h[i].prevTs) {
      assert ([Delta(Mark(h[i].ts), h[i].prevTs, h[i].change)] + c)[1..] == c;
    }
  }

  /** A record below a parked modification is placed below it. */
  lemma ApplyBelow(c: seq<Row>, d: Row, q: Record)
    requires d.Delta? && d.ts > QueryTs(q)
    ensures Apply([d] + c, q) ==
      if Meets(d, Apply(c, q)) then [Updated(Apply(c, q)[0], d.change, d.ts - 1)] else [d] + Apply(c, q)
  {
    assert ([d] + c)[1..] == c;
    assert ([d] + Place(c, q))[1..] == Place(c, q);
  }

  /** The same under a modification seen before. */
  lemma ApplyUnder(h: seq<Record>, s: set<nat>, i: nat, j: nat)
    requires History(h) && i < j < |h| && i !in s && j in s && h[j].Modify?
    requires Apply(Canon(h, s, j), h[i]) == Canon(h, s + {i}, j)
    ensures Apply(Canon(h, s, j + 1), h[i]) == Canon(h, s + {i}, j + 1)
  {
    CanonShape(h, s, j);
    ApplyBelow(Canon(h, s, j), Delta(Mark(h[j].ts), h[j].prevTs, h[j].change), h[i]);
  }

  /** Replaying a record not seen before turns one canonical chain into the next. */
  lemma {:induction false} ApplyCanon(h: seq<Record>, s: set<nat>, i: nat, k: nat)
    requires History(h) && i < k <= |h| && i !in s
    ensures Apply(Canon(h, s, k), h[i]) == Canon(h, s + {i}, k)
  {
    var j := k - 1;
    if j == i {
      ApplyNewest(h, s, i);
    } else {
      ApplyCanon(h, s, i, j);
      if j in s && h[j].Modify? { ApplyUnder(h, s, i, j); }
    }
  }

  /** Indices at or above `k` do not matter to a canonical chain. */
  lemma {:induction false} CanonIgnores(h: seq<Record>, s: set<nat>, i: nat, k: nat)
    requires k <= |h| && k <= i
    ensures Canon(h, s + {i}, k) == Canon(h, s, k)
  {
    if k > 0 { CanonIgnores(h, s, i, k - 1); }
  }

  /** A record older than a completely seen prefix changes nothing. */
  lemma {:induction false} ApplyStale(h: seq<Record>, s: set<nat>, i: nat, c: nat, k: nat)
    requires History(h) && i < c <= k <= |h| && forall x: nat :: x < c ==> x in s
    ensures Apply(Canon(h, s, k), h[i]) == Canon(h, s, k)
  {
    if k == c {
      CanonSuffix(h, s, 0, k);
    } else {
      var q := h[k - 1];
      CanonShape(h, s, k);
      ApplyStale(h, s, i, c, k - 1);
      if k - 1 in s && q.Modify? {
        ApplyBelow(Canon(h, s, k - 1), Delta(Mark(q.ts), q.prevTs, q.change), h[i]);
      }
    }
  }

  /** From a seen put, replace or remove on, with everything later seen too, the chain is the
      in-order row alone. */
  lemma {:induction false} CanonSuffix(h: seq<Record>, s: set<nat>, b: nat, k: nat)
    requires History(h) && b < k <= |h| && !h[b].Modify?
    requires forall x: nat :: b <= x < k ==> x in s
    ensures Canon(h, s, k) == [InOrder(h, k)]
  {
    if b < k - 1 { CanonSuffix(h, s, b, k - 1); }
  }

  // ----- any order -----

  /** Every entry of `order` is the index of one of `n` records. */
  predicate Names(order: seq<nat>, n: nat) {
    forall a :: 0 <= a < |order| ==> order[a] < n
  }

  /** No index at or above `c` occurs twice. */
  predicate OnceFrom(order: seq<nat>, c: nat) {
    forall a, b :: 0 <= a < b < |order| && order[a] == order[b] ==> order[a] < c
  }

  /** The chain after replaying the records named by `order`, one after the other. */
  function Replayed(h: seq<Record>, c: seq<Row>, order: seq<nat>): seq<Row>
    requires Names(order, |h|)
  {
    if order == [] then c
    else Apply(Replayed(h, c, order[..|order| - 1]), h[order[|order| - 1]])
  }

  function Indices(order: seq<nat>): set<nat> {
    set i | i in order
  }

  lemma IndicesPush(order: seq<nat>, i: nat)
    ensures Indices(order + [i]) == Indices(order) + {i}
  {
    assert forall x :: x in order + [i] <==> x in order || x == i;
  }

  lemma SeenTwice(order: seq<nat>, c: nat)
    requires OnceFrom(order, c) && order != []
    requires order[|order| - 1] in Below(c) + Indices(order[..|order| - 1])
    ensures order[|order| - 1] < c
  {
  }

  /** From a completely seen prefix of `c` records (none, or a checkpoint's), any order, with
      each later record at most once, leads to the canonical chain of what was seen. */
  lemma {:induction false} ReplayedIsCanon(h: seq<Record>, c: nat, order: seq<nat>)
    requires History(h) && c <= |h| && Names(order, |h|) && OnceFrom(order, c)
    ensures Replayed(h, Canon(h, Below(c), |h|), order) == Canon(h, Below(c) + Indices(order), |h|)
  {
    if order == [] {
      assert Below(c) + Indices(order) == Below(c);
    } else {
      var front, i := order[..|order| - 1], order[|order| - 1];
      var start, s := Canon(h, Below(c), |h|), Below(c) + Indices(front);
      FrontOk(order, |h|, c);
      SeenNow(order, c);
      calc {
        Replayed(h, start, order);
        Apply(Replayed(h, start, front), h[i]);
        { ReplayedIsCanon(h, c, front); }
        Apply(Canon(h, s, |h|), h[i]);
        { ApplyNext(h, c, order, i, s); }
        Canon(h, s + {i}, |h|);
        Canon(h, Below(c) + Indices(order), |h|);
      }
    }
  }

  lemma FrontOk(order: seq<nat>, n: nat, c: nat)
    requires Names(order, n) && OnceFrom(order, c) && order != []
    ensures Names(order[..|order| - 1], n) && OnceFrom(order[..|order| - 1], c)
  {}

  lemma SeenNow(order: seq<nat>, c: nat)
    requires order != []
    ensures Below(c) + Indices(order[..|order| - 1]) + {order[|order| - 1]} == Below(c) + Indices(order)
  {
    var front, i := order[..|order| - 1], order[|order| - 1];
    IndicesPush(front, i);
    assert front + [i] == order;
  }

  lemma ApplyNext(h: seq<Record>, c: nat, order: seq<nat>, i: nat, s: set<nat>)
    requires History(h) && c <= |h| && Names(order, |h|) && OnceFrom(order, c) && order != []
    requires i == order[|order| - 1] && s == Below(c) + Indices(order[..|order| - 1])
    ensures Apply(Canon(h, s, |h|), h[i]) == Canon(h, s + {i}, |h|)
  {
    if i in s {
      SeenTwice(order, c);
      assert s + {i} == s;
      ApplyStale(h, s, i, c, |h|);
    } else {
      ApplyCanon(h, s, i, |h|);
    }
  }

  /** Each record replayed exactly once, in any order, ends in the row that running the
      operations in order made, with no delta marker left. */
  lemma ReplayOrderIrrelevant(h: seq<Record>, order: seq<nat>)
    requires History(h) && h != []
    requires |order| == |h| && Names(order, |h|) && OnceFrom(order, 0)
    ensures Replayed(h, [], order) == [InOrder(h, |h|)]
  {
    ReplayedIsCanon(h, 0, order);
    assert Below(0) + Indices(order) == Indices(order);
    CanonEmpty(h, |h|);
    AllIndices(order, |h|);
    CanonSuffix(h, Indices(order), 0, |h|);
  }

  lemma {:induction false} CanonEmpty(h: seq<Record>, k: nat)
    requires k <= |h|
    ensures Canon(h, Below(0), k) == []
  {
    if k > 0 { CanonEmpty(h, k - 1); }
  }

  /** Distinct numbers below their count are all of them. */
  lemma AllIndices(order: seq<nat>, n: nat)
    requires |order| == n && Names(order, n) && OnceFrom(order, 0)
    ensures forall x: nat :: x < n ==> x in Indices(order)
  {
    DistinctCount(order);
    BelowSize(n);
    SubsetOfSameSize(Indices(order), Below(n));
  }

  lemma {:induction false} DistinctCount(order: seq<nat>)
    requires OnceFrom(order, 0)
    ensures |Indices(order)| == |order|
  {
    if order != [] {
      var front, i := order[..|order| - 1], order[|order| - 1];
      DistinctCount(front);
      assert Indices(order) == Indices(front) + {i};
    }
  }

  lemma {:induction false} SubsetOfSameSize(a: set<nat>, b: set<nat>)
    requires a <= b && |a| == |b|
    ensures a == b
  {
    if x :| x in b && x !in a {
      SubsetSize(a, b - {x});
    }
  }

  /** Recovery starts from the row a checkpoint took after the first `c` operations; every
      later record is replayed exactly once, and records the checkpoint already covers may
      turn up too, in any order. */
  lemma ReplayFromCheckpoint(h: seq<Record>, c: nat, order: seq<nat>)
    requires History(h) && 0 < c <= |h|
    requires Names(order, |h|) && OnceFrom(order, c)
    requires forall x: nat :: c <= x < |h| ==> x in order
    ensures Replayed(h, [InOrder(h, c)], order) == [InOrder(h, |h|)]
  {
    CanonSuffix(h, Below(c), 0, c);
    CanonAbove(h, Below(c), c, |h|);
    ReplayedIsCanon(h, c, order);
    CanonSuffix(h, Below(c) + Indices(order), 0, |h|);
  }

  lemma {:induction false} CanonAbove(h: seq<Record>, s: set<nat>, c: nat, k: nat)
    requires c <= k <= |h| && forall x :: x in s ==> x < c
    ensures Canon(h, s, k) == Canon(h, s, c)
  {
    if c < k { CanonAbove(h, s, c, k - 1); }
  }

  /** What a reader sees of a row. */
  function Visible(c: seq<Row>): (r: seq<Columns>) {
    if |c| == 1 && c[0].Value? then [c[0].cols] else []
  }

  /** A checkpoint does not store a removed key.  If it was taken when the key was absent, after
      the first `c` operations, and the logs hold the records from some `j <= c` on, replay
      makes the same visible row. */
  lemma ReplayFromAbsent(h: seq<Record>, c: nat, j: nat, order: seq<nat>)
    requires History(h) && j <= c <= |h| && (c > 0 ==> h[c - 1].Remove?)
    requires Names(order, |h|) && OnceFrom(order, 0)
    requires forall x: nat :: j <= x < |h| <==> x in order
    ensures Visible(Replayed(h, [], order)) == Visible(if h == [] then [] else [InOrder(h, |h|)])
  {
    CanonEmpty(h, |h|);
    ReplayedIsCanon(h, 0, order);
    assert Below(0) + Indices(order) == Indices(order);
    if c < |h| {
      CanonSuffix(h, Indices(order), c, |h|);
    } else if j < |h| {
      CanonSuffix(h, Indices(order), |h| - 1, |h|);
    } else {
      assert Indices(order) == Below(0);
    }
  }

  // ----- the loops -----

  lemma PlaceSkips(c: seq<Row>, q: Record, cur: nat, all: seq<Row>)
    requires cur < |c| && c[cur].Delta? && c[cur].ts > QueryTs(q)
    requires all == c[..cur] + Place(c[cur..], q)
    ensures all == c[..cur + 1] + Place(c[cur + 1..], q)
  {
    var rest := Place(c[cur + 1..], q);
    assert Place(c[cur..], q) == [c[cur]] + rest by {
      assert c[cur..][1..] == c[cur + 1..];
    }
    assert c[..cur] + ([c[cur]] + rest) == c[..cur + 1] + rest;
  }

  lemma {:induction false} DeltasConcat(a: seq<Row>, b: seq<Row>)
    ensures Deltas(a + b) == Deltas(a) + Deltas(b)
  {
    if a == [] {
      assert a + b == b;
    } else {
      DeltasConcat(a[1..], b);
      assert (a + b)[1..] == a[1..] + b;
    }
  }

  lemma SameDeltas(c: seq<Row>, cur: nat, r: Row)
    requires cur < |c| && !c[cur].Delta? && !r.Delta?
    ensures Deltas(c[cur := r]) == Deltas(c)
  {
    assert c == c[..cur] + ([c[cur]] + c[cur + 1..]);
    assert c[cur := r] == c[..cur] + ([r] + c[cur + 1..]);
    DeltasConcat(c[..cur], [c[cur]] + c[cur + 1..]);
    DeltasConcat(c[..cur], [r] + c[cur + 1..]);
    DeltasConcat([c[cur]], c[cur + 1..]);
    DeltasConcat([r], c[cur + 1..]);
  }

  lemma OneMoreDelta(c: seq<Row>, cur: nat, d: Row)
    requires cur <= |c| && d.Delta?
    ensures Deltas(c[..cur] + [d] + c[cur..]) == Deltas(c) + 1
  {
    assert c == c[..cur] + c[cur..] && c[..cur] + [d] + c[cur..] == c[..cur] + ([d] + c[cur..]);
    DeltasConcat(c[..cur], c[cur..]);
    DeltasConcat(c[..cur], [d] + c[cur..]);
    DeltasConcat([d], c[cur..]);
  }

  /** Melting the lowest delta marker into the row under it is one step of settling. */
  lemma {:induction false} MeltBottom(c: seq<Row>, p: nat)
    requires IsChain(c) && |c| == p + 2 && Meets(c[p], c[p + 1..]) && c[p].ts > 0
    ensures Settle(c[..p] + [Updated(c[p + 1], c[p].change, c[p].ts - 1)]) == Settle(c)
  {
    var u := Updated(c[p + 1], c[p].change, c[p].ts - 1);
    if p == 0 {
      assert c[..0] + [u] == [u] && Settle(c[1..]) == c[1..];
    } else {
      MeltBottom(c[1..], p - 1);
      assert (c[..p] + [u])[1..] == c[1..][..p - 1] + [u];
      assert c[1..][p..] == c[p + 1..];
    }
  }

  /** A chain whose lowest delta marker still waits is settled. */
  lemma {:induction false} StuckIsSettled(c: seq<Row>, t: nat)
    requires IsChain(c) && t <= |c| && (forall i :: 0 <= i < t ==> c[i].Delta?)
    requires t == |c| || (!c[t].Delta? && t == |c| - 1)
    requires t > 0 && t < |c| ==> c[t - 1].prevTs != c[t].ts
    ensures Settle(c) == c
  {
    if t > 0 {
      StuckIsSettled(c[1..], t - 1);
      assert c == [c[0]] + c[1..];
    }
  }

  /** The value slot of one key during recovery, with the per-thread delta counters. */
  class Slot {
    var chain: seq<Row>
    var deltasCreated: nat
    var deltasRemoved: nat

    ghost predicate Valid()
      reads this
    {
      && IsChain(chain) && Settle(chain) == chain && OddDeltas(chain)
      && deltasCreated == deltasRemoved + Deltas(chain)
    }

    static ghost predicate OddDeltas(c: seq<Row>) {
      forall i :: 0 <= i < |c| && c[i].Delta? ==> c[i].ts % 2 == 1
    }

    constructor (initial: seq<Row>)
      requires |initial| <= 1 && (initial != [] ==> !initial[0].Delta?)
      ensures Valid() && chain == initial && deltasCreated == deltasRemoved == 0
    {
      chain := initial;
      deltasCreated, deltasRemoved := 0, 0;
    }

    /** `replay_query::apply`.  A logged modify record names an even timestamp. */
    method ApplyRecord(q: Record)
      requires Valid() && (q.Modify? ==> q.prevTs % 2 == 0)
      modifies this
      ensures Valid() && chain == Apply(old(chain), q)
    {
      var cur := FindPlace(q);
      if cur < |chain| && chain[cur].ts >= QueryTs(q) {
        assert chain[..cur] + chain[cur..] == chain;
        return;
      }
      ApplyAt(q, cur);
      CleanUp();
    }

    /** Applies the change at position `cur`; a put, replace or remove first deletes everything
        earlier. */
    method ApplyAt(q: Record, cur: nat)
      requires Valid() && (q.Modify? ==> q.prevTs % 2 == 0)
      requires cur <= |chain| && (forall i :: 0 <= i < cur ==> chain[i].Delta?)
      requires cur < |chain| ==> chain[cur].ts < QueryTs(q)
      modifies this
      ensures IsChain(chain) && OddDeltas(chain) && deltasCreated == deltasRemoved + Deltas(chain)
      ensures chain == old(chain)[..cur] + Place(old(chain)[cur..], q)
    {
      if !q.Modify? {
        DropFrom(cur);
        chain := chain + [Created(q)];
        DeltasConcat(old(chain)[..cur], [Created(q)]);
      } else if cur < |chain| && chain[cur].ts == q.prevTs {
        var updated := Updated(chain[cur], q.change, q.ts);
        SameDeltas(chain, cur, updated);
        chain := chain[cur := updated];
      } else {
        var marker := Delta(Mark(q.ts), q.prevTs, q.change);
        OneMoreDelta(chain, cur, marker);
        chain := chain[..cur] + [marker] + chain[cur..];
        deltasCreated := deltasCreated + 1;
      }
    }

    method FindPlace(q: Record) returns (cur: nat)
      requires Valid()
      ensures cur <= |chain| && (forall i :: 0 <= i < cur ==> chain[i].Delta?)
      ensures Place(chain, q) == chain[..cur] + Place(chain[cur..], q)
      ensures cur < |chain| ==> !(chain[cur].Delta? && chain[cur].ts > QueryTs(q))
    {
      cur := Skip(chain, q);
    }

    /** The first loop of `apply`. */
    static method Skip(c: seq<Row>, q: Record) returns (cur: nat)
      ensures cur <= |c| && (forall i :: 0 <= i < cur ==> c[i].Delta?)
      ensures Place(c, q) == c[..cur] + Place(c[cur..], q)
      ensures cur < |c| ==> !(c[cur].Delta? && c[cur].ts > QueryTs(q))
    {
      cur := 0;
      ghost var all := Place(c, q);
      assert all == c[..0] + Place(c[0..], q) by { assert c[0..] == c; }
      while cur < |c| && c[cur].Delta? && c[cur].ts > QueryTs(q)
        invariant cur <= |c| && forall i :: 0 <= i < cur ==> c[i].Delta?
        invariant all == c[..cur] + Place(c[cur..], q)
      {
        PlaceSkips(c, q, cur, all);
        cur := cur + 1;
      }
    }

    /** Deletes everything from position `cur` down. */
    method DropFrom(cur: nat)
      requires cur <= |chain| && IsChain(chain) && deltasCreated == deltasRemoved + Deltas(chain)
      modifies this
      ensures chain == old(chain)[..cur] && deltasCreated == deltasRemoved + Deltas(chain)
      ensures deltasCreated == old(deltasCreated)
    {
      while cur < |chain|
        invariant cur <= |chain| && chain[..cur] == old(chain)[..cur] && IsChain(chain)
        invariant deltasCreated == deltasRemoved + Deltas(chain) && deltasCreated == old(deltasCreated)
        decreases |chain|
      {
        var row := chain[cur];
        assert chain == chain[..cur] + ([row] + chain[cur + 1..]);
        DeltasConcat(chain[..cur], [row] + chain[cur + 1..]);
        DeltasConcat([row], chain[cur + 1..]);
        DeltasConcat(chain[..cur], chain[cur + 1..]);
        if row.Delta? {
          deltasRemoved := deltasRemoved + 1;
          chain := chain[..cur] + chain[cur + 1..];
        } else {
          chain := chain[..cur];
        }
      }
    }

    /** Melts delta markers into the row they wait for, lowest first. */
    method CleanUp()
      requires IsChain(chain) && OddDeltas(chain) && deltasCreated == deltasRemoved + Deltas(chain)
      modifies this
      ensures Valid() && chain == Settle(old(chain))
    {
      while chain != [] && chain[0].Delta?
        invariant IsChain(chain) && OddDeltas(chain) && Settle(chain) == Settle(old(chain))
        invariant deltasCreated == deltasRemoved + Deltas(chain)
        decreases |chain|
      {
        var trav := 0;
        while trav < |chain| && chain[trav].Delta?
          invariant trav <= |chain| && forall i :: 0 <= i < trav ==> chain[i].Delta?
        {
          trav := trav + 1;
        }
        var prev := trav - 1;
        if trav < |chain| && chain[prev].prevTs == chain[trav].ts {
          ghost var c := chain;
          var melted := Updated(chain[trav], chain[prev].change, chain[prev].ts - 1);
          MeltBottom(chain, prev);
          chain := chain[..prev] + [melted];
          deltasRemoved := deltasRemoved + 1;
          assert c == c[..prev] + [c[prev], c[trav]];
          assert forall i :: 0 <= i < prev ==> chain[i] == c[i];
          DeltasConcat(c[..prev], [c[prev], c[trav]]);
          DeltasConcat([c[prev]], [c[trav]]);
          assert [c[prev]] + [c[trav]] == [c[prev], c[trav]];
          DeltasConcat(c[..prev], [melted]);
        } else {
          StuckIsSettled(chain, trav);
          return;
        }
      }
    }
  }

  /** Recovery of one key: whatever the order, the slot ends with the in-order row and the
      server's final check on the delta counters holds. */
  method Recover(h: seq<Record>, order: seq<nat>) returns (slot: Slot)
    requires History(h) && h != []
    requires |order| == |h| && Names(order, |h|) && OnceFrom(order, 0)
    ensures fresh(slot) && slot.Valid() && slot.chain == [InOrder(h, |h|)]
    ensures forall c, v :: Holds(slot.chain[0], c, v) <==> Written(h, |h|, c, v)
    ensures slot.deltasCreated == slot.deltasRemoved
  {
    slot := new Slot([]);
    for k := 0 to |order|
      invariant fresh(slot) && slot.Valid() && slot.chain == Replayed(h, [], order[..k])
    {
      assert order[..k + 1][..k] == order[..k];
      assert h[order[k]].Modify? ==> h[order[k] - 1].ts % 2 == 0;
      slot.ApplyRecord(h[order[k]]);
    }
    assert order[..|order|] == order;
    ReplayOrderIrrelevant(h, order);
    forall c, v ensures Holds(slot.chain[0], c, v) <==> Written(h, |h|, c, v) { RowColumns(h, |h|, c, v); }
  }
}
