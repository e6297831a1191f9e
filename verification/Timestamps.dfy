/**
  Timestamps of rows, threads and leaves (masstree/kvrow.hh, masstree/kvthread.hh, masstree/masstree.cc,
  masstree/masstree_remove.hh), and the records they are logged with (masstree/log.cc).

  Every operation on a key holds the lock of the leaf responsible for it, and is one step here; so are the
  split and the deletion of a leaf, which change which leaf that is.  `NodeTimestamps` takes them apart: the
  deletion of a leaf writes its predecessor's timestamp without that leaf's lock.
*/
module Timestamps {
  import opened Common
  import opened Replay

  // ----- circular comparison -----

  const WORD: nat := 0x1_0000_0000_0000_0000

  /** `circular_int::less`: the 64-bit difference is negative when read as signed. */
  function CircularLess(a: nat, b: nat): bool {
    (a - b) % WORD >= WORD / 2
  }

  /** On timestamps less than 2^63 apart it is the order of the unwrapped numbers. */
  lemma CircularIsOrder(a: nat, b: nat)
    requires -(WORD as int) / 2 < a - b < WORD / 2
    ensures CircularLess(a % WORD, b % WORD) <==> a < b
  {
    var d := a - b;
    assert (a % WORD - b % WORD) % WORD == d % WORD by {
      var qa, qb := a / WORD, b / WORD;
      assert a == qa * WORD + a % WORD && b == qb * WORD + b % WORD;
      SameRemainder(a % WORD - b % WORD, qa - qb);
    }
  }

  lemma {:induction false} SameRemainder(x: int, q: int)
    ensures (x + q * WORD) % WORD == x % WORD
    decreases if q < 0 then -q else q
  {
    if q > 0 {
      SameRemainder(x, q - 1);
      assert (x + (q - 1) * WORD + WORD) % WORD == (x + (q - 1) * WORD) % WORD;
    } else if q < 0 {
      SameRemainder(x, q + 1);
      assert (x + (q + 1) * WORD - WORD) % WORD == (x + (q + 1) * WORD) % WORD;
    }
  }

  // ----- histories grow at the end -----

  lemma {:induction false} InOrderPrefix(h: seq<Record>, q: Record, k: nat)
    requires History(h) && History(h + [q]) && 0 < k <= |h|
    ensures InOrder(h + [q], k) == InOrder(h, k)
  {
    assert (h + [q])[k - 1] == h[k - 1];
    if h[k - 1].Modify? { InOrderPrefix(h, q, k - 1); }
  }

  lemma HistoryGrows(h: seq<Record>, q: Record)
    requires History(h) && q.ts % 2 == 0 && (h != [] ==> h[|h| - 1].ts < q.ts)
    requires q.Modify? ==> h != [] && !h[|h| - 1].Remove? && q.prevTs == h[|h| - 1].ts
    ensures History(h + [q])
  {
    var g := h + [q];
    assert forall i :: 0 <= i < |h| ==> g[i] == h[i];
    forall i, j | 0 <= i < j < |g| ensures g[i].ts < g[j].ts {
      if j == |h| && i < |h| - 1 { assert h[i].ts < h[|h| - 1].ts; }
    }
    forall i | 0 <= i < |g| && g[i].Modify? ensures i > 0 && !g[i - 1].Remove? && g[i].prevTs == g[i - 1].ts {
      if i < |h| { assert h[i].Modify?; }
    }
  }

  lemma HistoryPush(h: seq<Record>, q: Record)
    requires History(h) && q.ts % 2 == 0 && (h != [] ==> h[|h| - 1].ts < q.ts)
    requires q.Modify? ==> h != [] && !h[|h| - 1].Remove? && q.prevTs == h[|h| - 1].ts
    ensures History(h + [q])
    ensures InOrder(h + [q], |h| + 1) == if q.Modify? then Updated(InOrder(h, |h|), q.change, q.ts) else Created(q)
  {
    HistoryGrows(h, q);
    assert (h + [q])[|h|] == q;
    if q.Modify? { InOrderPrefix(h, q, |h|); }
  }

  // ----- the store -----

  type Key = seq<Byte>

  function LogOf(log: map<Key, seq<Record>>, k: Key): seq<Record> {
    if k in log then log[k] else []
  }

  /** The timestamp of the last operation on a key. */
  function LastTs(h: seq<Record>): nat {
    if h == [] then 0 else h[|h| - 1].ts
  }

  /** What one key's row, log and leaf timestamp have to do with each other. */
  ghost predicate KeyOk(row: Option<Row>, h: seq<Record>, nodeTs: nat) {
    && History(h)
    && match row
       case Some(r) => h != [] && r == InOrder(h, |h|)
       case None => h == [] || (h[|h| - 1].Remove? && h[|h| - 1].ts < nodeTs)
  }

  /** What replay makes of a key's log, in whatever order (`Replay.ReplayOrderIrrelevant`). */
  function Recovered(h: seq<Record>): Option<Row> {
    if h == [] || !History(h) then None else Some(InOrder(h, |h|))
  }

  function RecoveredRows(log: map<Key, seq<Record>>): (rows: map<Key, Row>)
    ensures forall k :: (if k in rows then Some(rows[k]) else None) == Recovered(LogOf(log, k))
  {
    map k | k in log && Recovered(log[k]).Some? :: Recovered(log[k]).value
  }

  lemma RestartedOk(h: seq<Record>, row: Option<Row>)
    requires History(h) && row == Recovered(h)
    ensures KeyOk(row, h, 0)
  {}

  /** What the row's timestamp says about the operations so far. */
  lemma RowTs(row: Option<Row>, h: seq<Record>, nodeTs: nat)
    requires KeyOk(row, h, nodeTs)
    ensures row.Some? ==> LastTs(h) <= row.value.ts && !row.value.Delta? && (row.value.Value? <==> row.value.ts % 2 == 0)
    ensures row.Some? && row.value.Value? ==> row.value.ts == LastTs(h)
    ensures row.None? ==> LastTs(h) < nodeTs || h == []
  {}

  class Store {
    /** `ts_` of each thread. */
    var clocks: seq<nat>
    /** `node_ts_` of each leaf. */
    var nodeTs: seq<nat>
    /** The leaf responsible for a key. */
    var home: Key -> nat
    var rows: map<Key, Row>
    /** What the logs hold for each key, in the order of the operations. */
    var log: map<Key, seq<Record>>

    function RowOf(k: Key): Option<Row>
      reads this
    {
      if k in rows then Some(rows[k]) else None
    }

    ghost predicate Valid()
      reads this
    {
      && (forall t :: 0 <= t < |clocks| ==> clocks[t] % 2 == 0 && clocks[t] > 0)
      && (forall l :: 0 <= l < |nodeTs| ==> nodeTs[l] % 2 == 0)
      && (forall k :: home(k) < |nodeTs|)
      && (forall k :: home(k) < |nodeTs| ==> KeyOk(RowOf(k), LogOf(log, k), nodeTs[home(k)]))
    }

    constructor (threads: nat)
      ensures Valid() && rows == map[] && log == map[] && |clocks| == threads
    {
      clocks := seq(threads, _ => 2);
      nodeTs := [0];
      home := _ => 0;
      rows, log := map[], map[];
    }

    /** `update_timestamp(x)` */
    method UpdateTimestamp(t: nat, x: nat) returns (ts: nat)
      requires Valid() && t < |clocks|
      modifies `clocks
      ensures Valid() && |clocks| == |old(clocks)| && ts > x && ts % 2 == 0
      ensures clocks == old(clocks)[t := ts] && (ts == old(clocks)[t] || ts <= x + 2)
    {
      if clocks[t] <= x { clocks := clocks[t := Mark(x) + 1]; }
      ts := clocks[t];
    }

    /** `advance_timestamp(x)`, then `update_timestamp()` */
    method AdvanceTimestamp(t: nat, x: nat) returns (ts: nat)
      requires Valid() && t < |clocks| && x % 2 == 0
      modifies `clocks
      ensures Valid() && |clocks| == |old(clocks)| && ts >= x && ts % 2 == 0 && ts > 0
      ensures clocks == old(clocks)[t := ts] && (ts == old(clocks)[t] || ts == x)
    {
      if clocks[t] < x { clocks := clocks[t := x]; }
      ts := clocks[t];
    }

    /** The effect of one logged operation on a key, whose row becomes `row`. */
    method Commit(k: Key, q: Record, row: Option<Row>)
      requires Valid() && q.ts % 2 == 0 && LastTs(LogOf(log, k)) < q.ts
      requires q.Modify? ==> k in rows && rows[k].Value? && q.prevTs == rows[k].ts
      requires q.Remove? <==> row.None?
      requires row.Some? ==> row.value == if q.Modify? then Updated(rows[k], q.change, q.ts) else Created(q)
      requires q.Remove? ==> q.ts < nodeTs[home(k)]
      modifies `rows, `log
      ensures Valid() && log == old(log)[k := LogOf(old(log), k) + [q]]
      ensures rows == if row.Some? then old(rows)[k := row.value] else old(rows) - {k}
    {
      ghost var h := LogOf(log, k);
      assert KeyOk(RowOf(k), h, nodeTs[home(k)]);
      HistoryPush(h, q);
      log := log[k := LogOf(log, k) + [q]];
      rows := if row.Some? then rows[k := row.value] else rows - {k};
      forall x ensures KeyOk(RowOf(x), LogOf(log, x), nodeTs[home(x)]) {
        assert old(KeyOk(RowOf(x), LogOf(log, x), nodeTs[home(x)]));
        assert x == k ==> LogOf(log, x) == h + [q];
      }
    }

    /** `query_table::put`: an update of a live row is logged as a modification of it. */
    method Put(t: nat, k: Key, change: Columns) returns (q: Record)
      requires Valid() && t < |clocks|
      modifies this
      ensures Valid() && |clocks| == old(|clocks|) && Logged(q, k)
      ensures q == if old(k in rows && rows[k].Value?) then Modify(q.ts, old(rows[k].ts), change)
                   else Record.Put(q.ts, change)
      ensures k in rows && forall c, v :: Holds(rows[k], c, v) <==>
        (c in change && change[c] == v) || (c !in change && k in old(rows) && old(Holds(rows[k], c, v)))
    {
      RowTs(RowOf(k), LogOf(log, k), nodeTs[home(k)]);
      if k !in rows {
        var ts := AdvanceTimestamp(t, nodeTs[home(k)]);
        q := Record.Put(ts, change);
        Commit(k, q, Some(Created(q)));
      } else {
        var ts := UpdateTimestamp(t, rows[k].ts);
        if rows[k].ts % 2 == 1 {
          q := Record.Put(ts, change);
          Commit(k, q, Some(Created(q)));
        } else {
          q := Modify(ts, rows[k].ts, change);
          Commit(k, q, Some(Updated(rows[k], change, ts)));
        }
      }
    }

    /** `query_table::replace` */
    method Replace(t: nat, k: Key, value: Str) returns (q: Record)
      requires Valid() && t < |clocks|
      modifies this
      ensures Valid() && |clocks| == old(|clocks|) && Logged(q, k) && q == Put1(q.ts, value)
      ensures k in rows && forall c, v :: Holds(rows[k], c, v) <==> c == 0 && v == value
    {
      RowTs(RowOf(k), LogOf(log, k), nodeTs[home(k)]);
      if k !in rows {
        var ts := AdvanceTimestamp(t, nodeTs[home(k)]);
        q := Put1(ts, value);
      } else {
        var ts := UpdateTimestamp(t, rows[k].ts);
        q := Put1(ts, value);
      }
      Commit(k, q, Some(Created(q)));
    }

    /** `query_table::remove`: the leaf's timestamp ends above the removal's. */
    method Remove(t: nat, k: Key) returns (removed: bool, q: Record)
      requires Valid() && t < |clocks|
      modifies this
      ensures Valid() && |clocks| == old(|clocks|) && removed == (k in old(rows))
      ensures if removed then Logged(q, k) && q.Remove? else rows == old(rows) && log == old(log)
    {
      removed, q := k in rows, Record.Remove(0);
      if removed {
        RowTs(RowOf(k), LogOf(log, k), nodeTs[home(k)]);
        var ts := UpdateTimestamp(t, rows[k].ts);
        q := Record.Remove(ts);
        if nodeTs[home(k)] <= ts { RaiseNode(home(k), ts + 2); }
        Commit(k, q, None);
      }
    }

    /** A leaf's timestamp may grow. */
    method RaiseNode(l: nat, ts: nat)
      requires Valid() && l < |nodeTs| && nodeTs[l] <= ts && ts % 2 == 0
      modifies `nodeTs
      ensures Valid() && nodeTs == old(nodeTs)[l := ts]
    {
      nodeTs := nodeTs[l := ts];
      forall x ensures KeyOk(RowOf(x), LogOf(log, x), nodeTs[home(x)]) {
        assert old(KeyOk(RowOf(x), LogOf(log, x), nodeTs[home(x)]));
      }
    }

    /** A new leaf, of a split or of a new layer, takes over some of a leaf's keys and starts with its
        timestamp. */
    method ForkLeaf(l: nat, moved: Key -> bool)
      requires Valid() && l < |nodeTs|
      modifies `nodeTs, `home
      ensures Valid() && nodeTs == old(nodeTs) + [old(nodeTs)[l]]
      ensures forall k :: home(k) == if old(home)(k) == l && moved(k) then old(|nodeTs|) else old(home)(k)
    {
      var was, n := home, |nodeTs|;
      nodeTs := nodeTs + [nodeTs[l]];
      home := k => if was(k) == l && moved(k) then n else was(k);
      forall x ensures home(x) < |nodeTs| && KeyOk(RowOf(x), LogOf(log, x), nodeTs[home(x)]) {
        assert old(KeyOk(RowOf(x), LogOf(log, x), nodeTs[home(x)]));
      }
    }

    /** An empty leaf goes away: the leaf before it (or, for a layer's last leaf, the one above it) takes
        over its keys and its timestamp if that is later. */
    method DeleteLeaf(l: nat, prev: nat)
      requires Valid() && l < |nodeTs| && prev < |nodeTs|
      modifies `nodeTs, `home
      ensures Valid() && forall k :: home(k) == if old(home)(k) == l then prev else old(home)(k)
      ensures nodeTs == old(nodeTs)[prev := if old(nodeTs[prev] < nodeTs[l]) then old(nodeTs[l]) else old(nodeTs[prev])]
    {
      if nodeTs[prev] < nodeTs[l] { RaiseNode(prev, nodeTs[l]); }
      var was := home;
      home := k => if was(k) == l then prev else was(k);
      forall x ensures home(x) < |nodeTs| && KeyOk(RowOf(x), LogOf(log, x), nodeTs[home(x)]) {
        assert old(KeyOk(RowOf(x), LogOf(log, x), nodeTs[home(x)]));
      }
    }

    /** A restart: clocks and leaves start anew, and the rows are what replay makes of the logs. */
    method Restart()
      requires Valid()
      modifies this
      ensures Valid() && |clocks| == old(|clocks|) && log == old(log)
      ensures forall k :: RowOf(k) == Recovered(LogOf(log, k))
    {
      clocks := seq(|clocks|, _ => 2);
      nodeTs := [0];
      home := _ => 0;
      rows := RecoveredRows(log);
      forall k ensures KeyOk(RowOf(k), LogOf(log, k), 0) {
        assert old(KeyOk(RowOf(k), LogOf(log, k), nodeTs[home(k)]));
        RestartedOk(LogOf(log, k), RowOf(k));
      }
    }

    /** One record was added to a key's log, with a later timestamp than all before, and every row
        except that key's stayed. */
    twostate predicate Logged(q: Record, k: Key)
      reads this
    {
      && log == old(log)[k := LogOf(old(log), k) + [q]]
      && LastTs(LogOf(old(log), k)) < q.ts && q.ts % 2 == 0
      && (if q.Remove? then rows == old(rows) - {k} else k in rows && rows == old(rows)[k := rows[k]] && rows[k].Value? && rows[k].ts == q.ts)
    }
  }

  // ----- runs -----

  datatype Step =
    | DoPut(thread: nat, key: Key, change: Columns)
    | DoReplace(thread: nat, key: Key, value: Str)
    | DoRemove(thread: nat, key: Key)
    | DoFork(leaf: nat, moved: Key -> bool)
    | DoDelete(leaf: nat, prev: nat)
    | DoRestart

  /** The threads and leaves named exist. */
  predicate Enabled(s: Step, threads: nat, leaves: nat) {
    match s
    case DoPut(t, _, _) => t < threads
    case DoReplace(t, _, _) => t < threads
    case DoRemove(t, _) => t < threads
    case DoFork(l, _) => l < leaves
    case DoDelete(l, p) => l < leaves && p < leaves
    case DoRestart => true
  }

  /** Any run, by any threads, with leaves splitting and going away and restarts in between.  Steps that
      name no thread or leaf are skipped. */
  method Run(threads: nat, steps: seq<Step>) returns (s: Store)
    ensures s.Valid()
  {
    s := new Store(threads);
    for i := 0 to |steps|
      invariant s.Valid()
    {
      if Enabled(steps[i], |s.clocks|, |s.nodeTs|) {
        match steps[i] {
          case DoPut(t, k, c) => var _ := s.Put(t, k, c);
          case DoReplace(t, k, v) => var _ := s.Replace(t, k, v);
          case DoRemove(t, k) => var _, _ := s.Remove(t, k);
          case DoFork(l, m) => s.ForkLeaf(l, m);
          case DoDelete(l, p) => s.DeleteLeaf(l, p);
          case DoRestart => s.Restart();
        }
      }
    }
  }

  /** What `Valid` means for one key: even timestamps that grow with every operation, removals and
      re-insertions included; a live row has the last of them; and a modification names the operation
      just before it, which left a live row. */
  lemma KeyTimestamps(s: Store, k: Key)
    requires s.Valid()
    ensures var h := LogOf(s.log, k);
      && (forall i :: 0 <= i < |h| ==> h[i].ts % 2 == 0)
      && (forall i, j :: 0 <= i < j < |h| ==> h[i].ts < h[j].ts)
      && (forall i :: 0 <= i < |h| && h[i].Modify? ==> i > 0 && !h[i - 1].Remove? && h[i].prevTs == h[i - 1].ts)
      && (k in s.rows && s.rows[k].Value? ==> h != [] && s.rows[k].ts == h[|h| - 1].ts)
  {
    assert KeyOk(s.RowOf(k), LogOf(s.log, k), s.nodeTs[s.home(k)]);
    RowTs(s.RowOf(k), LogOf(s.log, k), s.nodeTs[s.home(k)]);
  }

  /** The stored row holds just what the operations on the key wrote last. */
  lemma StoredColumns(s: Store, k: Key, c: nat, v: Str)
    requires s.Valid()
    ensures var h := LogOf(s.log, k); k in s.rows && Holds(s.rows[k], c, v) <==> Written(h, |h|, c, v)
  {
    var h := LogOf(s.log, k);
    assert KeyOk(s.RowOf(k), h, s.nodeTs[s.home(k)]);
    if h != [] { RowColumns(h, |h|, c, v); }
  }

  /** So the logs of a run, replayed in any order, give back what a reader saw before. */
  lemma ReplayRebuildsRow(s: Store, k: Key, order: seq<nat>)
    requires s.Valid()
    requires var n := |LogOf(s.log, k)|; |order| == n && Names(order, n) && OnceFrom(order, 0)
    ensures Visible(Replayed(LogOf(s.log, k), [], order)) == Visible(if k in s.rows then [s.rows[k]] else [])
  {
    var h := LogOf(s.log, k);
    assert KeyOk(s.RowOf(k), h, s.nodeTs[s.home(k)]);
    if h != [] { ReplayOrderIrrelevant(h, order); }
  }
}
