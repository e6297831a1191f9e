/**
  A server that logs what it does (masstree/mtd.cc, masstree/log.cc): every operation of the `Timestamps`
  store is recorded in the byte log of its thread, and recovery reads all logs and replays what it finds for a
  key, in whatever order the logs come.  This puts `Timestamps`, `LogCodec` and `Replay` together.
*/
module Durability {
  import opened Common
  import opened Replay
  import opened Timestamps
  import LogCodec

  // ----- what replay takes from a log -----

  /** A record for replay. */
  datatype Entry = Entry(key: Key, q: Record)

  /** How changesets are written as bytes. */
  datatype Packing = Packing(pack: Columns -> Str, unpack: Str -> Columns)

  ghost predicate Exact(p: Packing) {
    forall c: Columns {:trigger p.pack(c)} :: p.unpack(p.pack(c)) == c
  }

  /** The query `begin_replay_*` makes of a record. */
  function ToRecord(p: Packing, r: LogCodec.Rec): Record
    requires LogCodec.Keyed(r)
  {
    match r
    case Kv(c, _, val, ts) =>
      if c == LogCodec.PUT then Put(ts, p.unpack(val)) else if c == LogCodec.PUT1 then Put1(ts, val) else Remove(ts)
    case Delta(_, val, prevTs, ts) => Modify(ts, prevTs, p.unpack(val))
  }

  /** The last epoch recorded, zero before any. */
  function EpochOf(recs: seq<LogCodec.Rec>): nat {
    if recs == [] then 0
    else if recs[|recs| - 1].Epoch? then recs[|recs| - 1].epoch else EpochOf(recs[..|recs| - 1])
  }

  /** `replayandclean1` over a whole log: records before the first epoch and records with an empty key are
      skipped. */
  function Entries(p: Packing, recs: seq<LogCodec.Rec>): seq<Entry> {
    if recs == [] then []
    else
      var front, r := recs[..|recs| - 1], recs[|recs| - 1];
      Entries(p, front)
      + if LogCodec.Keyed(r) && EpochOf(front) != 0 && r.key != [] then [Entry(r.key, ToRecord(p, r))] else []
  }

  lemma EntriesPush(p: Packing, recs: seq<LogCodec.Rec>, r: LogCodec.Rec)
    ensures EpochOf(recs + [r]) == if r.Epoch? then r.epoch else EpochOf(recs)
    ensures Entries(p, recs + [r]) == Entries(p, recs)
      + if LogCodec.Keyed(r) && EpochOf(recs) != 0 && r.key != [] then [Entry(r.key, ToRecord(p, r))] else []
  {
    assert (recs + [r])[..|recs|] == recs;
  }

  /** An operation's records add one entry, unless its key is empty. */
  lemma RecordEntries(p: Packing, was: seq<LogCodec.Rec>, a: bool, b: bool, epoch: nat, r: LogCodec.Rec)
    requires epoch != 0 && (!a ==> EpochOf(was) == epoch) && LogCodec.Keyed(r)
    ensures var all := was + LogCodec.Notes(a, b, epoch) + [r];
      && EpochOf(all) == epoch
      && Entries(p, all) == Entries(p, was) + if r.key != [] then [Entry(r.key, ToRecord(p, r))] else []
  {
    var x := if a then was + [LogCodec.Epoch(epoch)] else was;
    var y := if b then x + [LogCodec.Plain(LogCodec.WAKE)] else x;
    LogCodec.NotesJoin(was, x, y, a, b, epoch);
    EntriesPush(p, was, LogCodec.Epoch(epoch));
    EntriesPush(p, x, LogCodec.Plain(LogCodec.WAKE));
    EntriesPush(p, y, r);
  }

  // ----- the logs mirror the operations -----

  /** A position in a log, and the `j`th operation on a key. */
  datatype Place = Place(log: nat, i: nat)
  datatype Op = Op(key: Key, j: nat)

  predicate InRange(read: seq<seq<Entry>>, pl: Place) {
    pl.log < |read| && pl.i < |read[pl.log]|
  }

  predicate SameShape(read: seq<seq<Entry>>, which: seq<seq<nat>>) {
    |which| == |read| && forall t :: 0 <= t < |read| ==> |which[t]| == |read[t]|
  }

  /** The entry at this place is operation `which` on its key, and no other place has that operation. */
  predicate PlaceOk(log: map<Key, seq<Record>>, read: seq<seq<Entry>>, which: seq<seq<nat>>, at: map<Op, Place>, pl: Place)
    requires SameShape(read, which)
  {
    InRange(read, pl) ==>
      var e, j := read[pl.log][pl.i], which[pl.log][pl.i];
      && e.key != [] && j < |LogOf(log, e.key)| && LogOf(log, e.key)[j] == e.q
      && Op(e.key, j) in at && at[Op(e.key, j)] == pl
  }

  /** Every operation on a key that is not empty has a place. */
  predicate OpOk(log: map<Key, seq<Record>>, read: seq<seq<Entry>>, which: seq<seq<nat>>, at: map<Op, Place>, op: Op)
    requires SameShape(read, which)
  {
    op.key != [] && op.j < |LogOf(log, op.key)| ==>
      op in at && InRange(read, at[op]) && read[at[op].log][at[op].i].key == op.key && which[at[op].log][at[op].i] == op.j
  }

  ghost predicate Mirrors(log: map<Key, seq<Record>>, read: seq<seq<Entry>>, which: seq<seq<nat>>, at: map<Op, Place>) {
    && SameShape(read, which)
    && (forall pl {:trigger PlaceOk(log, read, which, at, pl)} :: PlaceOk(log, read, which, at, pl))
    && (forall op {:trigger OpOk(log, read, which, at, op)} :: OpOk(log, read, which, at, op))
  }

  /** One more operation, recorded at the end of log `t`. */
  lemma MirrorsPush(log: map<Key, seq<Record>>, read: seq<seq<Entry>>, which: seq<seq<nat>>, at: map<Op, Place>, t: nat, k: Key, q: Record)
    requires Mirrors(log, read, which, at) && t < |read| && k != []
    ensures Mirrors(log[k := LogOf(log, k) + [q]], read[t := read[t] + [Entry(k, q)]],
                    which[t := which[t] + [|LogOf(log, k)|]], at[Op(k, |LogOf(log, k)|) := Place(t, |read[t]|)])
  {
    var j := |LogOf(log, k)|;
    var log', read' := log[k := LogOf(log, k) + [q]], read[t := read[t] + [Entry(k, q)]];
    var which', at' := which[t := which[t] + [j]], at[Op(k, j) := Place(t, |read[t]|)];
    forall pl ensures PlaceOk(log', read', which', at', pl) { assert PlaceOk(log, read, which, at, pl); }
    forall op ensures OpOk(log', read', which', at', op) { assert OpOk(log, read, which, at, op); }
  }

  /** Operations on the empty key leave no trace. */
  lemma MirrorsEmpty(log: map<Key, seq<Record>>, read: seq<seq<Entry>>, which: seq<seq<nat>>, at: map<Op, Place>, h: seq<Record>)
    requires Mirrors(log, read, which, at)
    ensures Mirrors(log[[] := h], read, which, at)
  {
    var log' := log[[] := h];
    forall pl ensures PlaceOk(log', read, which, at, pl) { assert PlaceOk(log, read, which, at, pl); }
    forall op ensures OpOk(log', read, which, at, op) { assert OpOk(log, read, which, at, op); }
  }

  // ----- recovery -----

  function ApplyAll(c: seq<Row>, qs: seq<Record>): seq<Row> {
    if qs == [] then c else Apply(ApplyAll(c, qs[..|qs| - 1]), qs[|qs| - 1])
  }

  lemma {:induction false} ApplyAllReplays(h: seq<Record>, order: seq<nat>, qs: seq<Record>)
    requires Names(order, |h|) && |qs| == |order| && forall i :: 0 <= i < |qs| ==> qs[i] == h[order[i]]
    ensures ApplyAll([], qs) == Replayed(h, [], order)
  {
    if qs != [] { ApplyAllReplays(h, order[..|order| - 1], qs[..|qs| - 1]); }
  }

  /** All places of a key, each once, in any order. */
  ghost predicate Lists(read: seq<seq<Entry>>, k: Key, places: seq<Place>) {
    && Distinct(places)
    && forall pl {:trigger pl in places} {:trigger InRange(read, pl)} ::
         pl in places <==> InRange(read, pl) && read[pl.log][pl.i].key == k
  }

  function RecordsAt(read: seq<seq<Entry>>, places: seq<Place>): seq<Record>
    requires forall i :: 0 <= i < |places| ==> InRange(read, places[i])
  {
    seq(|places|, i requires 0 <= i < |places| && InRange(read, places[i]) => read[places[i].log][places[i].i].q)
  }

  /** The places of a key, as operations. */
  lemma PlacesAreOps(log: map<Key, seq<Record>>, read: seq<seq<Entry>>, which: seq<seq<nat>>, at: map<Op, Place>, k: Key, places: seq<Place>) returns (order: seq<nat>)
    requires Mirrors(log, read, which, at) && Lists(read, k, places) && k != []
    ensures |order| == |places| == |LogOf(log, k)| && Names(order, |order|) && OnceFrom(order, 0)
    ensures forall i :: 0 <= i < |places| ==> InRange(read, places[i]) && read[places[i].log][places[i].i].q == LogOf(log, k)[order[i]]
  {
    var h := LogOf(log, k);
    forall i | 0 <= i < |places| ensures InRange(read, places[i]) && read[places[i].log][places[i].i].key == k {
      assert places[i] in places;
    }
    order := seq(|places|, i requires 0 <= i < |places| => which[places[i].log][places[i].i]);
    forall i | 0 <= i < |order|
      ensures order[i] < |h| && h[order[i]] == read[places[i].log][places[i].i].q && Op(k, order[i]) in at && at[Op(k, order[i])] == places[i]
    {
      assert PlaceOk(log, read, which, at, places[i]);
    }
    forall x: nat | x < |h| ensures x in order {
      assert OpOk(log, read, which, at, Op(k, x));
      assert at[Op(k, x)] in places;
      var i :| 0 <= i < |places| && places[i] == at[Op(k, x)];
      assert order[i] == x;
    }
    forall i, j | 0 <= i < j < |order| ensures order[i] != order[j] { assert places[i] != places[j]; }
    AllOnce(order, |h|);
  }

  lemma AllOnce(order: seq<nat>, n: nat)
    requires Names(order, n) && Distinct(order) && forall x: nat :: x < n ==> x in order
    ensures |order| == n && OnceFrom(order, 0)
  {
    DistinctCount(order);
    BelowSize(n);
    assert Indices(order) == Below(n);
  }

  /** Whatever the order of the logs, a key that is not empty ends with the row its operations made. */
  lemma KeyRecovers(log: map<Key, seq<Record>>, read: seq<seq<Entry>>, which: seq<seq<nat>>, at: map<Op, Place>, k: Key, places: seq<Place>)
    requires Mirrors(log, read, which, at) && Lists(read, k, places) && k != [] && History(LogOf(log, k))
    ensures forall i :: 0 <= i < |places| ==> InRange(read, places[i])
    ensures ApplyAll([], RecordsAt(read, places)) == if LogOf(log, k) == [] then [] else [InOrder(LogOf(log, k), |LogOf(log, k)|)]
  {
    var h := LogOf(log, k);
    var order := PlacesAreOps(log, read, which, at, k, places);
    ApplyAllReplays(h, order, RecordsAt(read, places));
    if h != [] { ReplayOrderIrrelevant(h, order); }
  }

  // ----- the operations of a run and the calls they make -----

  /** What an operation gives to be logged. */
  datatype Call = Call(command: nat, epoch: nat, ts: nat, prevTs: nat, key: Key, value: Str)

  predicate CallOk(c: Call) {
    (c.command == LogCodec.PUT || c.command == LogCodec.PUT1 || c.command == LogCodec.REMOVE) && 0 < c.epoch < LogCodec.WORD64
  }

  /** The operation a call's record stands for. */
  function Meant(p: Packing, c: Call): Record {
    if c.command == LogCodec.PUT && c.prevTs != 0 && c.prevTs % 2 == 0 then Modify(c.ts, c.prevTs, p.unpack(c.value))
    else if c.command == LogCodec.PUT then Put(c.ts, p.unpack(c.value))
    else if c.command == LogCodec.PUT1 then Put1(c.ts, c.value)
    else Remove(c.ts)
  }

  /** The entry replay makes of it. */
  function Made(p: Packing, c: Call): seq<Entry> {
    if c.key == [] then [] else [Entry(c.key, Meant(p, c))]
  }

  /** An operation that was done, its call, and the log of its thread. */
  datatype Done = Done(log: nat, call: Call, q: Record)

  /** The call is about this operation. */
  predicate DoneOk(p: Packing, d: Done, n: nat) {
    d.log < n && CallOk(d.call) && Meant(p, d.call) == d.q
  }

  predicate TraceOk(p: Packing, trace: seq<Done>, n: nat) {
    forall i :: 0 <= i < |trace| ==> DoneOk(p, trace[i], n)
  }

  /** The operations by key. */
  function ByKey(trace: seq<Done>): map<Key, seq<Record>> {
    if trace == [] then map[]
    else
      var log, d := ByKey(trace[..|trace| - 1]), trace[|trace| - 1];
      log[d.call.key := LogOf(log, d.call.key) + [d.q]]
  }

  /** The operations by log, as replay sees them. */
  function ByLog(trace: seq<Done>, u: nat): seq<Entry> {
    if trace == [] then []
    else
      var d := trace[|trace| - 1];
      ByLog(trace[..|trace| - 1], u) + if d.log == u && d.call.key != [] then [Entry(d.call.key, d.q)] else []
  }

  function AllLogs(trace: seq<Done>, n: nat): seq<seq<Entry>> {
    seq(n, u requires 0 <= u < n => ByLog(trace, u))
  }

  lemma AllLogsPush(trace: seq<Done>, n: nat)
    requires trace != [] && trace[|trace| - 1].log < n
    ensures var read, d := AllLogs(trace[..|trace| - 1], n), trace[|trace| - 1];
      AllLogs(trace, n) == if d.call.key == [] then read else read[d.log := read[d.log] + [Entry(d.call.key, d.q)]]
  {
    var front, d := trace[..|trace| - 1], trace[|trace| - 1];
    forall u | 0 <= u < n
      ensures AllLogs(trace, n)[u] == if d.log == u && d.call.key != [] then ByLog(front, u) + [Entry(d.call.key, d.q)] else ByLog(front, u)
    {
      assert ByLog(front, u) + [] == ByLog(front, u);
    }
  }

  lemma {:induction false} TraceMirrors(trace: seq<Done>, n: nat) returns (which: seq<seq<nat>>, at: map<Op, Place>)
    requires forall i :: 0 <= i < |trace| ==> trace[i].log < n
    ensures Mirrors(ByKey(trace), AllLogs(trace, n), which, at)
  {
    if trace == [] {
      which, at := seq(n, _ => []), map[];
    } else {
      var front, d := trace[..|trace| - 1], trace[|trace| - 1];
      var k, log, read := d.call.key, ByKey(front), AllLogs(front, n);
      which, at := TraceMirrors(front, n);
      AllLogsPush(trace, n);
      if k == [] {
        MirrorsEmpty(log, read, which, at, LogOf(log, k) + [d.q]);
      } else {
        var j := |LogOf(log, k)|;
        MirrorsPush(log, read, which, at, d.log, k, d.q);
        which, at := which[d.log := which[d.log] + [j]], at[Op(k, j) := Place(d.log, |read[d.log]|)];
      }
    }
  }

  // ----- the store's side -----

  predicate Positive(log: map<Key, seq<Record>>) {
    forall k, i :: k in log && 0 <= i < |log[k]| ==> log[k][i].ts > 0
  }

  /** A live row has an even timestamp that is not zero. */
  lemma LiveTs(s: Store, k: Key)
    requires s.Valid() && Positive(s.log)
    ensures k in s.rows && s.rows[k].Value? ==> s.rows[k].ts > 0 && s.rows[k].ts % 2 == 0
  {
    KeyTimestamps(s, k);
  }

  /** What a client asks for, with the thread that does it and the epoch it gets; and leaves that split or go
      away meanwhile. */
  datatype Request =
    | PutCols(thread: nat, key: Key, change: Columns, epoch: nat)
    | ReplaceAll(thread: nat, key: Key, value: Str, epoch: nat)
    | RemoveKey(thread: nat, key: Key, epoch: nat)
    | Fork(leaf: nat, moved: Key -> bool)
    | Delete(leaf: nat, prev: nat)

  predicate Possible(r: Request, threads: nat, leaves: nat) {
    match r
    case PutCols(t, _, _, e) => t < threads && 0 < e < LogCodec.WORD64
    case ReplaceAll(t, _, _, e) => t < threads && 0 < e < LogCodec.WORD64
    case RemoveKey(t, _, e) => t < threads && 0 < e < LogCodec.WORD64
    case Fork(l, _) => l < leaves
    case Delete(l, p) => l < leaves && p < leaves
  }

  /** The store after one more operation. */
  predicate Grew(was: map<Key, seq<Record>>, now: map<Key, seq<Record>>, d: Done) {
    now == was[d.call.key := LogOf(was, d.call.key) + [d.q]]
  }

  lemma GrewPositive(was: map<Key, seq<Record>>, now: map<Key, seq<Record>>, d: Done)
    requires Positive(was) && Grew(was, now, d) && d.q.ts > 0
    ensures Positive(now)
  {
    forall k, i | k in now && 0 <= i < |now[k]| ensures now[k][i].ts > 0 {
      if k != d.call.key || i < |LogOf(was, k)| { assert was[k][i].ts > 0; }
    }
  }

  /** `put_col`: a live row's timestamp goes to the log with the change. */
  method PerformPut(s: Store, t: nat, k: Key, change: Columns, e: nat, p: Packing, n: nat) returns (d: Done)
    requires s.Valid() && Positive(s.log) && t < |s.clocks| && 0 < e < LogCodec.WORD64 && Exact(p) && n > 0
    modifies s
    ensures s.Valid() && Positive(s.log) && |s.clocks| == old(|s.clocks|)
    ensures DoneOk(p, d, n) && Grew(old(s.log), s.log, d) && d.call.key == k && d.log == t % n && d.call.epoch == e
  {
    ghost var was := s.log;
    var prev := if k in s.rows && s.rows[k].Value? then s.rows[k].ts else 0;
    LiveTs(s, k);
    var q := s.Put(t, k, change);
    d := Done(t % n, Call(LogCodec.PUT, e, q.ts, prev, k, p.pack(change)), q);
    GrewPositive(was, s.log, d);
  }

  /** `put` */
  method PerformReplace(s: Store, t: nat, k: Key, value: Str, e: nat, p: Packing, n: nat) returns (d: Done)
    requires s.Valid() && Positive(s.log) && t < |s.clocks| && 0 < e < LogCodec.WORD64 && n > 0
    modifies s
    ensures s.Valid() && Positive(s.log) && |s.clocks| == old(|s.clocks|)
    ensures DoneOk(p, d, n) && Grew(old(s.log), s.log, d) && d.call.key == k && d.log == t % n && d.call.epoch == e
  {
    ghost var was := s.log;
    var prev := if k in s.rows then s.rows[k].ts else 0;
    var q := s.Replace(t, k, value);
    d := Done(t % n, Call(LogCodec.PUT1, e, q.ts, prev, k, value), q);
    GrewPositive(was, s.log, d);
  }

  /** `remove`: a removal that found nothing is not logged. */
  method PerformRemove(s: Store, t: nat, k: Key, e: nat, p: Packing, n: nat) returns (done: seq<Done>)
    requires s.Valid() && Positive(s.log) && t < |s.clocks| && 0 < e < LogCodec.WORD64 && n > 0
    modifies s
    ensures s.Valid() && Positive(s.log) && |s.clocks| == old(|s.clocks|)
    ensures if k in old(s.rows)
            then |done| == 1 && DoneOk(p, done[0], n) && Grew(old(s.log), s.log, done[0])
              && done[0].call.key == k && done[0].log == t % n && done[0].call.epoch == e
            else done == [] && s.log == old(s.log)
  {
    ghost var was := s.log;
    var prev := if k in s.rows then s.rows[k].ts else 0;
    var removed, q := s.Remove(t, k);
    done := [];
    if removed {
      done := [Done(t % n, Call(LogCodec.REMOVE, e, q.ts, prev, k, []), q)];
      GrewPositive(was, s.log, done[0]);
    }
  }

  /** One request. */
  method Perform(s: Store, r: Request, p: Packing, n: nat) returns (done: seq<Done>)
    requires s.Valid() && Positive(s.log) && Possible(r, |s.clocks|, |s.nodeTs|) && Exact(p) && n > 0
    modifies s
    ensures s.Valid() && Positive(s.log)
    ensures if r.PutCols? || r.ReplaceAll? || (r.RemoveKey? && r.key in old(s.rows))
            then |done| == 1 && DoneOk(p, done[0], n) && Grew(old(s.log), s.log, done[0])
              && done[0].call.key == r.key && done[0].log == r.thread % n && done[0].call.epoch == r.epoch
            else done == [] && s.log == old(s.log)
  {
    done := [];
    match r {
      case PutCols(t, k, change, e) =>
        var d := PerformPut(s, t, k, change, e, p, n);
        done := [d];
      case ReplaceAll(t, k, value, e) =>
        var d := PerformReplace(s, t, k, value, e, p, n);
        done := [d];
      case RemoveKey(t, k, e) => done := PerformRemove(s, t, k, e, p, n);
      case Fork(l, moved) => s.ForkLeaf(l, moved);
      case Delete(l, prev) => s.DeleteLeaf(l, prev);
    }
  }

  lemma TracePush(p: Packing, trace: seq<Done>, d: Done, n: nat)
    requires TraceOk(p, trace, n) && DoneOk(p, d, n)
    ensures TraceOk(p, trace + [d], n) && Grew(ByKey(trace), ByKey(trace + [d]), d)
  {
    assert (trace + [d])[..|trace|] == trace;
  }

  /** Any run of requests. */
  method Serve(threads: nat, n: nat, requests: seq<Request>, p: Packing) returns (s: Store, trace: seq<Done>)
    requires Exact(p) && n > 0
    ensures s.Valid() && TraceOk(p, trace, n) && s.log == ByKey(trace)
  {
    s := new Store(threads);
    trace := [];
    for i := 0 to |requests|
      invariant s.Valid() && fresh(s) && Positive(s.log) && TraceOk(p, trace, n) && s.log == ByKey(trace)
    {
      if Possible(requests[i], |s.clocks|, |s.nodeTs|) {
        var done := Perform(s, requests[i], p, n);
        if done != [] {
          TracePush(p, trace, done[0], n);
          trace := trace + [done[0]];
        }
      }
    }
  }

  // ----- the logs' side -----

  ghost predicate LogOk(l: LogCodec.Log)
    reads l, l.buf
  {
    l.Valid() && l.buf.Length >= 32 && EpochOf(l.recs) == l.logEpoch
  }

  /** The call's record can be written: 64-bit timestamps and a length that fits. */
  predicate Small(c: Call, maxKey: nat) {
    c.ts < LogCodec.WORD64 && c.prevTs < LogCodec.WORD64 && |c.key| <= maxKey && 32 + |c.key| + |c.value| < LogCodec.WORD32
  }

  method TryRecord(p: Packing, l: LogCodec.Log, c: Call, wake: nat) returns (ok: bool)
    requires LogOk(l) && CallOk(c) && Small(c, l.maxKey)
    modifies l, l.buf
    ensures LogOk(l) && l.buf == old(l.buf) && l.spare == old(l.spare)
    ensures Entries(p, l.recs) == old(Entries(p, l.recs)) + if ok then Made(p, c) else []
    ensures ok == (old(l.buf.Length - l.pos) >= 56 + |c.key| + |c.value|)
  {
    ghost var was, epoch, we := l.recs, l.logEpoch, l.wakeEpoch;
    var newWake;
    ok, newWake := l.Record(c.command, c.epoch, c.ts, c.prevTs, c.key, c.value, wake);
    if ok { RecordEntries(p, was, c.epoch != epoch, l.wakeEpoch != we, c.epoch, l.recs[|l.recs| - 1]); }
  }

  /** The same two buffers, perhaps exchanged. */
  predicate SamePair(a: array<Byte>, b: array<Byte>, c: array<Byte>, d: array<Byte>) {
    (a == c && b == d) || (a == d && b == c)
  }

  /** A round of the logger leaves replay the same entries. */
  method Logger(p: Packing, l: LogCodec.Log, epoch: nat, wake: nat, waiting: bool)
    requires LogOk(l) && epoch < LogCodec.WORD64
    modifies l, l.buf
    ensures LogOk(l) && l.pos == 0 && Entries(p, l.recs) == old(Entries(p, l.recs)) && SamePair(l.buf, l.spare, old(l.buf), old(l.spare))
    ensures l.buf.Length == old(l.buf.Length)
  {
    ghost var was := l.recs;
    l.LoggerRound(epoch, wake, waiting);
    EntriesPush(p, was, LogCodec.Epoch(epoch));
    EntriesPush(p, was + [LogCodec.Epoch(epoch)], LogCodec.Plain(LogCodec.QUIESCE));
    assert was + [LogCodec.Epoch(epoch), LogCodec.Plain(LogCodec.QUIESCE)] == was + [LogCodec.Epoch(epoch)] + [LogCodec.Plain(LogCodec.QUIESCE)];
  }

  /** `loginfo::record`: a thread that finds no room waits for the logger.  It fails only if the record is
      longer than a whole buffer allows. */
  method WriteTo(p: Packing, l: LogCodec.Log, c: Call, wake: nat) returns (ok: bool)
    requires LogOk(l) && CallOk(c)
    modifies l, l.buf, l.spare
    ensures LogOk(l) && SamePair(l.buf, l.spare, old(l.buf), old(l.spare)) && l.buf.Length == old(l.buf.Length)
    ensures Entries(p, l.recs) == old(Entries(p, l.recs)) + if ok then Made(p, c) else []
    ensures ok == (Small(c, l.maxKey) && old(l.buf.Length) >= 56 + |c.key| + |c.value|)
  {
    ok := Small(c, l.maxKey);
    if ok {
      ok := TryRecord(p, l, c, wake);
      if !ok {
        Logger(p, l, c.epoch, wake, true);
        ok := TryRecord(p, l, c, wake);
      }
    }
  }

  /** What happens to a log before a call: perhaps a round of its logger, and the wake epoch of the moment. */
  datatype Moment = Moment(round: bool, epoch: nat, waiting: bool, wake: nat)

  /** Every call for log `u` of this length could be written. */
  predicate Fits(trace: seq<Done>, u: nat, len: nat, maxKey: nat) {
    forall i :: 0 <= i < |trace| && trace[i].log == u ==>
      Small(trace[i].call, maxKey) && len >= 56 + |trace[i].call.key| + |trace[i].call.value|
  }

  /** One log of the run, byte by byte: what recovery reads from it are the operations of its threads. */
  method WriteLog(p: Packing, trace: seq<Done>, n: nat, u: nat, len: nat, maxKey: nat, moments: nat -> Moment) returns (l: LogCodec.Log)
    requires TraceOk(p, trace, n) && len >= 32 && forall i :: moments(i).epoch < LogCodec.WORD64
    ensures fresh(l) && l.Valid() && l.maxKey == maxKey
    ensures Fits(trace, u, len, maxKey) ==> Entries(p, LogCodec.ReadAll(l.Bytes(), maxKey)) == ByLog(trace, u)
  {
    l := new LogCodec.Log(len, maxKey);
    for i := 0 to |trace|
      invariant fresh(l) && fresh(l.buf) && fresh(l.spare) && LogOk(l) && l.buf.Length == len && l.maxKey == maxKey
      invariant Fits(trace, u, len, maxKey) ==> Entries(p, l.recs) == ByLog(trace[..i], u)
    {
      assert trace[..i + 1][..i] == trace[..i];
      if trace[i].log == u {
        var m := moments(i);
        if m.round { Logger(p, l, m.epoch, m.wake, m.waiting); }
        assert DoneOk(p, trace[i], n);
        var _ := WriteTo(p, l, trace[i].call, m.wake);
      }
    }
    assert trace[..|trace|] == trace;
    LogCodec.RecordedIsRead(l);
  }

  // ----- together -----

  /** What a reader sees of a key. */
  function Seen(s: Store, k: Key): seq<Columns>
    reads s
  {
    Visible(if k in s.rows then [s.rows[k]] else [])
  }

  /** The bytes of all logs, read and replayed for a key in any order, give the row a reader saw, exactly if the
      key is not empty or there was nothing to see: replay skips records with an empty key. */
  lemma Durable(s: Store, p: Packing, trace: seq<Done>, bytes: seq<seq<Byte>>, maxKey: nat, k: Key, places: seq<Place>)
    requires s.Valid() && TraceOk(p, trace, |bytes|) && s.log == ByKey(trace)
    requires forall u :: 0 <= u < |bytes| ==> Entries(p, LogCodec.ReadAll(bytes[u], maxKey)) == ByLog(trace, u)
    requires Lists(AllRead(p, bytes, maxKey), k, places)
    ensures forall i :: 0 <= i < |places| ==> InRange(AllRead(p, bytes, maxKey), places[i])
    ensures Visible(ApplyAll([], RecordsAt(AllRead(p, bytes, maxKey), places))) == Seen(s, k) <==> k != [] || Seen(s, k) == []
  {
    var read := AllRead(p, bytes, maxKey);
    assert read == AllLogs(trace, |bytes|);
    var which, at := TraceMirrors(trace, |bytes|);
    assert KeyOk(s.RowOf(k), LogOf(s.log, k), s.nodeTs[s.home(k)]);
    if k != [] {
      KeyRecovers(s.log, read, which, at, k, places);
    } else {
      NoPlaces(s.log, read, which, at, places);
    }
  }

  /** A run after which recovery loses a row: one put of the empty key. */
  method EmptyKeyLost(p: Packing) returns (s: Store, trace: seq<Done>)
    requires Exact(p)
    ensures s.Valid() && TraceOk(p, trace, 1) && s.log == ByKey(trace)
    ensures Seen(s, []) == [map[0 := [7]]] && ByLog(trace, 0) == []
  {
    s := new Store(1);
    var change: Columns := map[0 := [7]];
    var q := s.Put(0, [], change);
    var d := Done(0, Call(LogCodec.PUT, 1, q.ts, 0, [], p.pack(change)), q);
    trace := [d];
    TracePush(p, [], d, 1);
    assert [] + [d] == trace && trace[..0] == [];
    var cols := s.rows[[]].cols;
    assert forall c, v :: c in cols && cols[c] == v <==> Holds(s.rows[[]], c, v);
    assert Holds(s.rows[[]], 0, [7]);
    forall c | c in cols ensures c == 0 { assert Holds(s.rows[[]], c, cols[c]); }
    assert cols == change;
  }

  function AllRead(p: Packing, bytes: seq<seq<Byte>>, maxKey: nat): seq<seq<Entry>> {
    seq(|bytes|, u requires 0 <= u < |bytes| => Entries(p, LogCodec.ReadAll(bytes[u], maxKey)))
  }

  lemma NoPlaces(log: map<Key, seq<Record>>, read: seq<seq<Entry>>, which: seq<seq<nat>>, at: map<Op, Place>, places: seq<Place>)
    requires Mirrors(log, read, which, at) && Lists(read, [], places)
    ensures places == []
  {
    assert places != [] ==> places[0] in places;
    forall pl ensures pl !in places { assert PlaceOk(log, read, which, at, pl); }
  }
}
