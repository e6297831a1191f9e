/**
  The log's byte format (masstree/log.cc): `logrec_*::store`, `loginfo::record` and `logrecord::extract`.

  The record headers are C structures.  `logrec_kv` and `logrec_kvdelta` end in a 4-byte field, so their
  sizes, 24 and 32, include four bytes of padding: the key starts at offset 20 or 28, and the last four
  bytes of a record are whatever the buffer held before.
*/
module LogCodec {
  import opened Common

  const NONE: nat := 0
  const PUT: nat := 0x5455506B
  const PUT1: nat := 0x3155506B
  const MODIFY: nat := 0x444F4D6B
  const REMOVE: nat := 0x4D45526B
  const EPOCH: nat := 0x4F50456B
  const QUIESCE: nat := 0x4955516B
  const WAKE: nat := 0x4B41576B

  const WORD32: nat := 0x1_0000_0000
  const WORD64: nat := 0x1_0000_0000_0000_0000

  datatype Rec =
    | Kv(command: nat, key: seq<Byte>, val: seq<Byte>, ts: nat)
    | Delta(key: seq<Byte>, val: seq<Byte>, prevTs: nat, ts: nat)
    | Epoch(epoch: nat)
    | Plain(command: nat)

  /** What the server can log: the fields fit, and the key is not too long. */
  predicate RecOk(r: Rec, maxKey: nat) {
    match r
    case Kv(c, key, val, ts) =>
      (c == PUT || c == PUT1 || c == REMOVE) && |key| <= maxKey && 24 + |key| + |val| < WORD32 && ts < WORD64
    case Delta(key, val, p, ts) => |key| <= maxKey && 32 + |key| + |val| < WORD32 && p < WORD64 && ts < WORD64
    case Epoch(e) => e < WORD64
    case Plain(c) => c == WAKE || c == QUIESCE
  }

  function Size(r: Rec): (n: nat)
    ensures n >= 8
  {
    match r
    case Kv(_, key, val, _) => 24 + |key| + |val|
    case Delta(key, val, _, _) => 32 + |key| + |val|
    case Epoch(_) => 16
    case Plain(_) => 8
  }

  // ----- numbers as little-endian bytes -----

  function Le(x: nat, n: nat): (s: seq<Byte>)
    ensures |s| == n
    decreases n, x
  {
    if n == 0 then [] else [x % 256] + Le(x / 256, n - 1)
  }

  function FromLe(s: seq<Byte>): nat {
    if s == [] then 0 else s[0] + 256 * FromLe(s[1..])
  }

  lemma {:induction false} LeRoundTrip(x: nat, n: nat)
    requires x < Power(n)
    ensures FromLe(Le(x, n)) == x
    decreases n
  {
    if n > 0 { LeRoundTrip(x / 256, n - 1); }
  }

  lemma Powers()
    ensures Power(4) == WORD32 && Power(8) == WORD64
  {
    assert Power(4) == WORD32;
    assert Power(8) == 256 * (256 * (256 * (256 * Power(4))));
  }

  function U32(s: seq<Byte>, at: nat): nat
    requires at + 4 <= |s|
  {
    FromLe(s[at..at + 4])
  }

  function U64(s: seq<Byte>, at: nat): nat
    requires at + 8 <= |s|
  {
    FromLe(s[at..at + 8])
  }

  // ----- headers -----

  /** A header field: a number in so many bytes. */
  datatype Field = Field(x: nat, n: nat)

  function Offset(fs: seq<Field>, i: nat): nat
    requires i <= |fs|
  {
    if i == 0 then 0 else Offset(fs, i - 1) + fs[i - 1].n
  }

  function Bytes(fs: seq<Field>): seq<Byte> {
    if fs == [] then []
    else Bytes(fs[..|fs| - 1]) + Le(fs[|fs| - 1].x, fs[|fs| - 1].n)
  }

  lemma {:induction false} OffsetPrefix(fs: seq<Field>, k: nat, i: nat)
    requires i <= k <= |fs|
    ensures Offset(fs[..k], i) == Offset(fs, i)
  {
    if i > 0 { OffsetPrefix(fs, k, i - 1); }
  }

  lemma {:induction false} BytesLength(fs: seq<Field>)
    ensures |Bytes(fs)| == Offset(fs, |fs|)
  {
    if fs != [] {
      var n := |fs| - 1;
      BytesLength(fs[..n]);
      OffsetPrefix(fs, n, n);
    }
  }

  /** Every field is read back at its offset, whatever follows the header. */
  lemma {:induction false} FieldRead(fs: seq<Field>, i: nat, tail: seq<Byte>)
    requires i < |fs| && fs[i].x < Power(fs[i].n)
    ensures Offset(fs, i) + fs[i].n <= |Bytes(fs)|
    ensures FromLe((Bytes(fs) + tail)[Offset(fs, i)..Offset(fs, i) + fs[i].n]) == fs[i].x
    decreases |fs|
  {
    var n := |fs| - 1;
    var last := Le(fs[n].x, fs[n].n);
    BytesLength(fs[..n]);
    OffsetPrefix(fs, n, n);
    if i == n {
      LeRoundTrip(fs[n].x, fs[n].n);
      assert (Bytes(fs[..n]) + last + tail)[Offset(fs, n)..Offset(fs, n) + fs[n].n] == last;
    } else {
      FieldRead(fs[..n], i, last + tail);
      OffsetPrefix(fs, n, i);
      assert Bytes(fs) + tail == Bytes(fs[..n]) + (last + tail);
    }
  }

  // ----- store and extract -----

  function Fields(r: Rec): seq<Field> {
    match r
    case Kv(c, key, _, ts) => [Field(c, 4), Field(Size(r), 4), Field(ts, 8), Field(|key|, 4)]
    case Delta(key, _, p, ts) => [Field(MODIFY, 4), Field(Size(r), 4), Field(ts, 8), Field(p, 8), Field(|key|, 4)]
    case Epoch(e) => [Field(EPOCH, 4), Field(16, 4), Field(e, 8)]
    case Plain(c) => [Field(c, 4), Field(8, 4)]
  }

  function HeaderSize(r: Rec): nat {
    match r case Kv(_, _, _, _) => 20 case Delta(_, _, _, _) => 28 case Epoch(_) => 16 case Plain(_) => 8
  }

  /** The part before the key: everything for records without one. */
  function Header(r: Rec): (h: seq<Byte>)
    ensures |h| == HeaderSize(r)
  {
    HeaderLength(r);
    Bytes(Fields(r))
  }

  lemma HeaderLength(r: Rec)
    ensures |Bytes(Fields(r))| == HeaderSize(r)
  {
    var fs := Fields(r);
    BytesLength(fs);
    assert Offset(fs, 1) == 4 && Offset(fs, 2) == 8;
    if r.Kv? || r.Delta? { assert Offset(fs, 3) == 16; }
    if r.Delta? { assert Offset(fs, 4) == 24; }
  }

  /** A stored record; `pad` is what was in the buffer where its last bytes are. */
  function Encode(r: Rec, pad: seq<Byte>): (s: seq<Byte>)
    requires |pad| == 4
    ensures |s| == Size(r)
  {
    Header(r) +
    match r
    case Kv(_, key, val, _) => key + val + pad
    case Delta(key, val, _, _) => key + val + pad
    case Epoch(_) => []
    case Plain(_) => []
  }

  /** `logrecord::extract` on the bytes from the current position to the end. */
  function Extract(s: seq<Byte>, maxKey: nat): (r: Option<Rec>) {
    if |s| < 8 then None
    else
      var command, size := U32(s, 0), U32(s, 4);
      if size < 8 || |s| < size || command == NONE then None
      else if command == PUT || command == PUT1 || command == REMOVE then
        if size < 24 || U32(s, 16) > maxKey || 24 + U32(s, 16) > size then None
        else var n := U32(s, 16); Some(Kv(command, s[20..20 + n], s[20 + n..size - 4], U64(s, 8)))
      else if command == MODIFY then
        if size < 32 || U32(s, 24) > maxKey || 32 + U32(s, 24) > size then None
        else var n := U32(s, 24); Some(Delta(s[28..28 + n], s[28 + n..size - 4], U64(s, 16), U64(s, 8)))
      else if command == EPOCH then
        if size < 16 then None else Some(Epoch(U64(s, 8)))
      else Some(Plain(command))
  }

  // ----- one record -----

  lemma KvFields(r: Rec, tail: seq<Byte>)
    requires r.Kv? && r.command < WORD32 && Size(r) < WORD32 && r.ts < WORD64
    ensures var s := Header(r) + tail;
      U32(s, 0) == r.command && U32(s, 4) == Size(r) && U64(s, 8) == r.ts && U32(s, 16) == |r.key|
  {
    Powers();
    var fs := Fields(r);
    FieldRead(fs, 0, tail);
    FieldRead(fs, 1, tail);
    FieldRead(fs, 2, tail);
    FieldRead(fs, 3, tail);
  }

  lemma DeltaFields(r: Rec, tail: seq<Byte>)
    requires r.Delta? && Size(r) < WORD32 && r.ts < WORD64 && r.prevTs < WORD64
    ensures var s := Header(r) + tail;
      U32(s, 0) == MODIFY && U32(s, 4) == Size(r) && U64(s, 8) == r.ts && U64(s, 16) == r.prevTs && U32(s, 24) == |r.key|
  {
    Powers();
    var fs := Fields(r);
    FieldRead(fs, 0, tail);
    FieldRead(fs, 1, tail);
    FieldRead(fs, 2, tail);
    FieldRead(fs, 3, tail);
    FieldRead(fs, 4, tail);
  }

  lemma SmallFields(r: Rec, tail: seq<Byte>)
    requires (r.Epoch? && r.epoch < WORD64) || (r.Plain? && r.command < WORD32)
    ensures var s := Header(r) + tail;
      U32(s, 0) == (if r.Epoch? then EPOCH else r.command) && U32(s, 4) == Size(r) && (r.Epoch? ==> U64(s, 8) == r.epoch)
  {
    Powers();
    var fs := Fields(r);
    FieldRead(fs, 0, tail);
    FieldRead(fs, 1, tail);
    if r.Epoch? { FieldRead(fs, 2, tail); }
  }

  lemma Body(h: seq<Byte>, key: seq<Byte>, val: seq<Byte>, pad: seq<Byte>, rest: seq<Byte>)
    requires |pad| == 4
    ensures var s, n := h + (key + val + pad) + rest, |h| + |key|;
      s[|h|..n] == key && s[n..n + |val|] == val
  {
  }

  lemma ExtractKv(r: Rec, s: seq<Byte>, pad: seq<Byte>, rest: seq<Byte>, maxKey: nat)
    requires RecOk(r, maxKey) && |pad| == 4 && r.Kv? && s == Header(r) + (r.key + r.val + pad) + rest
    ensures Extract(s, maxKey) == Some(r)
  {
    assert s == Header(r) + (r.key + r.val + pad + rest);
    KvFields(r, r.key + r.val + pad + rest);
    Body(Header(r), r.key, r.val, pad, rest);
  }

  lemma ExtractDelta(r: Rec, s: seq<Byte>, pad: seq<Byte>, rest: seq<Byte>, maxKey: nat)
    requires RecOk(r, maxKey) && |pad| == 4 && r.Delta? && s == Header(r) + (r.key + r.val + pad) + rest
    ensures Extract(s, maxKey) == Some(r)
  {
    assert s == Header(r) + (r.key + r.val + pad + rest);
    DeltaFields(r, r.key + r.val + pad + rest);
    Body(Header(r), r.key, r.val, pad, rest);
  }

  /** A stored record is read back, whatever follows it. */
  lemma ExtractStored(r: Rec, pad: seq<Byte>, rest: seq<Byte>, maxKey: nat)
    requires RecOk(r, maxKey) && |pad| == 4
    ensures Extract(Encode(r, pad) + rest, maxKey) == Some(r)
  {
    var s := Encode(r, pad) + rest;
    if r.Kv? {
      ExtractKv(r, s, pad, rest, maxKey);
    } else if r.Delta? {
      ExtractDelta(r, s, pad, rest, maxKey);
    } else {
      assert s == Header(r) + rest;
      SmallFields(r, rest);
    }
  }

  /** A record of which the last byte is missing is not read at all. */
  lemma ExtractCut(r: Rec, pad: seq<Byte>, n: nat, maxKey: nat)
    requires RecOk(r, maxKey) && |pad| == 4 && n < Size(r)
    ensures Extract(Encode(r, pad)[..n], maxKey) == None
  {
    if n >= 8 {
      var s := Encode(r, pad);
      ExtractSize(r, pad);
      assert s[..n][4..8] == s[4..8];
    }
  }

  lemma ExtractSize(r: Rec, pad: seq<Byte>)
    requires RecOk(r, |if r.Kv? || r.Delta? then r.key else []|) && |pad| == 4
    ensures U32(Encode(r, pad), 4) == Size(r)
  {
    if r.Kv? {
      KvFields(r, r.key + r.val + pad);
    } else if r.Delta? {
      DeltaFields(r, r.key + r.val + pad);
    } else {
      assert Encode(r, pad) == Header(r) + [];
      SmallFields(r, []);
    }
  }

  // ----- whole logs -----

  predicate AllOk(rs: seq<Rec>, pads: seq<seq<Byte>>, maxKey: nat) {
    |pads| == |rs| && (forall i :: 0 <= i < |rs| ==> RecOk(rs[i], maxKey) && |pads[i]| == 4)
  }

  /** Records stored back to back. */
  function EncodeAll(rs: seq<Rec>, pads: seq<seq<Byte>>): seq<Byte>
    requires |pads| == |rs| && forall i :: 0 <= i < |rs| ==> |pads[i]| == 4
  {
    if rs == [] then [] else Encode(rs[0], pads[0]) + EncodeAll(rs[1..], pads[1..])
  }

  /** How many of the records fit whole into the first `n` bytes. */
  function Whole(rs: seq<Rec>, n: nat): (k: nat)
    ensures k <= |rs|
  {
    if rs == [] || n < Size(rs[0]) then 0 else 1 + Whole(rs[1..], n - Size(rs[0]))
  }

  /** Repeated `extract` until the end or a failure. */
  function ReadAll(s: seq<Byte>, maxKey: nat): seq<Rec>
    decreases |s|
  {
    if s == [] then []
    else match Extract(s, maxKey)
      case None => []
      case Some(r) => if U32(s, 4) > 0 then [r] + ReadAll(s[U32(s, 4)..], maxKey) else []
  }

  /** On any prefix of a log, reading gives exactly the records that are there whole. */
  lemma {:induction false} ReadPrefix(rs: seq<Rec>, pads: seq<seq<Byte>>, n: nat, maxKey: nat)
    requires AllOk(rs, pads, maxKey) && n <= |EncodeAll(rs, pads)|
    ensures ReadAll(EncodeAll(rs, pads)[..n], maxKey) == rs[..Whole(rs, n)]
    decreases |rs|
  {
    if rs != [] {
      var first, others := Encode(rs[0], pads[0]), EncodeAll(rs[1..], pads[1..]);
      if n < |first| {
        assert (first + others)[..n] == first[..n];
        ExtractCut(rs[0], pads[0], n, maxKey);
      } else {
        var k := n - |first|;
        calc {
          ReadAll(EncodeAll(rs, pads)[..n], maxKey);
          { assert (first + others)[..n] == first + others[..k]; }
          ReadAll(first + others[..k], maxKey);
          { ReadStep(rs[0], pads[0], others[..k], maxKey); }
          [rs[0]] + ReadAll(others[..k], maxKey);
          { ReadPrefix(rs[1..], pads[1..], k, maxKey); }
          [rs[0]] + rs[1..][..Whole(rs[1..], k)];
          rs[..Whole(rs, n)];
        }
      }
    }
  }

  lemma ReadStep(r: Rec, pad: seq<Byte>, rest: seq<Byte>, maxKey: nat)
    requires RecOk(r, maxKey) && |pad| == 4
    ensures ReadAll(Encode(r, pad) + rest, maxKey) == [r] + ReadAll(rest, maxKey)
  {
    ExtractStored(r, pad, rest, maxKey);
    ReadSize(r, pad, rest);
    assert (Encode(r, pad) + rest)[Size(r)..] == rest;
  }

  lemma ReadSize(r: Rec, pad: seq<Byte>, rest: seq<Byte>)
    requires |pad| == 4 && RecOk(r, |if r.Kv? || r.Delta? then r.key else []|)
    ensures U32(Encode(r, pad) + rest, 4) == Size(r)
  {
    ExtractSize(r, pad);
    assert (Encode(r, pad) + rest)[4..8] == Encode(r, pad)[4..8];
  }

  /** A log that is all there is read back as it was written. */
  lemma ReadBack(rs: seq<Rec>, pads: seq<seq<Byte>>, maxKey: nat)
    requires AllOk(rs, pads, maxKey)
    ensures ReadAll(EncodeAll(rs, pads), maxKey) == rs
  {
    var n := |EncodeAll(rs, pads)|;
    ReadPrefix(rs, pads, n, maxKey);
    WholeAll(rs, pads);
    assert EncodeAll(rs, pads)[..n] == EncodeAll(rs, pads);
  }

  lemma {:induction false} WholeAll(rs: seq<Rec>, pads: seq<seq<Byte>>)
    requires |pads| == |rs| && forall i :: 0 <= i < |rs| ==> |pads[i]| == 4
    ensures Whole(rs, |EncodeAll(rs, pads)|) == |rs|
  {
    if rs != [] { WholeAll(rs[1..], pads[1..]); }
  }

  lemma {:induction false} EncodePush(rs: seq<Rec>, pads: seq<seq<Byte>>, r: Rec, pad: seq<Byte>)
    requires |pads| == |rs| && (forall i :: 0 <= i < |rs| ==> |pads[i]| == 4) && |pad| == 4
    ensures EncodeAll(rs + [r], pads + [pad]) == EncodeAll(rs, pads) + Encode(r, pad)
  {
    if rs == [] {
      assert rs + [r] == [r] && pads + [pad] == [pad];
    } else {
      assert (rs + [r])[1..] == rs[1..] + [r] && (pads + [pad])[1..] == pads[1..] + [pad];
      EncodePush(rs[1..], pads[1..], r, pad);
    }
  }

  lemma AllOkPush(rs: seq<Rec>, pads: seq<seq<Byte>>, r: Rec, pad: seq<Byte>, maxKey: nat)
    requires AllOk(rs, pads, maxKey) && RecOk(r, maxKey) && |pad| == 4
    ensures AllOk(rs + [r], pads + [pad], maxKey)
  {}

  // ----- the log buffer -----

  class Log {
    /** The buffer threads record into, and the one the logger writes from. */
    var buf: array<Byte>
    var spare: array<Byte>
    const maxKey: nat
    /** What the logger has written to the file. */
    var file: seq<Byte>
    var pos: nat
    var logEpoch: nat
    var wakeEpoch: nat
    var quiescentEpoch: nat
    var flushedEpoch: nat
    /** The records stored so far, and the buffer's old bytes they kept. */
    ghost var recs: seq<Rec>
    ghost var pads: seq<seq<Byte>>

    ghost predicate Valid()
      reads this, buf
    {
      pos <= buf.Length == spare.Length && buf != spare && Holds(Bytes(), recs, pads, maxKey)
    }

    /** All bytes of the log, in the file and in the buffer. */
    ghost function Bytes(): seq<Byte>
      reads this, buf
      requires pos <= buf.Length
    {
      file + buf[..pos]
    }

    constructor (len: nat, maxKey: nat)
      ensures Valid() && pos == 0 && recs == [] && buf.Length == len && fresh(buf) && fresh(spare) && this.maxKey == maxKey
      ensures logEpoch == 0
    {
      buf, spare, file := new Byte[len](_ => 0), new Byte[len](_ => 0), [];
      this.maxKey := maxKey;
      pos, logEpoch, wakeEpoch, quiescentEpoch, flushedEpoch := 0, 0, 0, 0, 0;
      recs, pads := [], [];
    }

    /** Puts bytes at the current position and moves it on by `size`, over what was there after them. */
    method Write(bytes: seq<Byte>, size: nat)
      requires |bytes| <= size && pos + size <= buf.Length
      modifies `pos, buf
      ensures pos == old(pos) + size
      ensures buf[..pos] == old(buf[..pos]) + bytes + old(buf[pos + |bytes|..pos + size])
    {
      forall i | 0 <= i < |bytes| { buf[pos + i] := bytes[i]; }
      pos := pos + size;
    }

    /** `logrec_*::store` at the current position: the last four bytes are left alone when the record has
        a key. */
    method Store(r: Rec)
      requires Valid() && RecOk(r, maxKey) && pos + Size(r) <= buf.Length
      modifies `pos, `recs, `pads, buf
      ensures Valid() && recs == old(recs) + [r] && pos == old(pos) + Size(r)
    {
      var bytes := Written(r);
      ghost var head, kept := buf[..pos], buf[pos + |bytes|..pos + Size(r)];
      ghost var all, pad := Stored(recs, pads, r, file, head, kept, maxKey);
      Write(bytes, Size(r));
      recs, pads := recs + [r], pads + [pad];
      assert buf[..pos] == all;
    }

    /** `loginfo::record`, when it is this thread's turn: nothing happens without room for all it may
        write.  `wake` is the global wake epoch. */
    method Record(command: nat, epoch: nat, ts: nat, prevTs: nat, key: seq<Byte>, value: seq<Byte>, wake: nat)
      returns (ok: bool, newWake: nat)
      requires Valid() && (command == PUT || command == PUT1 || command == REMOVE) && |key| <= maxKey
      requires 32 + |key| + |value| < WORD32 && epoch < WORD64 && ts < WORD64 && prevTs < WORD64
      modifies `pos, `recs, `pads, `logEpoch, `wakeEpoch, `quiescentEpoch, `flushedEpoch, buf
      ensures Valid() && ok == (old(buf.Length - pos) >= 56 + |key| + |value|)
      ensures !ok ==> newWake == wake && recs == old(recs) && pos == old(pos) && logEpoch == old(logEpoch)
      ensures ok ==> newWake == if old(quiescentEpoch) != 0 && wake < epoch then epoch else wake
      ensures ok ==> logEpoch == epoch && quiescentEpoch == 0
      ensures ok ==> wakeEpoch == if newWake != old(wakeEpoch) && epoch < newWake then epoch else newWake
      ensures ok ==> recs != []
      ensures ok ==> recs == old(recs) + Notes(epoch != old(logEpoch), wakeEpoch != old(wakeEpoch), epoch) + [recs[|recs| - 1]]
      ensures ok ==> var r := recs[|recs| - 1];
        if command == PUT && prevTs != 0 && prevTs % 2 == 0
        then r.Delta? && r.key == key && r.val == value && r.ts == ts && r.prevTs == prevTs
        else r.Kv? && r.command == command && r.key == key && r.val == value && r.ts == ts
      ensures flushedEpoch == if ok && old(flushedEpoch == quiescentEpoch != 0) then epoch else old(flushedEpoch)
    {
      newWake := wake;
      ok := buf.Length - pos >= Size(Delta(key, value, prevTs, ts)) + 16 + 8;
      if ok {
        newWake := Announce(epoch, wake);
        Store(Logged(command, ts, prevTs, key, value));
      }
    }

    /** The epoch and wake records that come before a record. */
    method Announce(epoch: nat, wake: nat) returns (newWake: nat)
      requires Valid() && epoch < WORD64 && buf.Length - pos >= 16 + 8
      modifies `pos, `recs, `pads, `logEpoch, `wakeEpoch, `quiescentEpoch, `flushedEpoch, buf
      ensures Valid() && pos <= old(pos) + 24 && logEpoch == epoch && quiescentEpoch == 0
      ensures newWake == if old(quiescentEpoch) != 0 && wake < epoch then epoch else wake
      ensures wakeEpoch == if newWake != old(wakeEpoch) && epoch < newWake then epoch else newWake
      ensures recs == old(recs) + Notes(epoch != old(logEpoch), wakeEpoch != old(wakeEpoch), epoch)
      ensures flushedEpoch == if old(flushedEpoch == quiescentEpoch != 0) then epoch else old(flushedEpoch)
    {
      newWake := wake;
      ghost var was := recs;
      NoteEpoch(epoch);
      if quiescentEpoch != 0 {
        if flushedEpoch == quiescentEpoch { flushedEpoch := epoch; }
        quiescentEpoch := 0;
        if newWake < epoch { newWake := epoch; }
      }
      ghost var mid := recs;
      NoteWake(if newWake != wakeEpoch && epoch < newWake then epoch else newWake);
      NotesJoin(was, mid, recs, epoch != old(logEpoch), wakeEpoch != old(wakeEpoch), epoch);
    }

    /** A new epoch is recorded. */
    method NoteEpoch(epoch: nat)
      requires Valid() && epoch < WORD64 && buf.Length - pos >= 16
      modifies `pos, `recs, `pads, `logEpoch, buf
      ensures Valid() && old(pos) <= pos <= old(pos) + 16 && logEpoch == epoch
      ensures recs == if epoch != old(logEpoch) then old(recs) + [Epoch(epoch)] else old(recs)
    {
      if epoch != logEpoch {
        logEpoch := epoch;
        Store(Epoch(epoch));
      }
    }

    /** So is a new wake epoch. */
    method NoteWake(we: nat)
      requires Valid() && buf.Length - pos >= 8
      modifies `pos, `recs, `pads, `wakeEpoch, buf
      ensures Valid() && pos <= old(pos) + 8 && wakeEpoch == we
      ensures recs == if we != old(wakeEpoch) then old(recs) + [Plain(WAKE)] else old(recs)
    {
      if we != wakeEpoch {
        wakeEpoch := we;
        Store(Plain(WAKE));
      }
    }

    /** One round of `loginfo::logger`: a log without new records is marked quiescent, and what the buffer
        holds goes to the file. */
    method LoggerRound(epoch: nat, wake: nat, waiting: bool)
      requires Valid() && buf.Length >= 32 && epoch < WORD64
      modifies this, buf
      ensures Valid() && pos == 0 && file == Bytes()
      ensures (buf == old(buf) && spare == old(spare)) || (buf == old(spare) && spare == old(buf))
      ensures wakeEpoch == wake
      ensures recs == if old(pos == 0 && (quiescentEpoch == 0 || wakeEpoch != wake) && epoch != logEpoch) && epoch != wake && !waiting
        then old(recs) + [Epoch(epoch), Plain(QUIESCE)] else old(recs)
      ensures logEpoch == if recs != old(recs) then epoch else old(logEpoch)
      ensures quiescentEpoch == if recs != old(recs) then epoch else if wake == old(wakeEpoch) then old(quiescentEpoch) else 0
      ensures flushedEpoch == if old(pos) > 0 || recs != old(recs) then logEpoch else old(flushedEpoch)
    {
      if wakeEpoch != wake { wakeEpoch, quiescentEpoch := wake, 0; }
      if pos == 0 && quiescentEpoch == 0 && epoch != logEpoch && epoch != wake && !waiting { Quiesce(epoch); }
      if pos > 0 { Flush(); }
    }

    /** The quiescence notification. */
    method Quiesce(epoch: nat)
      requires Valid() && buf.Length - pos >= 32 && epoch < WORD64
      modifies `pos, `recs, `pads, `logEpoch, `quiescentEpoch, buf
      ensures Valid() && pos > 0 && quiescentEpoch == logEpoch == epoch
      ensures recs == old(recs) + [Epoch(epoch), Plain(QUIESCE)]
    {
      ghost var was := recs;
      quiescentEpoch, logEpoch := epoch, epoch;
      Store(Epoch(epoch));
      Store(Plain(QUIESCE));
      assert was + [Epoch(epoch)] + [Plain(QUIESCE)] == was + [Epoch(epoch), Plain(QUIESCE)];
    }

    /** The buffers change places, and the full one is written. */
    method Flush()
      requires Valid()
      modifies `file, `buf, `spare, `pos, `flushedEpoch
      ensures Valid() && pos == 0 && file == Bytes() && buf == old(spare) && spare == old(buf) && flushedEpoch == logEpoch
    {
      file := file + buf[..pos];
      buf, spare, pos := spare, buf, 0;
      flushedEpoch := logEpoch;
      assert buf[..0] == [] && file + [] == file;
    }
  }

  /** The records before an operation's own. */
  function Notes(newEpoch: bool, newWake: bool, epoch: nat): seq<Rec> {
    (if newEpoch then [Epoch(epoch)] else []) + (if newWake then [Plain(WAKE)] else [])
  }

  lemma NotesJoin(was: seq<Rec>, mid: seq<Rec>, all: seq<Rec>, a: bool, b: bool, epoch: nat)
    requires mid == (if a then was + [Epoch(epoch)] else was) && all == if b then mid + [Plain(WAKE)] else mid
    ensures all == was + Notes(a, b, epoch)
  {}

  /** These bytes are these records, one after the other. */
  ghost predicate Holds(bytes: seq<Byte>, recs: seq<Rec>, pads: seq<seq<Byte>>, maxKey: nat) {
    AllOk(recs, pads, maxKey) && bytes == EncodeAll(recs, pads)
  }

  /** One more record behind `head`, over the bytes `kept`. */
  lemma Stored(rs: seq<Rec>, pads: seq<seq<Byte>>, r: Rec, file: seq<Byte>, head: seq<Byte>, kept: seq<Byte>, maxKey: nat)
    returns (all: seq<Byte>, pad: seq<Byte>)
    requires Holds(file + head, rs, pads, maxKey) && RecOk(r, maxKey) && |Written(r)| + |kept| == Size(r)
    ensures all == head + Written(r) + kept && Holds(file + all, rs + [r], pads + [pad], maxKey)
  {
    all, pad := head + Written(r) + kept, if Keyed(r) then kept else [0, 0, 0, 0];
    StoredAll(rs, pads, r, pad, file + head, Written(r), kept, maxKey);
    Regroup(file, head, Written(r), kept);
  }

  lemma Regroup(a: seq<Byte>, b: seq<Byte>, c: seq<Byte>, d: seq<Byte>)
    ensures a + (b + c + d) == a + b + c + d
  {}

  /** A put with the timestamp of a live row before it is logged as a modification of that row. */
  function Logged(command: nat, ts: nat, prevTs: nat, key: seq<Byte>, value: seq<Byte>): Rec {
    if command == PUT && prevTs != 0 && prevTs % 2 == 0 then Delta(key, value, prevTs, ts)
    else Kv(command, key, value, ts)
  }

  predicate Keyed(r: Rec) {
    r.Kv? || r.Delta?
  }

  /** The bytes a store writes. */
  function Written(r: Rec): (s: seq<Byte>)
    ensures |s| == if Keyed(r) then Size(r) - 4 else Size(r)
  {
    Header(r) + match r
      case Kv(_, key, val, _) => key + val
      case Delta(key, val, _, _) => key + val
      case Epoch(_) => []
      case Plain(_) => []
  }

  lemma StoredAll(rs: seq<Rec>, pads: seq<seq<Byte>>, r: Rec, pad: seq<Byte>, front: seq<Byte>, bytes: seq<Byte>, kept: seq<Byte>, maxKey: nat)
    requires AllOk(rs, pads, maxKey) && RecOk(r, maxKey) && front == EncodeAll(rs, pads)
    requires bytes == Written(r) && |bytes| + |kept| == Size(r) && pad == if Keyed(r) then kept else [0, 0, 0, 0]
    ensures AllOk(rs + [r], pads + [pad], maxKey) && front + bytes + kept == EncodeAll(rs + [r], pads + [pad])
  {
    AllOkPush(rs, pads, r, pad, maxKey);
    EncodePush(rs, pads, r, pad);
    WrittenIsEncoded(r, pad, kept);
    Joined(front, bytes, kept);
  }

  lemma WrittenIsEncoded(r: Rec, pad: seq<Byte>, kept: seq<Byte>)
    requires |pad| == 4 && kept == if Keyed(r) then pad else []
    ensures Written(r) + kept == Encode(r, pad)
  {
    if r.Kv? || r.Delta? {
      Joined(Header(r), r.key + r.val, pad);
    }
  }

  /** What recovery reads from a log is what was recorded, record by record. */
  lemma RecordedIsRead(log: Log)
    requires log.Valid()
    ensures ReadAll(log.Bytes(), log.maxKey) == log.recs
  {
    ReadBack(log.recs, log.pads, log.maxKey);
  }
}
