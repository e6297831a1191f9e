/**
  The load generator's request accounting (harness/client.cpp, harness/tbench_client_networked.cpp).

  Each method is one atomic step of some thread: what it does under `lock` or `sendLock`, except that the
  transmission of a request and the increment of `numReqsSent` after it are two steps, because the answer
  can be processed in between.
*/
module Client {
  import opened Common

  datatype Status = Init | Warmup | Roi

  /** What one completed request adds to the sample vectors. */
  datatype Sample = Sample(date: nat, queue: nat, svc: nat, sjrn: nat, nic: nat)

  /** The sample vectors. */
  datatype Stats = Stats(date: seq<nat>, queue: seq<nat>, svc: seq<nat>, sjrn: seq<nat>, nic: seq<nat>)

  /** The vectors hold these samples, in this order. */
  predicate Hold(st: Stats, s: seq<Sample>) {
    && |st.date| == |st.queue| == |st.svc| == |st.sjrn| == |st.nic| == |s|
    && forall i :: 0 <= i < |s| ==> s[i] == Sample(st.date[i], st.queue[i], st.svc[i], st.sjrn[i], st.nic[i])
  }

  class Client {
    const warmup: nat
    const max: nat
    var status: Status
    var started: nat
    var inFlight: set<nat>
    var sent: nat
    var completed: nat
    var requestDate: seq<nat>
    var queueTimes: seq<nat>
    var svcTimes: seq<nat>
    var sjrnTimes: seq<nat>
    var nicSjrnTimes: seq<nat>
    /** The vectors written out, once they are. */
    var dumped: Option<Stats>
    /** A thread holds `sendLock`, after `sendfull` and before the increment. */
    var sending: bool
    /** Requests that went out, and those that came back. */
    var transmitted: set<nat>
    var answered: set<nat>
    /** What every answer measured, in the order they came. */
    ghost var measured: seq<Sample>

    /** Ids and counters. */
    ghost predicate Ledger()
      reads this
    {
      && answered <= transmitted && (forall id :: id in transmitted ==> id < started)
      && (forall id: nat :: id in inFlight <==> id < started && id !in answered)
      && |answered| == completed && |transmitted| == sent + (if sending then 1 else 0) <= warmup + max
    }

    ghost predicate Valid()
      reads this
    {
      && warmup > 0 && max > 0 && Ledger()
      && (status.Roi? <==> completed >= warmup) && (status.Init? <==> started == 0)
      && |measured| == completed && Hold(Vectors(), Kept(measured, warmup))
      && dumped == if completed == warmup + max then Some(Vectors()) else None
    }

    function Vectors(): Stats
      reads this
    {
      Stats(requestDate, queueTimes, svcTimes, sjrnTimes, nicSjrnTimes)
    }

    /** The main program refuses to start with a zero count. */
    constructor (warmup: nat, max: nat)
      requires warmup > 0 && max > 0
      ensures Valid() && completed == 0 && sent == 0 && !sending && this.warmup == warmup && this.max == max
      ensures transmitted == {} && answered == {} && measured == []
    {
      this.warmup, this.max, status := warmup, max, Init;
      started, sent, completed, inFlight := 0, 0, 0, {};
      requestDate, queueTimes, svcTimes, sjrnTimes, nicSjrnTimes, dumped := [], [], [], [], [], None;
      sending, transmitted, answered, measured := false, {}, {}, [];
    }

    /** `startReq` */
    method StartReq() returns (id: nat)
      requires Valid()
      modifies this
      ensures Valid() && id == old(started) && started == id + 1 && inFlight == old(inFlight) + {id}
      ensures completed == old(completed) && sent == old(sent) && sending == old(sending)
      ensures transmitted == old(transmitted) && answered == old(answered) && measured == old(measured)
    {
      if status == Init { status := Warmup; }
      id := started;
      started := started + 1;
      inFlight := inFlight + {id};
    }

    /** `send` up to the transmission; nothing is sent beyond the total. */
    method Transmit(id: nat) returns (went: bool)
      requires Valid() && !sending && id < started && id !in transmitted
      modifies this
      ensures Valid() && went == (old(sent) != warmup + max) && sending == went
      ensures transmitted == old(transmitted) + if went then {id} else {}
      ensures completed == old(completed) && sent == old(sent) && answered == old(answered) && measured == old(measured)
    {
      went := sent != warmup + max;
      if went {
        transmitted := transmitted + {id};
        sending := true;
      }
    }

    /** The rest of `send`. */
    method CountSent()
      requires Valid() && sending
      modifies this
      ensures Valid() && !sending && sent == old(sent) + 1 && completed == old(completed)
      ensures transmitted == old(transmitted) && answered == old(answered) && measured == old(measured)
    {
      sent := sent + 1;
      sending := false;
    }

    /** `finiReq`: the server answers each request it got at most once.  What it measured is kept after the
        warmup only. */
    method FiniReq(id: nat, s: Sample)
      requires Valid() && id in transmitted && id !in answered
      modifies this
      ensures Valid() && completed == old(completed) + 1 && answered == old(answered) + {id}
      ensures inFlight == old(inFlight) - {id} && transmitted == old(transmitted) && measured == old(measured) + [s]
      ensures sent == old(sent) && sending == old(sending)
    {
      Retire(id);
      Collect(s);
      Progress();
      assert Ledger();
    }

    /** The part about the end of the warmup and of the run. */
    method Progress()
      requires warmup > 0 && |measured| == completed <= warmup + max && Hold(Vectors(), Kept(measured, warmup))
      requires status == (if completed > warmup then Roi else Warmup) && dumped.None?
      modifies `status, `dumped, `requestDate, `queueTimes, `svcTimes, `sjrnTimes, `nicSjrnTimes
      ensures status == (if completed >= warmup then Roi else Warmup) && Hold(Vectors(), Kept(measured, warmup))
      ensures dumped == if completed == warmup + max && max > 0 then Some(Vectors()) else None
    {
      if completed == warmup || warmup == 0 {
        StartRoi();
      } else if completed >= warmup + max {
        dumped := Some(Vectors());
      }
    }

    /** The samples part of it. */
    method Collect(s: Sample)
      requires Hold(Vectors(), Kept(measured, warmup)) && (status.Roi? <==> |measured| >= warmup)
      modifies `requestDate, `queueTimes, `svcTimes, `sjrnTimes, `nicSjrnTimes, `measured
      ensures measured == old(measured) + [s] && Hold(Vectors(), Kept(measured, warmup))
    {
      KeptPush(Vectors(), measured, warmup, s);
      if status == Roi { AddSample(s); }
      measured := measured + [s];
    }

    method Retire(id: nat)
      requires Ledger() && id in transmitted && id !in answered
      modifies `inFlight, `answered, `completed
      ensures Ledger() && completed == old(completed) + 1 <= warmup + max
      ensures inFlight == old(inFlight) - {id} && answered == old(answered) + {id}
    {
      inFlight := inFlight - {id};
      answered := answered + {id};
      completed := completed + 1;
      SubsetSize(answered, transmitted);
    }

    method AddSample(s: Sample)
      modifies `requestDate, `queueTimes, `svcTimes, `sjrnTimes, `nicSjrnTimes
      ensures requestDate == old(requestDate) + [s.date] && queueTimes == old(queueTimes) + [s.queue]
      ensures svcTimes == old(svcTimes) + [s.svc] && sjrnTimes == old(sjrnTimes) + [s.sjrn]
      ensures nicSjrnTimes == old(nicSjrnTimes) + [s.nic]
    {
      requestDate := requestDate + [s.date];
      queueTimes := queueTimes + [s.queue];
      svcTimes := svcTimes + [s.svc];
      sjrnTimes := sjrnTimes + [s.sjrn];
      nicSjrnTimes := nicSjrnTimes + [s.nic];
    }

    /** `_startRoi`, with its assertion as a precondition. */
    method StartRoi()
      requires status == Warmup
      modifies `status, `requestDate, `queueTimes, `svcTimes, `sjrnTimes, `nicSjrnTimes
      ensures status == Roi && Hold(Vectors(), [])
    {
      status := Roi;
      requestDate, queueTimes, svcTimes, sjrnTimes, nicSjrnTimes := [], [], [], [], [];
    }
  }

  /** The measurements after the warmup. */
  function Kept(s: seq<Sample>, warmup: nat): seq<Sample> {
    if |s| <= warmup then [] else s[warmup..]
  }

  lemma KeptPush(st: Stats, s: seq<Sample>, warmup: nat, x: Sample)
    requires Hold(st, Kept(s, warmup))
    ensures Hold(if |s| < warmup then st else
                 Stats(st.date + [x.date], st.queue + [x.queue], st.svc + [x.svc], st.sjrn + [x.sjrn], st.nic + [x.nic]), Kept(s + [x], warmup))
  {
    if |s| >= warmup { assert Kept(s + [x], warmup) == Kept(s, warmup) + [x]; }
  }

  /** What every reachable state satisfies. */
  lemma Accounting(c: Client)
    requires c.Valid()
    ensures c.completed <= c.sent + (if c.sending then 1 else 0) <= c.warmup + c.max
    ensures forall id: nat :: id in c.inFlight <==> id < c.started && id !in c.answered
    ensures c.dumped.Some? ==> |c.measured| == c.warmup + c.max && Hold(c.dumped.value, c.measured[c.warmup..])
  {
    SubsetSize(c.answered, c.transmitted);
  }

  // ----- runs -----

  datatype Step = Start | Send(id: nat) | Count | Answer(id: nat, sample: Sample)

  /** Any interleaving; steps that cannot happen are skipped.  What is written out in the end is what the
      answers after the warmup measured, in their order. */
  method Run(warmup: nat, max: nat, steps: seq<Step>) returns (c: Client, answers: seq<Sample>)
    requires warmup > 0 && max > 0
    ensures c.Valid() && c.warmup == warmup && c.max == max && c.completed == |answers|
    ensures c.dumped.Some? <==> |answers| == warmup + max
    ensures c.dumped.Some? ==> Hold(c.dumped.value, answers[warmup..])
  {
    c := new Client(warmup, max);
    answers := [];
    for i := 0 to |steps|
      invariant c.Valid() && c.warmup == warmup && c.max == max && c.measured == answers
    {
      match steps[i] {
        case Start => var _ := c.StartReq();
        case Send(id) => if !c.sending && id < c.started && id !in c.transmitted { var _ := c.Transmit(id); }
        case Count => if c.sending { c.CountSent(); }
        case Answer(id, s) =>
          if id in c.transmitted && id !in c.answered {
            c.FiniReq(id, s);
            answers := answers + [s];
          }
      }
    }
  }

  /** `completed <= sent` fails exactly while a send is in progress whose answer, like every other, has been
      processed. */
  lemma CompletedIsSent(c: Client)
    requires c.Valid()
    ensures c.completed <= c.sent <==> !(c.sending && c.answered == c.transmitted)
  {
    SubsetSize(c.answered, c.transmitted);
    if c.answered != c.transmitted {
      var x :| x in c.transmitted && x !in c.answered;
      SubsetSize(c.answered, c.transmitted - {x});
    }
  }

  /** A run that gets there. */
  method CompletedBeforeCounted(s: Sample) returns (c: Client)
    ensures c.Valid() && c.completed == 1 && c.sent == 0 && c.sending
  {
    c := new Client(1, 1);
    var id := c.StartReq();
    var _ := c.Transmit(id);
    c.FiniReq(id, s);
  }
}
