/**
  The server's choice of the client to receive from next (harness/tbench_server_networked.cpp,
  harness/server.h).
*/
module Server {
  import opened Common

  /** The position `i` places after the head, going round. */
  function Around(head: nat, i: nat, n: nat): (p: nat)
    requires n > 0
    ensures p < n
  {
    (head + i) % n
  }

  /** How far a position is from the head, going round. */
  function Distance(head: nat, p: nat, n: nat): (d: nat)
    requires p < n
    ensures d < n && Around(head, d, n) == p
  {
    var h := head % n;
    var d := if p >= h then p - h else n + p - h;
    AroundAgain(head / n, h, d, n);
    assert head == head / n * n + h;
    d
  }

  lemma {:induction false} AroundAgain(q: nat, h: nat, d: nat, n: nat)
    requires n > 0 && h < n && d < n
    ensures (q * n + h + d) % n == if h + d < n then h + d else h + d - n
  {
    if q > 0 {
      AroundAgain(q - 1, h, d, n);
      Wrap((q - 1) * n + h + d, n);
      assert q * n == (q - 1) * n + n;
    } else {
      Small(h + d, n);
    }
  }

  lemma Wrap(x: nat, n: nat)
    requires n > 0
    ensures (x + n) % n == x % n
  {
    assert x + n == (x / n + 1) * n + x % n;
    Unique(x + n, x / n + 1, x % n, n);
  }

  lemma Small(x: nat, n: nat)
    requires 0 < n && x < 2 * n
    ensures x % n == if x < n then x else x - n
  {
    if x < n { Unique(x, 0, x, n); } else { Unique(x, 1, x - n, n); }
  }

  lemma Unique(x: nat, q: nat, r: nat, n: nat)
    requires n > 0 && x == q * n + r && r < n
    ensures x % n == r
  {
    var p, s := x / n, x % n;
    assert x == p * n + s;
    if p < q {
      Times(p + 1, q, n);
    } else if q < p {
      Times(q + 1, p, n);
    }
  }

  // ----- selection -----

  /** The first ready client from the head on, or none; `tried` are known not to be ready. */
  function Choice(ready: seq<bool>, head: nat, tried: nat): (c: Option<nat>)
    requires |ready| > 0
    ensures c.Some? ==> c.value < |ready| && ready[c.value]
    decreases |ready| - tried
  {
    if tried >= |ready| then None
    else if ready[Around(head, tried, |ready|)] then Some(Around(head, tried, |ready|))
    else Choice(ready, head, tried + 1)
  }

  /** A ready client is only passed over for one that is nearer to the head. */
  lemma {:induction false} ChoiceNearest(ready: seq<bool>, head: nat, tried: nat, c: nat)
    requires |ready| > 0 && c < |ready| && ready[c] && tried <= Distance(head, c, |ready|)
    ensures Choice(ready, head, tried).Some?
    ensures exists d :: tried <= d <= Distance(head, c, |ready|) && Choice(ready, head, tried) == Some(Around(head, d, |ready|))
    decreases |ready| - tried
  {
    if !ready[Around(head, tried, |ready|)] {
      ChoiceNearest(ready, head, tried + 1, c);
    } else {
      assert Choice(ready, head, tried) == Some(Around(head, tried, |ready|));
    }
  }

  class Receiver {
    var clientFds: seq<int>
    var recvClientHead: nat

    constructor (fds: seq<int>)
      ensures clientFds == fds && recvClientHead == 0
    {
      clientFds, recvClientHead := fds, 0;
    }

    /** One pass of the selection loop of `recvReq`. */
    method Select(ready: seq<bool>) returns (idx: Option<nat>)
      requires |ready| == |clientFds| > 0
      modifies `recvClientHead
      ensures idx == Choice(ready, old(recvClientHead), 0)
      ensures recvClientHead == (old(recvClientHead) + 1) % |clientFds|
    {
      var n := |clientFds|;
      idx := None;
      var i := 0;
      while i < n
        modifies {}
        invariant 0 <= i <= n && idx == None && Choice(ready, recvClientHead, 0) == Choice(ready, recvClientHead, i)
      {
        var p := Around(recvClientHead, i, n);
        if ready[p] {
          idx := Some(p);
          break;
        }
        i := i + 1;
      }
      recvClientHead := (recvClientHead + 1) % n;
    }

    /** `removeClient` */
    method RemoveClient(fd: int)
      requires fd in clientFds
      modifies `clientFds
      ensures exists i :: 0 <= i < |old(clientFds)| && old(clientFds)[i] == fd && fd !in old(clientFds)[..i]
                          && clientFds == old(clientFds)[..i] + old(clientFds)[i + 1..]
    {
      var i := 0;
      while clientFds[i] != fd
        modifies {}
        invariant 0 <= i < |clientFds| && fd !in clientFds[..i]
        decreases |clientFds| - i
      {
        assert clientFds[..i + 1] == clientFds[..i] + [clientFds[i]];
        i := i + 1;
        if i == |clientFds| { assert clientFds[..i] == clientFds; }
      }
      clientFds := clientFds[..i] + clientFds[i + 1..];
    }

    /** `checkNewClient`, when a connection was accepted. */
    method AddClient(fd: int)
      modifies `clientFds
      ensures clientFds == old(clientFds) + [fd]
    {
      clientFds := clientFds + [fd];
    }
  }

  // ----- fairness -----

  /** The head after `t` passes. */
  function HeadAfter(head: nat, t: nat, n: nat): nat
    requires n > 0
  {
    if t == 0 then head else (HeadAfter(head, t - 1, n) + 1) % n
  }

  lemma {:induction false} HeadMoves(head: nat, t: nat, n: nat)
    requires n > 0
    ensures HeadAfter(head, t, n) % n == (head + t) % n
  {
    if t > 0 {
      HeadMoves(head, t - 1, n);
      var h := HeadAfter(head, t - 1, n);
      SameNext(h, head + t - 1, n);
      Unique((h + 1) % n, 0, (h + 1) % n, n);
    }
  }

  lemma SameNext(a: nat, b: nat, n: nat)
    requires n > 0 && a % n == b % n
    ensures (a + 1) % n == (b + 1) % n
  {
    NextRemainder(a, n);
    NextRemainder(b, n);
  }

  lemma NextRemainder(a: nat, n: nat)
    requires n > 0
    ensures (a + 1) % n == if a % n + 1 == n then 0 else a % n + 1
  {
    var q, r := a / n, a % n;
    assert a == q * n + r;
    if r + 1 == n {
      assert a + 1 == (q + 1) * n + 0;
      Unique(a + 1, q + 1, 0, n);
    } else {
      Unique(a + 1, q, r + 1, n);
    }
  }

  /** While the list of clients stays as it is, a client that stays ready is chosen within as many passes
      as there are clients, from any head and whatever the others do.  `ready[t]` is what `select` reports
      in pass `t`. */
  lemma ChosenInTime(ready: seq<seq<bool>>, head: nat, c: nat, n: nat) returns (t: nat)
    requires n > 0 && c < n && |ready| == n
    requires forall i :: 0 <= i < n ==> |ready[i]| == n && ready[i][c]
    ensures t < n && Choice(ready[t], HeadAfter(head, t, n), 0) == Some(c)
  {
    t := Distance(head, c, n);
    HeadMoves(head, t, n);
    assert Around(HeadAfter(head, t, n), 0, n) == c;
  }
}
