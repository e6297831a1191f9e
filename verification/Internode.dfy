/**
  Interior nodes in place (masstree/masstree_struct.hh `internode`, and the splitting of interior
  nodes in masstree/masstree_split.hh).
*/
module Internode {
  import opened Common

  /** A pointer to a child node. */
  datatype Ref = Ref(id: nat)

  const NULL: Ref := Ref(0)

  /** The child inserted with key position `p` comes just right of that key. */
  function InsertedKids(kids: seq<Ref>, p: nat, c: Ref): (r: seq<Ref>)
    requires p < |kids|
    ensures |r| == |kids| + 1
  {
    Inserted(kids, p + 1, c)
  }

  /** Arrays whose contents moved up around a new entry. */
  lemma InsertedAt(keys: seq<nat>, kids: seq<Ref>, n: nat, p: nat, k: nat, c: Ref, keys': seq<nat>, kids': seq<Ref>)
    requires |keys| == |keys'| == WIDTH && |kids| == |kids'| == WIDTH + 1 && p <= n < WIDTH
    requires forall i {:trigger keys'[i]} :: 0 <= i <= n ==> keys'[i] == if i < p then keys[i] else if i == p then k else keys[i - 1]
    requires forall i {:trigger kids'[i]} :: 0 <= i <= n + 1 ==> kids'[i] == if i <= p then kids[i] else if i == p + 1 then c else kids[i - 1]
    ensures keys'[..n + 1] == Inserted(keys[..n], p, k) && kids'[..n + 2] == InsertedKids(kids[..n + 1], p, c)
  {
    var a, b := keys[..p], keys[p..n];
    assert keys[..n][..p] == a && keys[..n][p..] == b;
    assert keys'[..n + 1] == a + [k] + b;
    var d, e := kids[..p + 1], kids[p + 1..n + 1];
    assert kids[..n + 1][..p + 1] == d && kids[..n + 1][p + 1..] == e;
    assert kids'[..n + 2] == d + [c] + e;
  }

  /** The `parent_` fields of the children. */
  class Parents {
    var of: map<Ref, Ref>
  }

  class Node {
    const self: Ref
    var nkeys: nat
    const ikey: array<nat>
    const child: array<Ref>

    constructor (self: Ref)
      ensures Valid() && nkeys == 0 && this.self == self && fresh(ikey) && fresh(child)
    {
      this.self := self;
      nkeys := 0;
      ikey := new nat[WIDTH](_ => 0);
      child := new Ref[WIDTH + 1](_ => Ref(0));
    }

    ghost predicate Valid()
      reads this
    {
      ikey.Length == WIDTH && child.Length == WIDTH + 1 && nkeys <= WIDTH
    }

    ghost function Keys(): seq<nat>
      reads this, ikey
      requires Valid()
    {
      ikey[..nkeys]
    }

    ghost function Kids(): seq<Ref>
      reads this, child
      requires Valid()
    {
      child[..nkeys + 1]
    }

    method Assign(p: nat, k: nat, c: Ref, parents: Parents)
      requires Valid() && p < WIDTH
      modifies ikey, child, parents
      ensures forall i :: 0 <= i < WIDTH ==> ikey[i] == if i == p then k else old(ikey[i])
      ensures forall i :: 0 <= i < WIDTH + 1 ==> child[i] == if i == p + 1 then c else old(child[i])
      ensures parents.of == old(parents.of)[c := self]
    {
      parents.of := parents.of[c := self];
      child[p + 1] := c;
      ikey[p] := k;
    }

    /** Copies `n` keys, each with the child to its right, from another node. */
    method ShiftFrom(p: nat, x: Node, xp: nat, n: nat)
      requires Valid() && x.Valid() && x.ikey != ikey && x.child != child
      requires p + n <= WIDTH && xp + n <= WIDTH
      modifies ikey, child
      ensures forall i :: 0 <= i < WIDTH ==> ikey[i] == if p <= i < p + n then x.ikey[xp + i - p] else old(ikey[i])
      ensures forall i :: 0 <= i < WIDTH + 1 ==>
        child[i] == if p < i <= p + n then x.child[xp + i - p] else old(child[i])
    {
      forall i | 0 <= i < n { ikey[p + i] := x.ikey[xp + i]; }
      forall i | 0 <= i < n { child[p + 1 + i] := x.child[xp + 1 + i]; }
    }

    /** Moves `n` keys and right children up by one position, last child first. */
    method ShiftUp(xp: nat, n: nat)
      requires Valid() && xp + n < WIDTH
      modifies ikey, child
      ensures forall i :: 0 <= i < WIDTH ==> ikey[i] == if xp < i <= xp + n then old(ikey[i - 1]) else old(ikey[i])
      ensures forall i :: 0 <= i < WIDTH + 1 ==>
        child[i] == if xp + 1 < i <= xp + 1 + n then old(child[i - 1]) else old(child[i])
    {
      forall i | 0 <= i < n { ikey[xp + 1 + i] := ikey[xp + i]; }
      var a := n;
      while a > 0
        modifies child
        invariant 0 <= a <= n
        invariant forall i :: 0 <= i < child.Length ==>
          child[i] == if xp + 1 + a < i <= xp + 1 + n then old(child[i - 1]) else old(child[i])
      {
        child[xp + 1 + a] := child[xp + a];
        a := a - 1;
      }
    }

    /** Moves `n` keys and right children down by one position, first child first. */
    method ShiftDown(p: nat, n: nat)
      requires Valid() && p + 1 + n <= WIDTH
      modifies ikey, child
      ensures forall i :: 0 <= i < WIDTH ==> ikey[i] == if p <= i < p + n then old(ikey[i + 1]) else old(ikey[i])
      ensures forall i :: 0 <= i < WIDTH + 1 ==>
        child[i] == if p + 1 <= i < p + 1 + n then old(child[i + 1]) else old(child[i])
    {
      forall i | 0 <= i < n { ikey[p + i] := ikey[p + 1 + i]; }
      var a := 0;
      while a < n
        modifies child
        invariant 0 <= a <= n
        invariant forall i :: 0 <= i < child.Length ==>
          child[i] == if p + 1 <= i < p + 1 + a then old(child[i + 1]) else old(child[i])
      {
        child[p + 1 + a] := child[p + 2 + a];
        a := a + 1;
      }
    }

    /** A node with room takes a new key and right child. */
    method Insert(p: nat, k: nat, c: Ref, parents: Parents)
      requires Valid() && nkeys < WIDTH && p <= nkeys
      modifies this, ikey, child, parents
      ensures Valid() && Keys() == Inserted(old(Keys()), p, k) && Kids() == InsertedKids(old(Kids()), p, c)
      ensures parents.of == old(parents.of)[c := self]
    {
      ghost var n, keys, kids := nkeys, ikey[..], child[..];
      ShiftUp(p, nkeys - p);
      Assign(p, k, c, parents);
      nkeys := nkeys + 1;
      InsertedAt(keys, kids, n, p, k, c, ikey[..], child[..]);
    }

    /** `remove_leaf`'s removal of key `p` and the child to its right. */
    method Remove(p: nat)
      requires Valid() && p < nkeys
      modifies this, ikey, child
      ensures Valid() && Keys() == old(Keys())[..p] + old(Keys())[p + 1..]
      ensures Kids() == old(Kids())[..p + 1] + old(Kids())[p + 2..]
    {
      ghost var n, keys, kids := nkeys, ikey[..], child[..];
      ShiftDown(p, nkeys - p - 1);
      nkeys := nkeys - 1;
      assert forall i :: 0 <= i < nkeys ==> ikey[i] == (keys[..n][..p] + keys[..n][p + 1..])[i];
      assert forall i :: 0 <= i <= nkeys ==> child[i] == (kids[..n + 1][..p + 1] + kids[..n + 1][p + 2..])[i];
    }
  }

  ghost predicate Apart(nl: Node, nr: Node) {
    nl != nr && nl.ikey != nr.ikey && nl.child != nr.child
  }

  /** Cutting before or after an insertion to the left of the cut. */
  lemma InsertedPrefix(keys: seq<nat>, kids: seq<Ref>, p: nat, m: nat, k: nat, c: Ref)
    requires p < m <= |keys| && |kids| == |keys| + 1
    ensures Inserted(keys[..m - 1], p, k) == Inserted(keys, p, k)[..m]
    ensures InsertedKids(kids[..m], p, c) == InsertedKids(kids, p, c)[..m + 1]
  {}

  /** What `internode_split` copies to the new node is what follows position `m` after the insertion. */
  lemma Copied(keys: seq<nat>, kids: seq<Ref>, p: nat, m: nat, k: nat, c: Ref, rkeys: seq<nat>, rkids: seq<Ref>)
    requires |keys| == |rkeys| == WIDTH && |kids| == |rkids| == WIDTH + 1 && p <= WIDTH && 0 < m <= WIDTH
    requires forall i {:trigger rkeys[i]} :: 0 <= i < WIDTH - m ==>
      rkeys[i] == if m + 1 + i < p then keys[m + 1 + i] else if m + 1 + i == p then k else keys[m + i]
    requires forall i {:trigger rkids[i]} :: 0 <= i <= WIDTH - m ==>
      rkids[i] == if m + i < p then kids[m + 1 + i] else if m + i == p then c else kids[m + i]
    ensures rkeys[..WIDTH - m] == Inserted(keys, p, k)[m + 1..] && rkids[..WIDTH - m + 1] == InsertedKids(kids, p, c)[m + 1..]
    ensures Inserted(keys, p, k)[m] == if p < m then keys[m - 1] else if p == m then k else keys[m]
  {
    forall i | 0 <= i < WIDTH - m ensures rkeys[i] == Inserted(keys, p, k)[m + 1 + i] {
      if m + 1 + i > p { assert Inserted(keys, p, k)[m + 1 + i] == keys[p..][m + i - p]; }
    }
    forall i | 0 <= i <= WIDTH - m ensures rkids[i] == InsertedKids(kids, p, c)[m + 1 + i] {
      if m + i > p { assert InsertedKids(kids, p, c)[m + 1 + i] == kids[p + 1..][m + i - p - 1]; }
    }
  }

  /** The copying part of `internode_split` when the new child goes left or to the very start of the
      new node. */
  method FillNear(nl: Node, nr: Node, p: nat, ka: nat, value: Ref, mid: nat) returns (splitIkey: nat)
    requires nl.Valid() && nr.Valid() && Apart(nl, nr) && nl.nkeys == WIDTH && p <= mid && 0 < mid <= WIDTH
    modifies nr, nr.ikey, nr.child
    ensures nr.Valid() && nr.nkeys == WIDTH - mid
    ensures splitIkey == Inserted(nl.Keys(), p, ka)[mid]
    ensures nr.Keys() == Inserted(nl.Keys(), p, ka)[mid + 1..]
    ensures nr.Kids() == InsertedKids(nl.Kids(), p, value)[mid + 1..]
  {
    nr.nkeys := WIDTH + 1 - (mid + 1);
    if p < mid {
      nr.child[0] := nl.child[mid];
      nr.ShiftFrom(0, nl, mid, WIDTH - mid);
      splitIkey := nl.ikey[mid - 1];
    } else {
      nr.child[0] := value;
      nr.ShiftFrom(0, nl, mid, WIDTH - mid);
      splitIkey := ka;
    }
    assert nl.ikey[..WIDTH] == nl.ikey[..] && nl.child[..WIDTH + 1] == nl.child[..];
    Copied(nl.ikey[..], nl.child[..], p, mid, ka, value, nr.ikey[..], nr.child[..]);
  }

  /** The copying part of `internode_split` when the new child goes further right. */
  method FillFar(nl: Node, nr: Node, p: nat, ka: nat, value: Ref, mid: nat, parents: Parents) returns (splitIkey: nat)
    requires nl.Valid() && nr.Valid() && Apart(nl, nr) && nl.nkeys == WIDTH && 0 < mid < p <= WIDTH
    modifies nr, nr.ikey, nr.child, parents
    ensures nr.Valid() && nr.nkeys == WIDTH - mid
    ensures splitIkey == Inserted(nl.Keys(), p, ka)[mid]
    ensures nr.Keys() == Inserted(nl.Keys(), p, ka)[mid + 1..]
    ensures nr.Kids() == InsertedKids(nl.Kids(), p, value)[mid + 1..]
    ensures parents.of == old(parents.of)[value := nr.self] && value in nr.Kids()
  {
    nr.nkeys := WIDTH + 1 - (mid + 1);
    nr.child[0] := nl.child[mid + 1];
    nr.ShiftFrom(0, nl, mid + 1, p - (mid + 1));
    nr.Assign(p - (mid + 1), ka, value, parents);
    nr.ShiftFrom(p + 1 - (mid + 1), nl, p, WIDTH - p);
    splitIkey := nl.ikey[mid];
    assert nl.ikey[..WIDTH] == nl.ikey[..] && nl.child[..WIDTH + 1] == nl.child[..];
    Copied(nl.ikey[..], nl.child[..], p, mid, ka, value, nr.ikey[..], nr.child[..]);
    assert nr.Kids()[p - mid] == value;
  }

  /** `internode_split`.  The result is the position where the caller still has to insert the new
      child in the left node, or -1. */
  method InternodeSplit(nl: Node, nr: Node, p: nat, ka: nat, value: Ref, splitType: nat, parents: Parents)
    returns (splitIkey: nat, kp: int)
    requires nl.Valid() && nr.Valid() && Apart(nl, nr) && nl.nkeys == WIDTH && p <= WIDTH
    modifies nl, nr, nr.ikey, nr.child, parents
    ensures nl.Valid() && nr.Valid() && nr.nkeys == WIDTH - SplitMid(splitType)
    ensures var mid, keys, kids := SplitMid(splitType), Inserted(old(nl.Keys()), p, ka), InsertedKids(old(nl.Kids()), p, value);
      && splitIkey == keys[mid] && nr.Keys() == keys[mid + 1..] && nr.Kids() == kids[mid + 1..]
      && (if p < mid then kp == p && p <= nl.nkeys < WIDTH && Inserted(nl.Keys(), p, ka) == keys[..mid]
                          && InsertedKids(nl.Kids(), p, value) == kids[..mid + 1]
          else kp == -1 && nl.Keys() == keys[..mid] && nl.Kids() == kids[..mid + 1])
    ensures parents.of.Keys == old(parents.of.Keys) + set c | c in nr.Kids()
    ensures forall c :: c in nr.Kids() ==> c in parents.of && parents.of[c] == nr.self
    ensures forall c :: c in old(parents.of) && c !in nr.Kids() ==> c in parents.of && parents.of[c] == old(parents.of[c])
  {
    var mid := SplitMid(splitType);
    if p <= mid {
      splitIkey := FillNear(nl, nr, p, ka, value, mid);
    } else {
      splitIkey := FillFar(nl, nr, p, ka, value, mid, parents);
    }
    SetParents(nr, parents);
    kp := Shorten(nl, p, mid, ka, value);
  }

  /** The left node keeps what comes before the cut, without the new child. */
  method Shorten(nl: Node, p: nat, mid: nat, ghost ka: nat, ghost value: Ref) returns (kp: int)
    requires nl.Valid() && nl.nkeys == WIDTH && p <= WIDTH && 0 < mid <= WIDTH
    modifies nl
    ensures nl.Valid()
    ensures var keys, kids := Inserted(old(nl.Keys()), p, ka), InsertedKids(old(nl.Kids()), p, value);
      if p < mid then kp == p && p <= nl.nkeys < WIDTH && Inserted(nl.Keys(), p, ka) == keys[..mid]
                      && InsertedKids(nl.Kids(), p, value) == kids[..mid + 1]
      else kp == -1 && nl.Keys() == keys[..mid] && nl.Kids() == kids[..mid + 1]
  {
    ghost var keys, kids := nl.Keys(), nl.Kids();
    if p < mid {
      nl.nkeys := mid - 1;
      kp := p;
      InsertedPrefix(keys, kids, p, mid, ka, value);
      assert nl.Keys() == keys[..mid - 1];
      assert nl.Kids() == kids[..mid];
    } else {
      nl.nkeys := mid;
      kp := -1;
      assert nl.Keys() == keys[..mid] == Inserted(keys, p, ka)[..mid];
      assert nl.Kids() == kids[..mid + 1] == InsertedKids(kids, p, value)[..mid + 1];
    }
  }

  /** Every child of `n` now has `n` as its parent. */
  method SetParents(n: Node, parents: Parents)
    requires n.Valid()
    modifies parents
    ensures parents.of.Keys == old(parents.of.Keys) + set c | c in n.Kids()
    ensures forall c :: c in n.Kids() ==> c in parents.of && parents.of[c] == n.self
    ensures forall c :: c in old(parents.of) && c !in n.Kids() ==> c in parents.of && parents.of[c] == old(parents.of[c])
  {
    for i := 0 to n.nkeys + 1
      invariant parents.of.Keys == old(parents.of.Keys) + set c | c in n.Kids()[..i]
      invariant forall c :: c in n.Kids()[..i] ==> c in parents.of && parents.of[c] == n.self
      invariant forall c :: c in old(parents.of) && c !in n.Kids()[..i] ==> c in parents.of && parents.of[c] == old(parents.of[c])
    {
      assert n.Kids()[..i + 1] == n.Kids()[..i] + [n.child[i]];
      parents.of := parents.of[n.child[i] := n.self];
    }
    assert n.Kids()[..n.nkeys + 1] == n.Kids();
  }

  /** Cutting distinct children makes two disjoint groups; the inserted child is left of the cut only
      when its key is. */
  lemma HalvesApart(kids: seq<Ref>, p: nat, value: Ref, mid: nat, c: Ref)
    requires Distinct(kids) && value !in kids && p < |kids| && mid < |kids|
    requires c in InsertedKids(kids, p, value)[..mid + 1]
    ensures c !in InsertedKids(kids, p, value)[mid + 1..]
    ensures c in kids || (c == value && p < mid)
  {
    var all := InsertedKids(kids, p, value);
    var i :| 0 <= i <= mid && all[i] == c;
    assert forall j :: mid < j < |all| ==> all[j] != all[i];
  }

  /** Only the first child can be missing, and it stays left. */
  lemma NoneMissing(kids: seq<Ref>, p: nat, value: Ref, mid: nat)
    requires (forall i :: 0 < i < |kids| ==> kids[i] != NULL) && value != NULL && p < |kids| && mid < |kids|
    ensures NULL !in InsertedKids(kids, p, value)[mid + 1..]
  {
    var all := InsertedKids(kids, p, value);
    forall i | mid < i < |all| ensures all[i] != NULL {
      if i > p + 1 { assert all[i] == kids[i - 1]; } else if i <= p { assert all[i] == kids[i]; }
    }
  }

  /** A full node with a new child: `internode_split` and the insertion that `finish_split` does after
      it.  Together they insert at `p` and cut at `mid`, and every child knows its parent.  A first child
      that `remove_leaf` nulled has none. */
  method SplitInsert(nl: Node, nr: Node, p: nat, ka: nat, value: Ref, splitType: nat, parents: Parents)
    returns (splitIkey: nat)
    requires nl.Valid() && nr.Valid() && Apart(nl, nr) && nl.nkeys == WIDTH && p <= WIDTH
    requires Distinct(nl.Kids()) && value !in nl.Kids() && value != NULL
    requires forall i :: 0 < i < |nl.Kids()| ==> nl.Kids()[i] != NULL
    requires forall c :: c in nl.Kids() && c != NULL ==> c in parents.of && parents.of[c] == nl.self
    modifies nl, nl.ikey, nl.child, nr, nr.ikey, nr.child, parents
    ensures nl.Valid() && nr.Valid() && NULL !in nr.Kids()
    ensures var mid, keys, kids := SplitMid(splitType), Inserted(old(nl.Keys()), p, ka), InsertedKids(old(nl.Kids()), p, value);
      && splitIkey == keys[mid]
      && nl.Keys() == keys[..mid] && nl.Kids() == kids[..mid + 1]
      && nr.Keys() == keys[mid + 1..] && nr.Kids() == kids[mid + 1..]
    ensures forall c :: c in nl.Kids() && c != NULL ==> c in parents.of && parents.of[c] == nl.self
    ensures parents.of.Keys == old(parents.of.Keys) + {value}
    ensures forall c :: c in parents.of ==>
      parents.of[c] == if c in nr.Kids() then nr.self else if c == value then nl.self else old(parents.of)[c]
  {
    ghost var mid, kids := SplitMid(splitType), nl.Kids();
    ghost var all := InsertedKids(kids, p, value);
    NoneMissing(kids, p, value, mid);
    RightKnown(kids, p, value, mid, parents.of);
    var kp;
    splitIkey, kp := InternodeSplit(nl, nr, p, ka, value, splitType, parents);
    ghost var after := parents.of;
    forall c | c in all[..mid + 1] && c != NULL
      ensures c !in all[mid + 1..] && ((c == value && p < mid) || (c in after && after[c] == nl.self))
    {
      HalvesApart(kids, p, value, mid, c);
    }
    if kp >= 0 {
      assert all[..mid + 1][p + 1] == value;
      InsertLeft(nl, nr, kp, ka, value, parents);
    } else {
      assert all[mid + 1..][p - mid] == value;
    }
    assert nl.Kids() == all[..mid + 1] && nr.Kids() == all[mid + 1..];
  }

  /** The children that move had a parent before, or are the new one. */
  lemma RightKnown(kids: seq<Ref>, p: nat, value: Ref, mid: nat, of: map<Ref, Ref>)
    requires p < |kids| && mid < |kids| && (forall i :: 0 < i < |kids| ==> kids[i] != NULL) && value != NULL
    requires forall c :: c in kids && c != NULL ==> c in of
    ensures forall c :: c in InsertedKids(kids, p, value)[mid + 1..] ==> c == value || c in of
  {
    var all := InsertedKids(kids, p, value);
    NoneMissing(kids, p, value, mid);
    forall c | c in all[mid + 1..] ensures c == value || c in of {
      var i :| 0 <= i < |all| - mid - 1 && all[mid + 1..][i] == c;
      var j := mid + 1 + i;
      if j > p + 1 { assert all[j] == kids[j - 1]; } else if j <= p { assert all[j] == kids[j]; }
    }
  }

  /** `finish_split`'s insertion into the left half leaves the right half alone. */
  method InsertLeft(nl: Node, nr: Node, p: nat, k: nat, c: Ref, parents: Parents)
    requires nl.Valid() && nr.Valid() && Apart(nl, nr) && nl.nkeys < WIDTH && p <= nl.nkeys
    modifies nl, nl.ikey, nl.child, parents
    ensures nl.Valid() && nr.Valid() && nr.Keys() == old(nr.Keys()) && nr.Kids() == old(nr.Kids())
    ensures nl.Keys() == Inserted(old(nl.Keys()), p, k) && nl.Kids() == InsertedKids(old(nl.Kids()), p, c)
    ensures parents.of == old(parents.of)[c := nl.self]
  {
    nl.Insert(p, k, c, parents);
  }
}
