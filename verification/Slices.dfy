/**
  Keys cut into 8-byte slices (masstree/masstree_key.hh): a slice is read as a big-endian number, with
  zeros after the end of a short key, and the length class `min(length, 9)` tells apart keys that end
  inside the slice.
*/
module Slices {
  import opened Common
  import opened Tree

  type Key = seq<Byte>

  /** Byte strings in lexicographic order. */
  predicate Lex(a: Key, b: Key) {
    b != [] && (a == [] || a[0] < b[0] || (a[0] == b[0] && Lex(a[1..], b[1..])))
  }

  /** The first `n` bytes as a big-endian number. */
  function Pack(s: Key, n: nat): nat
    decreases n, s
  {
    if n == 0 then 0
    else if s == [] then Pack([], n - 1)
    else s[0] * Power(n - 1) + Pack(s[1..], n - 1)
  }

  function Slice(k: Key): nat {
    Pack(k, 8)
  }

  /** `key::ikeylen` */
  function ClassOf(len: nat): nat {
    if len > 8 then 9 else len
  }

  function Class(k: Key): nat {
    ClassOf(|k|)
  }

  lemma {:induction false} PackEmpty(n: nat)
    ensures Pack([], n) == 0
  {
    if n > 0 { PackEmpty(n - 1); }
  }

  lemma Scaled(a: nat, x: nat, b: nat, y: nat, p: nat)
    requires x < p && y < p
    ensures a < b ==> a * p + x < b * p + y
    ensures a * p + x == b * p + y ==> a == b && x == y
  {
    if a < b {
      assert (a + 1) * p <= b * p by { Times(a + 1, b, p); }
    } else if b < a {
      assert (b + 1) * p <= a * p by { Times(b + 1, a, p); }
    }
  }

  lemma {:induction false} PackBound(s: Key, n: nat)
    ensures Pack(s, n) < Power(n)
    decreases n
  {
    if n > 0 {
      PackBound(if s == [] then [] else s[1..], n - 1);
      if s != [] { Scaled(s[0], Pack(s[1..], n - 1), 256, 0, Power(n - 1)); }
    }
  }

  lemma SliceBound(k: Key)
    ensures Slice(k) < SLICES
  {
    PackBound(k, 8);
    assert Power(4) == 0x1_0000_0000;
    assert Power(8) == 256 * (256 * (256 * (256 * Power(4))));
  }

  /** The bytes read determine the number and, with the length, the other way round. */
  lemma {:induction false} PackInjective(a: Key, b: Key, n: nat)
    requires Pack(a, n) == Pack(b, n) && (|a| == |b| || (|a| >= n && |b| >= n))
    ensures n <= |a| ==> a[..n] == b[..n]
    ensures |a| < n ==> a == b
    decreases n
  {
    if n > 0 && a != [] {
      PackBound(a[1..], n - 1);
      PackBound(b[1..], n - 1);
      Scaled(a[0], Pack(a[1..], n - 1), b[0], Pack(b[1..], n - 1), Power(n - 1));
      PackInjective(a[1..], b[1..], n - 1);
      if n <= |a| {
        assert a[..n] == [a[0]] + a[1..][..n - 1];
        assert b[..n] == [b[0]] + b[1..][..n - 1];
      } else {
        assert a == [a[0]] + a[1..] && b == [b[0]] + b[1..];
      }
    }
  }

  /** Comparing the numbers, then the lengths, then what follows, is lexicographic comparison. */
  lemma {:induction false} PackOrder(a: Key, b: Key, n: nat)
    ensures Lex(a, b) <==>
      || Pack(a, n) < Pack(b, n)
      || (Pack(a, n) == Pack(b, n) && if |a| > n && |b| > n then Lex(a[n..], b[n..]) else |b| > |a|)
    decreases n
  {
    if n == 0 {
      assert a[0..] == a && b[0..] == b;
    } else if a == [] {
      PackEmpty(n);
    } else if b == [] {
      PackEmpty(n);
    } else {
      PackBound(a[1..], n - 1);
      PackBound(b[1..], n - 1);
      Scaled(a[0], Pack(a[1..], n - 1), b[0], Pack(b[1..], n - 1), Power(n - 1));
      Scaled(b[0], Pack(b[1..], n - 1), a[0], Pack(a[1..], n - 1), Power(n - 1));
      PackOrder(a[1..], b[1..], n - 1);
      if |a| > n && |b| > n { assert a[1..][n - 1..] == a[n..] && b[1..][n - 1..] == b[n..]; }
    }
  }

  /** Layer by layer comparison of (slice, class) is the order of the byte strings. */
  lemma SlicedOrder(a: Key, b: Key)
    ensures Lex(a, b) <==>
      || Before(Slice(a), Class(a), Slice(b), Class(b))
      || (Slice(a) == Slice(b) && Class(a) == Class(b) == 9 && Lex(a[8..], b[8..]))
  {
    PackOrder(a, b, 8);
  }

  /** Keys with the same slice, class and rest are the same. */
  lemma SlicedInjective(a: Key, b: Key)
    requires Slice(a) == Slice(b) && Class(a) == Class(b) && (Class(a) == 9 ==> a[8..] == b[8..])
    ensures a == b
  {
    PackInjective(a, b, 8);
    if |a| >= 8 { assert a == a[..8] + a[8..] && b == b[..8] + b[8..]; }
  }

  // ----- back to bytes -----

  /** A number's low `n` bytes, most significant first. */
  function Unpack(x: nat, n: nat): (s: Key)
    ensures |s| == n
    decreases n, x
  {
    if n == 0 then [] else Unpack(x / 256, n - 1) + [x % 256]
  }

  function SliceBytes(x: nat): (s: Key)
    ensures |s| == 8
  {
    Unpack(x, 8)
  }

  lemma {:induction false} PackSnoc(s: Key, b: Byte)
    ensures Pack(s + [b], |s| + 1) == 256 * Pack(s, |s|) + b
  {
    var n := |s|;
    if n > 0 {
      PackSnoc(s[1..], b);
      assert (s + [b])[1..] == s[1..] + [b];
      Regroup256(s[0], Power(n - 1));
    } else {
      assert (s + [b])[1..] == [];
    }
  }

  lemma Regroup256(a: nat, p: nat)
    ensures a * (256 * p) == 256 * (a * p)
  {}

  lemma {:induction false} PackUnpack(x: nat, n: nat)
    requires x < Power(n)
    ensures Pack(Unpack(x, n), n) == x
    decreases n
  {
    if n > 0 {
      PackUnpack(x / 256, n - 1);
      PackSnoc(Unpack(x / 256, n - 1), x % 256);
    }
  }

  function Zeros(n: nat): (z: Key)
    ensures |z| == n
  {
    if n == 0 then [] else [0] + Zeros(n - 1)
  }

  /** Zeros after the end of a short key do not change its number. */
  lemma {:induction false} PackPad(s: Key, m: nat, n: nat)
    ensures Pack(s + Zeros(m), n) == Pack(s, n)
    decreases n, m
  {
    if n > 0 {
      if s == [] {
        assert s + Zeros(m) == Zeros(m);
        if m > 0 {
          PackPad([], m - 1, n - 1);
          assert [] + Zeros(m - 1) == Zeros(m)[1..];
        }
      } else {
        assert (s + Zeros(m))[1..] == s[1..] + Zeros(m);
        PackPad(s[1..], m, n - 1);
      }
    }
  }

  lemma UnpackPack(s: Key, n: nat)
    ensures forall i :: 0 <= i < n && i < |s| ==> Unpack(Pack(s, n), n)[i] == s[i]
  {
    var padded := s + Zeros(n);
    PackPad(s, n, n);
    PackBound(s, n);
    PackUnpack(Pack(s, n), n);
    var u := Unpack(Pack(s, n), n);
    PackInjective(u, padded, n);
    assert u[..n] == u;
  }

  lemma SlicePacked(x: nat)
    requires x < SLICES
    ensures Slice(SliceBytes(x)) == x
  {
    assert Power(4) == 0x1_0000_0000;
    assert Power(8) == 256 * (256 * (256 * (256 * Power(4))));
    PackUnpack(x, 8);
  }

  /** A key's slice and length class give back its first bytes. */
  lemma SliceGivesBack(k: Key)
    ensures if |k| <= 8 then SliceBytes(Slice(k))[..|k|] == k else SliceBytes(Slice(k)) == k[..8]
  {
    UnpackPack(k, 8);
  }

  /** What follows the first eight bytes does not change the slice. */
  lemma {:induction false} PackPrefix(s: Key, t: Key, n: nat)
    requires |s| >= n
    ensures Pack(s + t, n) == Pack(s, n)
    decreases n
  {
    if n > 0 {
      assert (s + t)[1..] == s[1..] + t;
      PackPrefix(s[1..], t, n - 1);
    }
  }

  lemma {:induction false} LexPrefix(p: Key, a: Key, b: Key)
    ensures Lex(p + a, p + b) <==> Lex(a, b)
  {
    if p == [] {
      assert p + a == a && p + b == b;
    } else {
      assert (p + a)[1..] == p[1..] + a && (p + b)[1..] == p[1..] + b;
      LexPrefix(p[1..], a, b);
    }
  }

  lemma {:induction false} LexTransitive(a: Key, b: Key, c: Key)
    requires Lex(a, b) && Lex(b, c)
    ensures Lex(a, c)
  {
    if a != [] && a[0] == b[0] == c[0] { LexTransitive(a[1..], b[1..], c[1..]); }
  }

  lemma {:induction false} LexIrreflexive(a: Key)
    ensures !Lex(a, a)
  {
    if a != [] { LexIrreflexive(a[1..]); }
  }
}
