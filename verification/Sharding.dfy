/** The symmetric hash that shards flows, the hash of the stream table, and the
    shuffle behind both (dpi/Sharding.cc, dpi/Hash.cc). */
module FlowHash {
  import opened SeqArith
  import opened SessionWheel

  const MODULUS: int := 0xff100f

  // ----- The shuffle -----

  function Without(pool: seq<byte>, n: nat): seq<byte>
    requires n < |pool|
  {
    pool[..n] + pool[n + 1..]
  }

  /** The place that a random byte picks. */
  function Pick(r: byte, size: nat): (n: nat)
    requires size > 0
    ensures n < size && (r < size ==> n == r)
  {
    r % size
  }

  /** Numbers drawn from a pool, one after the other, by random bytes. */
  function Draw(random: seq<byte>, pool: seq<byte>): seq<byte>
    requires |random| == |pool|
    decreases |pool|
  {
    if pool == [] then []
    else
      var n := Pick(random[0], |pool|);
      [pool[n]] + Draw(random[1..], Without(pool, n))
  }

  lemma WithoutOne(pool: seq<byte>, n: nat)
    requires n < |pool|
    ensures multiset(Without(pool, n)) + multiset{pool[n]} == multiset(pool)
  {
    assert pool == pool[..n] + [pool[n]] + pool[n + 1..];
  }

  /** Whatever the random bytes, all of the pool is drawn, each number once. */
  lemma {:induction false} DrawsAll(random: seq<byte>, pool: seq<byte>)
    requires |random| == |pool|
    ensures multiset(Draw(random, pool)) == multiset(pool) && |Draw(random, pool)| == |pool|
    decreases |pool|
  {
    if pool != [] {
      var n := Pick(random[0], |pool|);
      WithoutOne(pool, n);
      DrawsAll(random[1..], Without(pool, n));
    }
  }

  lemma SameRest(order: seq<byte>, pool: seq<byte>, n: nat)
    requires multiset(order) == multiset(pool) && order != [] && n < |pool| && pool[n] == order[0]
    ensures multiset(order[1..]) == multiset(Without(pool, n))
  {
    hide Without;
    WithoutOne(pool, n);
    assert order == [order[0]] + order[1..];
    assert multiset(order[1..]) == multiset(order) - multiset{order[0]};
    assert multiset(Without(pool, n)) == multiset(pool) - multiset{pool[n]};
  }

  /** And every order of the pool is drawn by some random bytes. */
  lemma {:induction false} DrawsAny(order: seq<byte>, pool: seq<byte>) returns (random: seq<byte>)
    requires multiset(order) == multiset(pool) && |pool| < 256
    ensures |random| == |pool| && Draw(random, pool) == order
    decreases |pool|
  {
    hide Without, Pick;
    assert |order| == |multiset(order)| && |pool| == |multiset(pool)|;
    if pool == [] {
      random := [];
    } else {
      assert order[0] in multiset(order);
      assert order[0] in pool;
      var n :| 0 <= n < |pool| && pool[n] == order[0];
      SameRest(order, pool, n);
      WithoutLength(pool, n);
      var rest := DrawsAny(order[1..], Without(pool, n));
      random := [n] + rest;
      assert random[1..] == rest;
    }
  }

  lemma WithoutLength(pool: seq<byte>, n: nat)
    requires n < |pool|
    ensures |Without(pool, n)| == |pool| - 1
  {
  }

  /** The numbers below `n`, in order. */
  function UpTo(n: nat): (s: seq<byte>)
    requires n <= 256
    ensures |s| == n && forall i :: 0 <= i < n ==> s[i] == i
  {
    if n == 0 then [] else UpTo(n - 1) + [n - 1]
  }

  lemma DrawsBelow(random: seq<byte>, n: nat)
    requires |random| == n <= 256
    ensures |Draw(random, UpTo(n))| == n && forall i :: 0 <= i < n ==> Draw(random, UpTo(n))[i] < n
  {
    DrawsAll(random, UpTo(n));
    var order := Draw(random, UpTo(n));
    forall i | 0 <= i < n ensures order[i] < n {
      assert order[i] in multiset(order);
      assert order[i] in multiset(UpTo(n));
    }
  }

  /** The part of the pool behind position `n` moves up by one. */
  method Close(p: array<byte>, n: nat)
    requires n < p.Length
    modifies p
    ensures p[..p.Length - 1] == Without(old(p[..]), n)
  {
    var j := 0;
    while j < p.Length - 1 - n
      invariant 0 <= j <= p.Length - 1 - n
      invariant forall k :: 0 <= k < n + j ==> p[k] == old(p[..])[if k < n then k else k + 1]
      invariant forall k :: n + j <= k < p.Length ==> p[k] == old(p[..])[k]
    {
      p[n + j] := p[n + j + 1];
      j := j + 1;
    }
  }

  lemma WithoutFront(pool: seq<byte>, n: nat, left: nat)
    requires n < left <= |pool|
    ensures Without(pool, n)[..left - 1] == Without(pool[..left], n)
  {
  }

  /** One number is drawn from the first `left` of `p`. */
  method DrawOne(perm: array<byte>, i: nat, p: array<byte>, left: nat)
    requires i < perm.Length && 0 < left <= p.Length && perm != p
    modifies perm, p
    ensures var n := Pick(old(perm[i]), left);
            && p[..left - 1] == Without(old(p[..left]), n)
            && perm[..] == old(perm[..])[i := old(p[n])]
  {
    hide Without;
    var n := Pick(perm[i], left);
    perm[i] := p[n];
    WithoutFront(p[..], n, left);
    assert p[..left] == p[..][..left];
    Close(p, n);
    assert p[..left - 1] == p[..p.Length - 1][..left - 1];
  }

  /** The shuffle of both constructors: the random bytes in `perm` become the order they draw. */
  method Shuffle(perm: array<byte>)
    requires perm.Length <= 255
    modifies perm
    ensures perm[..] == Draw(old(perm[..]), UpTo(perm.Length))
  {
    hide Without, Pick, Draw;
    var size := perm.Length;
    var p := new byte[size](i requires 0 <= i < size => i);
    ghost var random, pool, drawn := perm[..], UpTo(size), [];
    var i := 0;
    while i < size
      invariant i <= size && |pool| == size - i && |drawn| == i && p[..size - i] == pool
      invariant perm[..] == drawn + random[i..]
      invariant Draw(random, UpTo(size)) == drawn + Draw(random[i..], pool)
    {
      DrawHead(drawn, random, i, pool);
      ghost var n := Pick(random[i], |pool|);
      assert perm[i] == random[i] && pool[n] == p[n];
      DrawOne(perm, i, p, size - i);
      drawn, pool := drawn + [pool[n]], Without(pool, n);
      i := i + 1;
    }
    DrawNothing(random[size..], pool);
  }

  lemma DrawHead(drawn: seq<byte>, random: seq<byte>, i: nat, pool: seq<byte>)
    requires i < |random| && |drawn| == i && |pool| == |random| - i
    ensures var n := Pick(random[i], |pool|);
            && |Without(pool, n)| == |pool| - 1
            && drawn + Draw(random[i..], pool) == drawn + [pool[n]] + Draw(random[i + 1..], Without(pool, n))
            && (drawn + random[i..])[i := pool[n]] == drawn + [pool[n]] + random[i + 1..]
  {
    hide Pick;
    assert random[i..][1..] == random[i + 1..];
  }

  lemma DrawNothing(random: seq<byte>, pool: seq<byte>)
    requires |random| == |pool| == 0
    ensures Draw(random, pool) == []
  {
  }

  // ----- The hash -----

  function Two(n: nat): nat {
    if n == 0 then 1 else 2 * Two(n - 1)
  }

  /** The exclusive or of the lowest `n` bits. */
  function Xor(a: nat, b: nat, n: nat): (r: nat)
    ensures r < Two(n)
  {
    if n == 0 then 0 else 2 * Xor(a / 2, b / 2, n - 1) + if a % 2 != b % 2 then 1 else 0
  }

  function XorByte(a: byte, b: byte): byte {
    assert Two(8) == 2 * Two(7) == 4 * Two(6) == 8 * Two(5) == 16 * Two(4) == 256;
    Xor(a, b, 8)
  }

  lemma {:induction false} XorEither(a: nat, b: nat, n: nat)
    ensures Xor(a, b, n) == Xor(b, a, n)
  {
    if n > 0 {
      XorEither(a / 2, b / 2, n - 1);
    }
  }

  lemma XorCommutes(a: byte, b: byte)
    ensures XorByte(a, b) == XorByte(b, a)
  {
    hide Xor;
    XorEither(a, b, 8);
  }

  /** The hash after the first `n` bytes in the order of `perm`. */
  function Mix(data: seq<byte>, perm: seq<byte>, xors: seq<byte>, n: nat): (r: nat)
    requires n <= |perm| <= |xors| && forall i :: 0 <= i < |perm| ==> perm[i] < |data|
    ensures r < MODULUS
  {
    if n == 0 then 0
    else (Mix(data, perm, xors, n - 1) * 256 + XorByte(data[perm[n - 1]], xors[n - 1])) % MODULUS
  }

  /** Byte `k` of a number in the order of the machine, lowest first. */
  function ByteAt(x: nat, k: nat): byte {
    if k == 0 then x % 256 else ByteAt(x / 256, k - 1)
  }

  /** What of a tuple is hashed: both addresses and both ports, combined. */
  function Combined(t: Tuple4): (s: seq<byte>)
    ensures |s| == 6
  {
    [XorByte(ByteAt(t.daddr, 0), ByteAt(t.saddr, 0)), XorByte(ByteAt(t.daddr, 1), ByteAt(t.saddr, 1)),
     XorByte(ByteAt(t.daddr, 2), ByteAt(t.saddr, 2)), XorByte(ByteAt(t.daddr, 3), ByteAt(t.saddr, 3)),
     XorByte(ByteAt(t.dest, 0), ByteAt(t.source, 0)), XorByte(ByteAt(t.dest, 1), ByteAt(t.source, 1))]
  }

  /** Both directions of a flow are hashed from the same bytes: tuples that the session
      table takes to be equal have equal hashes. */
  lemma SameFlowSameHash(a: Tuple4, b: Tuple4)
    requires SameFlow(a, b)
    ensures Combined(a) == Combined(b)
  {
    hide XorByte, ByteAt;
    if a != b {
      forall k | 0 <= k < 4 ensures XorByte(ByteAt(a.daddr, k), ByteAt(a.saddr, k)) == XorByte(ByteAt(a.saddr, k), ByteAt(a.daddr, k)) {
        XorCommutes(ByteAt(a.daddr, k), ByteAt(a.saddr, k));
      }
      forall k | 0 <= k < 2 ensures XorByte(ByteAt(a.dest, k), ByteAt(a.source, k)) == XorByte(ByteAt(a.source, k), ByteAt(a.dest, k)) {
        XorCommutes(ByteAt(a.dest, k), ByteAt(a.source, k));
      }
    }
  }

  // ----- Every byte counts -----

  /** 256 has an inverse under the modulus: 256 * 1110033 is one more than 17 times the modulus. */
  lemma OddModulus(d: int, k: int)
    requires d * 256 == k * MODULUS && -MODULUS < d < MODULUS
    ensures d == 0
  {
    var m := k * 1110033 - d * 17;
    assert d == m * MODULUS;
  }

  /** Shifting by a byte loses nothing under the modulus, which is odd. */
  lemma ShiftApart(a: nat, b: nat, y: nat)
    requires a < MODULUS && b < MODULUS && a != b
    ensures (a * 256 + y) % MODULUS != (b * 256 + y) % MODULUS
  {
    if (a * 256 + y) % MODULUS == (b * 256 + y) % MODULUS {
      OddModulus(a - b, (a * 256 + y) / MODULUS - (b * 256 + y) / MODULUS);
    }
  }

  lemma AddApart(r: nat, x: byte, y: byte)
    requires x != y
    ensures (r * 256 + x) % MODULUS != (r * 256 + y) % MODULUS
  {
  }

  lemma {:induction false} XorParts(a: nat, b: nat, x: nat, n: nat)
    requires a != b && a < Two(n) && b < Two(n)
    ensures Xor(a, x, n) != Xor(b, x, n)
  {
    if n > 0 && a % 2 == b % 2 {
      XorParts(a / 2, b / 2, x / 2, n - 1);
    }
  }

  lemma XorApart(a: byte, b: byte, x: byte)
    requires a != b
    ensures XorByte(a, x) != XorByte(b, x)
  {
    hide Xor;
    assert Two(8) == 2 * Two(7) == 4 * Two(6) == 8 * Two(5) == 16 * Two(4) == 256;
    XorParts(a, b, x, 8);
  }

  /** Data that differ in one byte: the hashes part where the key puts that byte, and never meet again. */
  lemma {:induction false} MixApart(data: seq<byte>, k: nat, v: byte, perm: seq<byte>, xors: seq<byte>, n: nat)
    requires n <= |perm| <= |xors| && (forall i :: 0 <= i < |perm| ==> perm[i] < |data|)
    requires k < |data| && data[k] != v && (forall i, j :: 0 <= i < j < |perm| ==> perm[i] != perm[j])
    ensures k in perm[..n] <==> Mix(data, perm, xors, n) != Mix(data[k := v], perm, xors, n)
  {
    hide XorByte;
    if n > 0 {
      var p := perm[n - 1];
      MixApart(data, k, v, perm, xors, n - 1);
      assert perm[..n] == perm[..n - 1] + [p];
      var a, b := Mix(data, perm, xors, n - 1), Mix(data[k := v], perm, xors, n - 1);
      if p == k {
        XorApart(data[k], v, xors[n - 1]);
        AddApart(a, XorByte(data[k], xors[n - 1]), XorByte(v, xors[n - 1]));
      } else if a != b {
        ShiftApart(a, b, XorByte(data[p], xors[n - 1]));
      }
    }
  }

  /** The twelve bytes of a tuple, in the order of the machine. */
  function Bytes(t: Tuple4): (r: seq<byte>)
    ensures |r| == 12
  {
    [t.daddr % 256, t.daddr / 256 % 256, t.daddr / 65536 % 256, t.daddr / 16777216,
     t.dest % 256, t.dest / 256,
     t.saddr % 256, t.saddr / 256 % 256, t.saddr / 65536 % 256, t.saddr / 16777216,
     t.source % 256, t.source / 256]
  }

  lemma CombinedBytes(t: Tuple4)
    ensures forall i :: 0 <= i < 6 ==> Combined(t)[i] == XorByte(Bytes(t)[i], Bytes(t)[i + 6])
  {
    hide XorByte;
    BytesAt(t.daddr);
    BytesAt(t.saddr);
    BytesAt(t.dest);
    BytesAt(t.source);
  }

  lemma BytesAt(x: u32)
    ensures ByteAt(x, 0) == x % 256 && ByteAt(x, 1) == x / 256 % 256
    ensures ByteAt(x, 2) == x / 65536 % 256 && ByteAt(x, 3) == x / 16777216
    ensures x < 65536 ==> x / 256 % 256 == x / 256
  {
    assert x / 256 / 256 == x / 65536 && x / 256 / 256 / 256 == x / 16777216;
  }

  /** A byte of an address or a port changes one byte of what is hashed. */
  lemma CombinedApart(a: Tuple4, b: Tuple4, k: nat)
    requires k < 12 && Bytes(a)[k] != Bytes(b)[k] && forall i :: 0 <= i < 12 && i != k ==> Bytes(a)[i] == Bytes(b)[i]
    ensures var c := if k < 6 then k else k - 6;
            Combined(a)[c] != Combined(b)[c] && Combined(b) == Combined(a)[c := Combined(b)[c]]
  {
    hide XorByte, Bytes, Combined;
    CombinedBytes(a);
    CombinedBytes(b);
    var c := if k < 6 then k else k - 6;
    XorApart(Bytes(a)[k], Bytes(b)[k], Bytes(a)[if k < 6 then k + 6 else k - 6]);
    XorCommutes(Bytes(a)[c], Bytes(a)[c + 6]);
    XorCommutes(Bytes(b)[c], Bytes(b)[c + 6]);
    forall i | 0 <= i < 6 && i != c ensures Combined(a)[i] == Combined(b)[i] {
      assert Bytes(a)[i] == Bytes(b)[i] && Bytes(a)[i + 6] == Bytes(b)[i + 6];
    }
  }

  /** Tuples that differ in a single byte of an address or a port are hashed apart under every key. */
  lemma EveryByteCounts(a: Tuple4, b: Tuple4, k: nat, perm: seq<byte>, xors: seq<byte>)
    requires |xors| == 6 && multiset(perm) == multiset(UpTo(6))
    requires k < 12 && Bytes(a)[k] != Bytes(b)[k] && forall i :: 0 <= i < 12 && i != k ==> Bytes(a)[i] == Bytes(b)[i]
    ensures |perm| == 6 && forall i :: 0 <= i < 6 ==> perm[i] < 6
    ensures Mix(Combined(a), perm, xors, 6) != Mix(Combined(b), perm, xors, 6)
  {
    hide XorByte, Bytes, Combined, Mix, UpTo;
    Shuffled(perm, 6);
    CombinedApart(a, b, k);
    var c := if k < 6 then k else k - 6;
    MixApart(Combined(a), c, Combined(b)[c], perm, xors, 6);
    assert perm[..6] == perm;
  }

  lemma {:induction false} UpToOnce(n: nat, c: nat)
    requires n <= 256
    ensures c < 256 ==> multiset(UpTo(n))[c] == if c < n then 1 else 0
  {
    if n > 0 {
      UpToOnce(n - 1, c);
    }
  }

  lemma Twice(perm: seq<byte>, i: nat, j: nat)
    requires i < j < |perm| && perm[i] == perm[j]
    ensures multiset(perm)[perm[i]] >= 2
  {
    assert perm == perm[..j] + perm[j..];
    assert perm[i] in perm[..j] && perm[j] in perm[j..];
  }

  /** A shuffle of the numbers below `n` has each of them once. */
  lemma Shuffled(perm: seq<byte>, n: nat)
    requires n <= 256 && multiset(perm) == multiset(UpTo(n))
    ensures |perm| == n && (forall i :: 0 <= i < n ==> perm[i] < n) && forall c: nat :: c < n ==> c in perm
    ensures forall i, j :: 0 <= i < j < n ==> perm[i] != perm[j]
  {
    hide UpTo;
    assert |perm| == |multiset(perm)| && |multiset(UpTo(n))| == |UpTo(n)|;
    forall i | 0 <= i < n ensures perm[i] < n {
      assert perm[i] in multiset(perm);
      UpToOnce(n, perm[i]);
    }
    forall c: nat | c < n ensures c in perm {
      UpToOnce(n, c);
      assert c in multiset(perm);
    }
    forall i, j | 0 <= i < j < n ensures perm[i] != perm[j] {
      if perm[i] == perm[j] {
        Twice(perm, i, j);
        UpToOnce(n, perm[i]);
      }
    }
  }

  lemma MixNone(data: seq<byte>, perm: seq<byte>, xors: seq<byte>)
    requires |perm| <= |xors| && forall j :: 0 <= j < |perm| ==> perm[j] < |data|
    ensures Mix(data, perm, xors, 0) == 0
  {
  }

  lemma MixNext(data: seq<byte>, perm: seq<byte>, xors: seq<byte>, i: nat, res: u32)
    requires i < |perm| <= |xors| && (forall j :: 0 <= j < |perm| ==> perm[j] < |data|)
    requires res == Mix(data, perm, xors, i)
    ensures var sum := U32(res * 256) + XorByte(data[perm[i]], xors[i]);
            sum < TWO32 && U32(sum) % MODULUS == Mix(data, perm, xors, i + 1)
  {
    hide XorByte;
  }

  /** The loop of both hashes, in 32 bits: it never wraps. */
  method MixAll(data: seq<byte>, perm: array<byte>, xors: array<byte>) returns (res: u32)
    requires perm.Length == xors.Length && forall i :: 0 <= i < perm.Length ==> perm[i] < |data|
    ensures res == Mix(data, perm[..], xors[..], perm.Length)
  {
    hide XorByte, Mix;
    res := 0;
    var i := 0;
    MixNone(data, perm[..], xors[..]);
    while i < perm.Length
      invariant i <= perm.Length && res == Mix(data, perm[..], xors[..], i) < MODULUS
    {
      MixNext(data, perm[..], xors[..], i, res);
      var sum: int := U32(res * 256) + XorByte(data[perm[i]], xors[i]);
      assert sum < TWO32;
      res := U32(sum) % MODULUS;
      i := i + 1;
    }
  }

  class Sharding {
    const xors: array<byte>
    const perm: array<byte>

    ghost predicate Valid()
      reads perm
    {
      xors.Length == 6 && perm.Length == 6 && xors != perm && forall i :: 0 <= i < 6 ==> perm[i] < 6
    }

    /** The key of all hashes of this object. */
    ghost function KeyBytes(): (seq<byte>, seq<byte>)
      reads perm, xors
    {
      (perm[..], xors[..])
    }

    /** `random` stands for what /dev/urandom yields. */
    constructor (random: seq<byte>)
      requires |random| == 12
      ensures Valid() && xors[..] == random[..6] && perm[..] == Draw(random[6..], UpTo(6))
    {
      var x := new byte[6](i requires 0 <= i < 6 => random[i]);
      var p := new byte[6](i requires 0 <= i < 6 => random[6 + i]);
      assert p[..] == random[6..] && x[..] == random[..6];
      Shuffle(p);
      DrawsBelow(random[6..], 6);
      assert p[..] == Draw(random[6..], UpTo(6));
      assert forall i :: 0 <= i < 6 ==> p[i] == p[..][i];
      xors := x;
      perm := p;
    }

    method Hash(t: Tuple4) returns (res: u32)
      requires Valid()
      ensures res == Mix(Combined(t), KeyBytes().0, KeyBytes().1, 6) < MODULUS
      ensures forall other :: SameFlow(other, t) ==> res == Mix(Combined(other), KeyBytes().0, KeyBytes().1, 6)
    {
      hide XorByte, Combined;
      res := MixAll(Combined(t), perm, xors);
      forall other | SameFlow(other, t) ensures Combined(other) == Combined(t) {
        SameFlowSameHash(other, t);
      }
    }
  }
}
