/** Bytes, digests, little-endian words and fixed-stride tables, shared by every wire format. */
module Bytes {
  datatype Result<+T, +E> = Success(value: T) | Failure(error: E)

  datatype Option<+T> = None | Some(value: T)

  type Byte = x: int | 0 <= x < 256

  type Bytes = seq<Byte>

  type Digest = s: Bytes | |s| == 32 witness Zeros(32)

  const ZERO_DIGEST: Digest := Zeros(32)

  const U64_MAX := 0xFFFF_FFFF_FFFF_FFFF

  type u64 = x: int | 0 <= x <= U64_MAX

  /**
   * SHA-256 is a parameter of every statement: a total function from byte strings to
   * digests about which nothing is assumed. Where a result needs collision freedom it
   * names the finite set of preimages that must not collide.
   */
  type Sha = Bytes -> Digest

  /** No two different byte strings in `preimages` have the same digest. */
  ghost predicate NoCollision(sha: Sha, preimages: iset<Bytes>) {
    forall p, q :: p in preimages && q in preimages && sha(p) == sha(q) ==> p == q
  }

  /** Little-endian encoding of `x` in `width` bytes. */
  function LittleEndian(x: nat, width: nat): (r: Bytes)
    ensures |r| == width
  {
    if width == 0 then [] else [x % 256] + LittleEndian(x / 256, width - 1)
  }

  function FromLittleEndian(b: Bytes): nat {
    if b == [] then 0 else b[0] + 256 * FromLittleEndian(b[1..])
  }

  function Pow256(n: nat): nat {
    if n == 0 then 1 else 256 * Pow256(n - 1)
  }

  lemma Pow256Eight()
    ensures Pow256(8) == U64_MAX + 1
  {
    assert Pow256(4) == 0x1_0000_0000;
    assert Pow256(8) == 256 * 256 * 256 * 256 * Pow256(4);
  }

  lemma {:induction false} LittleEndianRoundTrip(x: nat, width: nat)
    requires x < Pow256(width)
    ensures FromLittleEndian(LittleEndian(x, width)) == x
  {
    if width > 0 {
      LittleEndianRoundTrip(x / 256, width - 1);
      assert LittleEndian(x, width)[1..] == LittleEndian(x / 256, width - 1);
    }
  }

  lemma {:induction false} FromLittleEndianRoundTrip(b: Bytes)
    ensures FromLittleEndian(b) < Pow256(|b|)
    ensures LittleEndian(FromLittleEndian(b), |b|) == b
  {
    if b != [] {
      FromLittleEndianRoundTrip(b[1..]);
      LowByte(b[0], FromLittleEndian(b[1..]));
      assert b == [b[0]] + b[1..];
    }
  }

  lemma LowByte(low: Byte, high: nat)
    ensures (low + 256 * high) % 256 == low && (low + 256 * high) / 256 == high
  {
  }

  function LE64(x: u64): (r: Bytes)
    ensures |r| == 8
  {
    LittleEndian(x, 8)
  }

  function FromLE64(b: Bytes): (x: u64)
    requires |b| == 8
  {
    FromLittleEndianRoundTrip(b);
    Pow256Eight();
    FromLittleEndian(b)
  }

  lemma LE64Inverse(x: u64)
    ensures FromLE64(LE64(x)) == x
  {
    Pow256Eight();
    LittleEndianRoundTrip(x, 8);
  }

  lemma FromLE64Inverse(b: Bytes)
    requires |b| == 8
    ensures LE64(FromLE64(b)) == b
  {
    FromLittleEndianRoundTrip(b);
  }

  function Zeros(n: nat): (r: Bytes)
    ensures |r| == n
  {
    seq(n, _ => 0)
  }

  /** The words of `ws`, packed little-endian one after another. */
  function PackWords(ws: seq<u64>): (r: Bytes)
    ensures |r| == 8 * |ws|
  {
    if ws == [] then [] else LE64(ws[0]) + PackWords(ws[1..])
  }

  function UnpackWords(b: Bytes): (ws: seq<u64>)
    requires |b| % 8 == 0
    ensures |ws| == |b| / 8
  {
    if b == [] then [] else [FromLE64(b[..8])] + UnpackWords(b[8..])
  }

  lemma {:induction false} UnpackPack(ws: seq<u64>)
    ensures UnpackWords(PackWords(ws)) == ws
  {
    if ws != [] {
      var r := PackWords(ws);
      assert r[..8] == LE64(ws[0]) && r[8..] == PackWords(ws[1..]);
      LE64Inverse(ws[0]);
      UnpackPack(ws[1..]);
    }
  }

  lemma {:induction false} PackUnpack(b: Bytes)
    requires |b| % 8 == 0
    ensures PackWords(UnpackWords(b)) == b
  {
    if b != [] {
      FromLE64Inverse(b[..8]);
      PackUnpack(b[8..]);
      assert b == b[..8] + b[8..];
    }
  }

  /** The digests of `ds`, one after another. */
  function JoinDigests(ds: seq<Digest>): (r: Bytes)
    ensures |r| == 32 * |ds|
  {
    if ds == [] then [] else ds[0] + JoinDigests(ds[1..])
  }

  function SplitDigests(b: Bytes): (ds: seq<Digest>)
    requires |b| % 32 == 0
    ensures |ds| == |b| / 32
  {
    if b == [] then [] else [b[..32]] + SplitDigests(b[32..])
  }

  lemma {:induction false} SplitJoin(ds: seq<Digest>)
    ensures SplitDigests(JoinDigests(ds)) == ds
  {
    if ds != [] {
      var r := JoinDigests(ds);
      assert r[..32] == ds[0] && r[32..] == JoinDigests(ds[1..]);
      SplitJoin(ds[1..]);
    }
  }

  lemma {:induction false} JoinSplit(b: Bytes)
    requires |b| % 32 == 0
    ensures JoinDigests(SplitDigests(b)) == b
  {
    if b != [] {
      JoinSplit(b[32..]);
      assert b == b[..32] + b[32..];
    }
  }

  /** The concatenation of `parts`: what feeding them to a hasher in turn digests. */
  function Concat(parts: seq<Bytes>): Bytes {
    if parts == [] then [] else parts[0] + Concat(parts[1..])
  }

  /** Two concatenations of pairwise equally long parts are equal only part by part. */
  lemma {:induction false} ConcatInjective(ps: seq<Bytes>, qs: seq<Bytes>)
    requires |ps| == |qs|
    requires forall i :: 0 <= i < |ps| ==> |ps[i]| == |qs[i]|
    requires Concat(ps) == Concat(qs)
    ensures ps == qs
  {
    if ps != [] {
      var a, b := Concat(ps), Concat(qs);
      assert a[..|ps[0]|] == ps[0] && b[..|qs[0]|] == qs[0];
      assert a[|ps[0]|..] == Concat(ps[1..]) && b[|qs[0]|..] == Concat(qs[1..]);
      ConcatInjective(ps[1..], qs[1..]);
      assert ps == [ps[0]] + ps[1..] && qs == [qs[0]] + qs[1..];
    }
  }

  lemma LE64Injective(x: u64, y: u64)
    requires LE64(x) == LE64(y)
    ensures x == y
  {
    LE64Inverse(x);
    LE64Inverse(y);
  }

  lemma PackWordsInjective(xs: seq<u64>, ys: seq<u64>)
    requires PackWords(xs) == PackWords(ys)
    ensures xs == ys
  {
    UnpackPack(xs);
    UnpackPack(ys);
  }

  lemma JoinDigestsInjective(xs: seq<Digest>, ys: seq<Digest>)
    requires JoinDigests(xs) == JoinDigests(ys)
    ensures xs == ys
  {
    SplitJoin(xs);
    SplitJoin(ys);
  }

  // ---------------------------------------------------------------------------------------
  // Digests for examples
  // ---------------------------------------------------------------------------------------

  /** No input has the zero digest, which the formats reserve for "none". */
  ghost predicate NeverZero(sha: Sha) {
    forall b :: sha(b) != ZERO_DIGEST
  }

  /** The digest that repeats one byte. */
  function Repeated(x: Byte): Digest {
    seq(32, _ => x)
  }

  /** A small concrete hash: a mark and the byte at one place. */
  function PickHash(at: nat): Sha {
    (b: Bytes) => [1, if at < |b| then b[at] else 0] + Zeros(30)
  }

  lemma PickHashNeverZero(at: nat)
    ensures NeverZero(PickHash(at))
  {
    forall b ensures PickHash(at)(b) != ZERO_DIGEST {
      assert PickHash(at)(b)[0] == 1 && ZERO_DIGEST[0] == 0;
    }
  }

  lemma RepeatedAt(x: Byte)
    ensures Repeated(x)[0] == x && (x != 0 ==> Repeated(x) != ZERO_DIGEST)
  {
    assert ZERO_DIGEST[0] == 0;
  }
}
