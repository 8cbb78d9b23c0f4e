/** SHA-256 as a stream: any chunking of `update` calls hashes the padded message, for any compression. */
module ShaStream {
  import opened Arithmetic

  newtype byte = x: int | 0 <= x < 256

  const BLOCK: nat := 64

  /** The blocks of a whole number of blocks, compressed in order. */
  function Fold<S>(step: (S, seq<byte>) -> S, h: S, m: seq<byte>): S
    requires |m| % BLOCK == 0
    decreases |m|
  {
    if m == [] then h else Fold(step, step(h, m[..BLOCK]), m[BLOCK..])
  }

  lemma {:induction false} FoldAppend<S>(step: (S, seq<byte>) -> S, h: S, a: seq<byte>, b: seq<byte>)
    requires |a| % BLOCK == 0 && |b| % BLOCK == 0
    ensures |a + b| % BLOCK == 0 && Fold(step, h, a + b) == Fold(step, Fold(step, h, a), b)
    decreases |a|
  {
    if a == [] {
      assert a + b == b;
    } else {
      FoldAppend(step, step(h, a[..BLOCK]), a[BLOCK..], b);
      assert (a + b)[..BLOCK] == a[..BLOCK] && (a + b)[BLOCK..] == a[BLOCK..] + b;
    }
  }

  lemma FoldOne<S>(step: (S, seq<byte>) -> S, h: S, a: seq<byte>, b: seq<byte>)
    requires |a| % BLOCK == 0 && |b| == BLOCK
    ensures |a + b| % BLOCK == 0 && Fold(step, h, a + b) == step(Fold(step, h, a), b)
  {
    FoldAppend(step, h, a, b);
    assert b[..BLOCK] == b && b[BLOCK..] == [];
  }

  // ---- padding: section 5.1.1 of FIPS 180-4 ----

  function Zeros(n: nat): (z: seq<byte>)
    ensures |z| == n && forall i :: 0 <= i < n ==> z[i] == 0
  {
    seq(n, _ => 0)
  }

  const WRAP: nat := 0x1_0000_0000_0000_0000

  function Pow256(n: nat): (p: nat)
    ensures p > 0
  {
    if n == 0 then 1 else 256 * Pow256(n - 1)
  }

  /** `n` bytes, the most significant first. */
  function BigEndian(v: nat, n: nat): (b: seq<byte>)
    ensures |b| == n
  {
    if n == 0 then [] else BigEndian(v / 256, n - 1) + [(v % 256) as byte]
  }

  /** The number that bytes write, the most significant first. */
  function Value(b: seq<byte>): nat {
    if b == [] then 0 else 256 * Value(b[..|b| - 1]) + b[|b| - 1] as nat
  }

  lemma {:induction false} BigEndianValue(v: nat, n: nat)
    ensures Value(BigEndian(v, n)) == v % Pow256(n)
  {
    if n > 0 {
      BigEndianValue(v / 256, n - 1);
      ModSplit(v, Pow256(n - 1));
    }
  }

  lemma {:induction false} BigEndianSame(v: nat, w: nat, n: nat)
    requires BigEndian(v, n) == BigEndian(w, n)
    ensures v % Pow256(n) == w % Pow256(n)
  {
    if n > 0 {
      var a, b := BigEndian(v, n), BigEndian(w, n);
      assert a[n - 1] == b[n - 1];
      assert BigEndian(v / 256, n - 1) == a[..n - 1] == b[..n - 1] == BigEndian(w / 256, n - 1);
      BigEndianSame(v / 256, w / 256, n - 1);
      ModSplit(v, Pow256(n - 1));
      ModSplit(w, Pow256(n - 1));
    }
  }

  lemma ModSplit(v: nat, p: nat)
    requires p > 0
    ensures v % (256 * p) == 256 * (v / 256 % p) + v % 256
  {
    var q := v / 256 / p;
    assert v / 256 == p * q + v / 256 % p;
    assert v == 256 * (v / 256) + v % 256;
    assert v == 256 * p * q + (256 * (v / 256 % p) + v % 256);
    DivUnique(v, 256 * p, q, 256 * (v / 256 % p) + v % 256);
  }

  /** Zero bytes after the 0x80, the fewest that leave room for the length in the last block. */
  function PadZeros(n: nat): (k: nat)
    ensures k < BLOCK && (n + 1 + k) % BLOCK == 56
  {
    (119 - n % BLOCK) % BLOCK
  }

  lemma PadLength(n: nat)
    ensures (n + 1 + PadZeros(n) + 8) % BLOCK == 0
  {
  }

  function Padded(m: seq<byte>): (p: seq<byte>)
    ensures |p| % BLOCK == 0
  {
    PadLength(|m|);
    m + [0x80] + Zeros(PadZeros(|m|)) + Length(|m|)
  }

  /** The number of bits, as 64 bits. */
  function Length(n: nat): (b: seq<byte>)
    ensures |b| == 8
  {
    BigEndian(8 * n % WRAP, 8)
  }

  /** The padded message is the message, a one bit and zeros, and in its last eight bytes the number of bits of the
      message, the most significant byte first. */
  lemma PaddedParts(m: seq<byte>)
    ensures var p := Padded(m);
            && |m| + 9 <= |p| < |m| + 9 + BLOCK && p[..|m|] == m && p[|m|] == 0x80
            && (forall i :: |m| < i < |p| - 8 ==> p[i] == 0) && Value(p[|p| - 8..]) == 8 * |m| % WRAP
  {
    var p := Padded(m);
    LastEight(m + [0x80] + Zeros(PadZeros(|m|)), Length(|m|), p);
    BigEndianValue(8 * |m| % WRAP, 8);
    EightBytes();
    SmallMod(8 * |m| % WRAP);
  }

  /** Different messages are padded differently, below 2^64 bits. */
  lemma PaddedApart(m: seq<byte>, n: seq<byte>)
    requires Padded(m) == Padded(n) && 8 * |m| < WRAP && 8 * |n| < WRAP
    ensures m == n
  {
    var p := Padded(m);
    LastEight(m + [0x80] + Zeros(PadZeros(|m|)), Length(|m|), p);
    LastEight(n + [0x80] + Zeros(PadZeros(|n|)), Length(|n|), p);
    LengthSame(|m|, |n|);
    Prefix(m, [0x80] + Zeros(PadZeros(|m|)) + Length(|m|), p);
    Prefix(n, [0x80] + Zeros(PadZeros(|n|)) + Length(|n|), p);
  }

  lemma LengthSame(a: nat, b: nat)
    requires 8 * a < WRAP && 8 * b < WRAP && Length(a) == Length(b)
    ensures a == b
  {
    var x, y := 8 * a, 8 * b;
    SmallMod(x);
    SmallMod(y);
    BigEndianSame(x, y, 8);
    EightBytes();
  }

  lemma SmallMod(x: nat)
    requires x < WRAP
    ensures x % WRAP == x
  {
  }

  lemma Prefix(m: seq<byte>, rest: seq<byte>, p: seq<byte>)
    requires p == m + rest
    ensures m == p[..|m|]
  {
  }

  lemma LastEight(a: seq<byte>, b: seq<byte>, p: seq<byte>)
    requires |b| == 8 && p == a + b
    ensures p[|p| - 8..] == b
  {
  }

  lemma EightBytes()
    ensures Pow256(8) == WRAP
  {
    assert Pow256(2) == 65536 && Pow256(4) == 0x1_0000_0000 && Pow256(6) == 0x1_0000_0000_0000;
  }

  // ---- the stream ----

  class Sha256<S(!new)> {
    const step: (S, seq<byte>) -> S
    const initial: S
    var h: S
    var len: nat
    const buf: array<byte>
    var bufn: nat
    ghost var msg: seq<byte>

    /** The message so far is in the state but for its last `bufn` bytes, which are in the buffer. */
    ghost predicate Valid()
      reads this, buf
    {
      && buf.Length == BLOCK && bufn < BLOCK && bufn <= |msg| && (|msg| - bufn) % BLOCK == 0
      && h == Fold(step, initial, msg[..|msg| - bufn]) && buf[..bufn] == msg[|msg| - bufn..]
      && len == |msg| % WRAP
    }

    constructor (step: (S, seq<byte>) -> S, initial: S)
      ensures Valid() && fresh(buf) && msg == [] && this.step == step && this.initial == initial
    {
      this.step := step;
      this.initial := initial;
      h := initial;
      len := 0;
      buf := new byte[BLOCK](_ => 0);
      bufn := 0;
      msg := [];
    }

    /** Bytes into the buffer. */
    method Fill(data: seq<byte>)
      requires buf.Length == BLOCK && bufn + |data| <= BLOCK
      modifies this`bufn, buf
      ensures bufn == old(bufn) + |data| && buf[..bufn] == old(buf[..bufn]) + data
    {
      forall k | 0 <= k < |data| {
        buf[bufn + k] := data[k];
      }
      bufn := bufn + |data|;
      assert forall k :: 0 <= k < |data| ==> buf[old(bufn) + k] == data[k];
    }

    /** A whole number of blocks is in the state; the buffer holds the bytes of `m` past them. */
    ghost predicate Holds(m: seq<byte>)
      reads this, buf
    {
      && buf.Length == BLOCK && bufn <= BLOCK && bufn <= |m| && (|m| - bufn) % BLOCK == 0
      && h == Fold(step, initial, m[..|m| - bufn]) && buf[..bufn] == m[|m| - bufn..]
    }

    /** A full buffer is compressed and emptied. */
    method Flush(ghost m: seq<byte>)
      requires Holds(m) && bufn == BLOCK
      modifies this`h, this`bufn
      ensures Holds(m) && bufn == 0
    {
      FoldOne(step, initial, m[..|m| - BLOCK], m[|m| - BLOCK..]);
      assert m[..|m| - BLOCK] + m[|m| - BLOCK..] == m == m[..|m|];
      assert buf[..] == buf[..BLOCK];
      h := step(h, buf[..]);
      bufn := 0;
    }

    /** A block straight from the data. */
    method Direct(b: seq<byte>, ghost m: seq<byte>)
      requires Holds(m) && bufn == 0 && |b| == BLOCK
      modifies this`h
      ensures Holds(m + b)
    {
      FoldOne(step, initial, m, b);
      assert m[..|m|] == m && (m + b)[..|m + b|] == m + b;
      h := step(h, b);
    }

    method Update(data0: seq<byte>)
      requires Valid()
      modifies this, buf
      ensures Valid() && msg == old(msg) + data0
    {
      LengthMore(|msg|, |data0|);
      len := (len + |data0|) % WRAP;
      Absorb(data0, msg);
      msg := msg + data0;
    }

    /** The body of `update` past the length. */
    method Absorb(data0: seq<byte>, ghost m: seq<byte>)
      requires Holds(m) && bufn < BLOCK
      modifies this`h, this`bufn, buf
      ensures Holds(m + data0) && bufn < BLOCK
    {
      var data := data0;
      ghost var done := m;
      if bufn > 0 {
        var take := if BLOCK - bufn < |data| then BLOCK - bufn else |data|;
        FillHolds(data[..take], m);
        done := m + data[..take];
        data := data[take..];
        if bufn == BLOCK {
          Flush(done);
        }
      }
      assert done + data == m + data0;
      while |data| >= BLOCK
        invariant Holds(done) && bufn < BLOCK && done + data == m + data0 && (data != [] ==> bufn == 0)
        decreases |data|
      {
        Direct(data[..BLOCK], done);
        done := done + data[..BLOCK];
        data := data[BLOCK..];
      }
      if data != [] {
        FillHolds(data, done);
      } else {
        assert done == m + data0;
      }
    }

    method FillHolds(data: seq<byte>, ghost m: seq<byte>)
      requires Holds(m) && bufn + |data| <= BLOCK
      modifies this`bufn, buf
      ensures Holds(m + data) && bufn == old(bufn) + |data|
    {
      ghost var k := |m| - bufn;
      Fill(data);
      assert (m + data)[..k] == m[..k] && (m + data)[k..] == m[k..] + data;
    }

    /** Zeros up to the end of the block, which is compressed. */
    method FillOut(ghost m: seq<byte>, ghost z: nat) returns (ghost z': nat)
      requires Holds(m + Zeros(z)) && bufn < BLOCK
      modifies this`h, this`bufn, buf
      ensures Holds(m + Zeros(z')) && bufn == 0 && z' == z + (BLOCK - old(bufn))
    {
      z' := z;
      while bufn < BLOCK
        invariant Holds(m + Zeros(z')) && bufn <= BLOCK && z' + BLOCK == z + (BLOCK - old(bufn)) + bufn
        decreases BLOCK - bufn
      {
        z' := OneZero(m, z');
      }
      Flush(m + Zeros(z'));
    }

    method OneZero(ghost m: seq<byte>, ghost z: nat) returns (ghost z': nat)
      requires Holds(m + Zeros(z)) && bufn < BLOCK
      modifies this`bufn, buf
      ensures z' == z + 1 && Holds(m + Zeros(z')) && bufn == old(bufn) + 1
    {
      FillHolds([0], m + Zeros(z));
      z' := z + 1;
      assert m + Zeros(z) + [0] == m + Zeros(z');
    }

    /** The zeros of the padding. */
    method PadWithZeros(ghost m: seq<byte>, ghost n: nat)
      requires Holds(m) && bufn < BLOCK && n == Left(bufn)
      modifies this`h, this`bufn, buf
      ensures Holds(m + Zeros(n)) && bufn == 56
    {
      ghost var z := 0;
      assert m + Zeros(0) == m;
      while bufn != 56
        invariant Holds(m + Zeros(z)) && bufn < BLOCK && n == z + Left(bufn)
        decreases n - z
      {
        if bufn > 56 {
          z := FillOut(m, z);
        } else {
          z := OneZero(m, z);
        }
      }
    }

    /** `finalize`, up to writing the state out as bytes. */
    method Finalize() returns (r: S)
      requires Valid()
      modifies this, buf
      ensures r == Fold(step, initial, Padded(old(msg)))
    {
      ghost var m := msg;
      var bitlen := len * 8 % WRAP;
      BitLength(|m|);
      Update([0x80]);
      LeftAtFirst(|m|, bufn);
      PadWithZeros(m + [0x80], PadZeros(|m|));
      EndBlock(m, bitlen);
      r := h;
    }

    /** The length, and the last block compressed. */
    method EndBlock(ghost m: seq<byte>, bitlen: nat)
      requires Holds(m + [0x80] + Zeros(PadZeros(|m|))) && bufn == 56 && bitlen == 8 * |m| % WRAP
      modifies this`h, this`bufn, buf
      ensures h == Fold(step, initial, Padded(m))
    {
      FillHolds(BigEndian(bitlen, 8), m + [0x80] + Zeros(PadZeros(|m|)));
      ghost var all := Padded(m);
      Flush(all);
      assert all[..|all|] == all;
    }
  }

  /** Zeros still to come when the last block holds `bufn` bytes. */
  function Left(bufn: nat): nat {
    if bufn <= 56 then 56 - bufn else if bufn <= BLOCK then 120 - bufn else 0
  }

  lemma LeftAtFirst(n: nat, bufn: nat)
    requires bufn < BLOCK && bufn <= n + 1 && (n + 1 - bufn) % BLOCK == 0
    ensures PadZeros(n) == Left(bufn)
  {
    var q := (n + 1 - bufn) / BLOCK;
    assert n + 1 == BLOCK * q + bufn;
    if bufn == 0 {
      DivUnique(n, BLOCK, q - 1, BLOCK - 1);
    } else {
      DivUnique(n, BLOCK, q, bufn - 1);
    }
  }

  lemma LengthMore(n: nat, k: nat)
    ensures (n % WRAP + k) % WRAP == (n + k) % WRAP
  {
    var q, r := n / WRAP, (n % WRAP + k) % WRAP;
    var q' := (n % WRAP + k) / WRAP;
    DivUnique(n + k, WRAP, q + q', r);
  }

  lemma BitLength(n: nat)
    ensures n % WRAP * 8 % WRAP == 8 * n % WRAP
  {
    var q, r := n / WRAP, n % WRAP;
    var q', r' := r * 8 / WRAP, r * 8 % WRAP;
    DivUnique(8 * n, WRAP, 8 * q + q', r');
  }

  function Concat(chunks: seq<seq<byte>>): seq<byte> {
    if chunks == [] then [] else Concat(chunks[..|chunks| - 1]) + chunks[|chunks| - 1]
  }

  /** Whatever the chunks, the hash is that of the padded whole. */
  method Hash<S(!new)>(step: (S, seq<byte>) -> S, initial: S, chunks: seq<seq<byte>>) returns (r: S)
    ensures r == Fold(step, initial, Padded(Concat(chunks)))
  {
    var st := new Sha256(step, initial);
    var i := 0;
    while i < |chunks|
      invariant i <= |chunks| && st.Valid() && fresh(st) && fresh(st.buf) && st.msg == Concat(chunks[..i])
      invariant st.step == step && st.initial == initial
    {
      st.Update(chunks[i]);
      assert chunks[..i + 1][..i] == chunks[..i];
      i := i + 1;
    }
    assert chunks[..i] == chunks;
    r := st.Finalize();
  }
}
