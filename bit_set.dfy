/**
 * The packed bit vector of `src/bit_set.rs`: `size` logical bits stored
 * LSB-first in a vector of bytes; bit `i` is bit `i % 8` of byte `i / 8`.
 */
module BitSets {

  /** `usize::div_ceil(n, 8)`: the fewest bytes that hold `n` bits. */
  function ChunkCount(n: nat): (c: nat)
    ensures c * 8 >= n
    ensures c > 0 ==> (c - 1) * 8 < n
  {
    (n + 7) / 8
  }

  /** `1_u8 << k`, tabulated so that the solver never converts `k` to a bit-vector: exactly one bit is set. */
  function Mask(k: nat): (m: bv8)
    requires k < 8
    ensures m != 0 && m & (m - 1) == 0
  {
    match k
    case 0 => 0x01
    case 1 => 0x02
    case 2 => 0x04
    case 3 => 0x08
    case 4 => 0x10
    case 5 => 0x20
    case 6 => 0x40
    case 7 => 0x80
  }

  /** Bit `k` (0 = least significant) of byte `b`: the masked byte is non-zero exactly when it is the whole mask. */
  predicate ByteHasBit(b: bv8, k: nat)
    requires k < 8
    ensures ByteHasBit(b, k) <==> b & Mask(k) == Mask(k)
  {
    b & Mask(k) != 0
  }

  /** `b |= mask` raises bit `k` and leaves the other seven bits of the byte alone. */
  lemma OrMaskBit(b: bv8, k: nat, m: nat)
    requires k < 8 && m < 8
    ensures ByteHasBit(b | Mask(k), m) <==> (m == k || ByteHasBit(b, m))
  {
  }

  /** `b &= !mask` clears bit `k` and leaves the other seven bits of the byte alone. */
  lemma AndNotMaskBit(b: bv8, k: nat, m: nat)
    requires k < 8 && m < 8
    ensures ByteHasBit(b & !Mask(k), m) <==> (m != k && ByteHasBit(b, m))
  {
  }

  /** `n` zero bytes, as `Vec::resize(_, 0)` appends them. */
  function Zeros(n: nat): (z: seq<bv8>)
    ensures |z| == n && forall j :: 0 <= j < n ==> z[j] == 0
  {
    seq(n, _ => 0)
  }

  /** A bit index below `8 * n` falls inside one of `n` bytes. */
  lemma ByteInRange(i: nat, n: nat)
    requires i < n * 8
    ensures i / 8 < n
  {
  }

  /** Bit `i` of a byte vector read with a logical `size`, as `is_bit_set` reads it. */
  function TestBit(chunks: seq<bv8>, size: nat, i: nat): (b: bool)
    requires size <= |chunks| * 8
    ensures b ==> i < size
  {
    if i >= size then false
    else ByteInRange(i, |chunks|); ByteHasBit(chunks[i / 8], i % 8)
  }

  /** The logical content of a bit vector: one boolean per index below `size`. */
  function BitView(chunks: seq<bv8>, size: nat): (s: seq<bool>)
    requires size <= |chunks| * 8
    ensures |s| == size
    ensures forall i :: 0 <= i < size ==> s[i] == TestBit(chunks, size, i)
  {
    seq(size, i requires 0 <= i < size => TestBit(chunks, size, i))
  }

  /** A bit position is determined by its byte and its slot within the byte. */
  lemma SamePosition(i: nat, j: nat)
    requires i / 8 == j / 8 && i % 8 == j % 8
    ensures i == j
  {
  }

  /**
   * The byte vector after bit `i % 8` of byte `i / 8` is made `v`: the byte
   * becomes `b | mask` (`set_bit`) or `b & !mask` (`unset_bit`).
   */
  function WriteBit(chunks: seq<bv8>, i: nat, v: bool): (c: seq<bv8>)
    requires i / 8 < |chunks|
    ensures |c| == |chunks|
    ensures ByteHasBit(c[i / 8], i % 8) == v
    ensures forall j :: 0 <= j < |c| && j != i / 8 ==> c[j] == chunks[j]
  {
    chunks[i / 8 := WriteByte(chunks[i / 8], i % 8, v)]
  }

  /** `b | mask` when `v` (`set_bit`), `b & !mask` otherwise (`unset_bit`). */
  function WriteByte(b: bv8, k: nat, v: bool): (r: bv8)
    requires k < 8
    ensures ByteHasBit(r, k) == v
  {
    if v then b | Mask(k) else b & !Mask(k)
  }

  /** The byte written by `WriteBit`: slot `k` becomes `v`, the other slots keep their bits. */
  lemma ByteWrite(b: bv8, k: nat, m: nat, v: bool)
    requires k < 8 && m < 8
    ensures ByteHasBit(WriteByte(b, k, v), m) == if m == k then v else ByteHasBit(b, m)
  {
    if v { OrMaskBit(b, k, m); } else { AndNotMaskBit(b, k, m); }
  }

  /** Writing `v` into the slot of bit `i` sets bit `i` to `v` and leaves bit `j != i` as it was. */
  lemma WriteBitAt(chunks: seq<bv8>, size: nat, i: nat, v: bool, j: nat)
    requires size <= |chunks| * 8 && i < size && j < size && i / 8 < |chunks|
    ensures TestBit(WriteBit(chunks, i, v), size, j) == if j == i then v else TestBit(chunks, size, j)
  {
    ByteInRange(j, |chunks|);
    var c := WriteBit(chunks, i, v);
    if j / 8 == i / 8 {
      assert c[j / 8] == WriteByte(chunks[i / 8], i % 8, v);
      ByteWrite(chunks[i / 8], i % 8, j % 8, v);
      if j % 8 == i % 8 { SamePosition(i, j); }
    } else {
      assert c[j / 8] == chunks[j / 8];
    }
  }

  /** Writing `v` into bit `i % 8` of byte `i / 8` changes logical bit `i` to `v` and no other bit. */
  lemma WriteBitView(chunks: seq<bv8>, size: nat, i: nat, v: bool)
    requires size <= |chunks| * 8 && i < size && i / 8 < |chunks|
    ensures BitView(WriteBit(chunks, i, v), size) == BitView(chunks, size)[i := v]
  {
    var c := WriteBit(chunks, i, v);
    forall j | 0 <= j < size
      ensures BitView(c, size)[j] == BitView(chunks, size)[i := v][j]
    {
      WriteBitAt(chunks, size, i, v, j);
    }
  }

  /**
   * Every bit of the byte vector at or above `size` is clear: the bytes hold
   * nothing that `is_bit_set` cannot read.
   */
  predicate TailClear(chunks: seq<bv8>, size: nat)
  {
    forall j, k :: 0 <= j < |chunks| && 0 <= k < 8 && size <= 8 * j + k ==> !ByteHasBit(chunks[j], k)
  }

  /** Zero bytes have no bit set anywhere. */
  lemma ZerosTailClear(n: nat, size: nat)
    ensures TailClear(Zeros(n), size)
  {
  }

  /** Writing a bit below `size` keeps the bits at or above `size` clear. */
  lemma WriteBitKeepsTail(chunks: seq<bv8>, size: nat, i: nat, v: bool)
    requires i < size && i / 8 < |chunks| && TailClear(chunks, size)
    ensures TailClear(WriteBit(chunks, i, v), size)
  {
    var c := WriteBit(chunks, i, v);
    forall j, k | 0 <= j < |c| && 0 <= k < 8 && size <= 8 * j + k
      ensures !ByteHasBit(c[j], k)
    {
      if j == i / 8 {
        ByteWrite(chunks[j], i % 8, k, v);
      }
    }
  }

  /** A byte is determined by its eight bits. */
  lemma ByteFromBits(a: bv8, b: bv8)
    requires forall k :: 0 <= k < 8 ==> ByteHasBit(a, k) == ByteHasBit(b, k)
    ensures a == b
  {
    assert a & 0x01 == b & 0x01 by { assert ByteHasBit(a, 0) == ByteHasBit(b, 0); }
    assert a & 0x02 == b & 0x02 by { assert ByteHasBit(a, 1) == ByteHasBit(b, 1); }
    assert a & 0x04 == b & 0x04 by { assert ByteHasBit(a, 2) == ByteHasBit(b, 2); }
    assert a & 0x08 == b & 0x08 by { assert ByteHasBit(a, 3) == ByteHasBit(b, 3); }
    assert a & 0x10 == b & 0x10 by { assert ByteHasBit(a, 4) == ByteHasBit(b, 4); }
    assert a & 0x20 == b & 0x20 by { assert ByteHasBit(a, 5) == ByteHasBit(b, 5); }
    assert a & 0x40 == b & 0x40 by { assert ByteHasBit(a, 6) == ByteHasBit(b, 6); }
    assert a & 0x80 == b & 0x80 by { assert ByteHasBit(a, 7) == ByteHasBit(b, 7); }
  }

  /**
   * Two byte vectors of the same length that read the same below `size` and
   * are clear above it are the same bytes.
   */
  lemma BytesFromBits(c: seq<bv8>, d: seq<bv8>, size: nat)
    requires |c| == |d| && size <= |c| * 8
    requires forall i :: 0 <= i < size ==> TestBit(c, size, i) == TestBit(d, size, i)
    requires TailClear(c, size) && TailClear(d, size)
    ensures c == d
  {
    forall j | 0 <= j < |c|
      ensures c[j] == d[j]
    {
      forall k | 0 <= k < 8
        ensures ByteHasBit(c[j], k) == ByteHasBit(d[j], k)
      {
        var i := 8 * j + k;
        if i < size {
          assert i / 8 == j && i % 8 == k;
          assert TestBit(c, size, i) == TestBit(d, size, i);
        }
      }
      ByteFromBits(c[j], d[j]);
    }
  }

  class BitSet {
    var size: nat
    var chunks: seq<bv8>

    /** Every readable bit has a byte behind it; `is_bit_set` would index out of bounds otherwise. */
    predicate Valid()
      reads this
    {
      size <= |chunks| * 8
    }

    /** `BitSet::new()`. */
    constructor ()
      ensures Valid()
      ensures size == 0 && chunks == []
    {
      size := 0;
      chunks := [];
    }

    /** The struct literal `BitSet { chunks, size }` the unit tests build directly. */
    constructor FromParts(chunks: seq<bv8>, size: nat)
      requires size <= |chunks| * 8
      ensures Valid()
      ensures this.size == size && this.chunks == chunks
    {
      this.size := size;
      this.chunks := chunks;
    }

    /** `is_bit_set`: false outside `size`, whatever the backing byte holds. */
    function IsBitSet(i: nat): (b: bool)
      reads this
      requires Valid()
      ensures b ==> i < size
      ensures i < size ==> i / 8 < |chunks| && (b <==> ByteHasBit(chunks[i / 8], i % 8))
    {
      TestBit(chunks, size, i)
    }

    /** The logical content: one boolean per bit index below `size`. */
    function Contents(): (s: seq<bool>)
      reads this
      requires Valid()
      ensures |s| == size
      ensures forall i :: 0 <= i < size ==> s[i] == IsBitSet(i)
    {
      BitView(chunks, size)
    }

    /**
     * `resize`: the byte vector is cut or zero-extended to `ChunkCount(n)`
     * bytes. Retained bytes keep their bits, so bits that were above the old
     * `size` but inside a kept byte become readable again.
     */
    method Resize(n: nat)
      modifies this
      ensures Valid()
      ensures size == n && |chunks| == ChunkCount(n)
      ensures chunks == if ChunkCount(n) <= |old(chunks)|
                        then old(chunks)[..ChunkCount(n)]
                        else old(chunks) + Zeros(ChunkCount(n) - |old(chunks)|)
      ensures forall i :: 0 <= i < n ==>
                IsBitSet(i) == (i / 8 < |old(chunks)| && ByteHasBit(old(chunks)[i / 8], i % 8))
    {
      var c := ChunkCount(n);
      size := n;
      if c <= |chunks| {
        chunks := chunks[..c];
      } else {
        chunks := chunks + Zeros(c - |chunks|);
      }
    }

    /** `set_bit`: a no-op outside `size`; otherwise raises bit `i` and nothing else. */
    method SetBit(i: nat)
      requires Valid()
      modifies this
      ensures Valid() && size == old(size)
      ensures chunks == if i < size then old(chunks)[i / 8 := old(chunks)[i / 8] | Mask(i % 8)]
                        else old(chunks)
      ensures Contents() == if i < size then old(Contents())[i := true] else old(Contents())
    {
      if i >= size {
        return;
      }
      ByteInRange(i, |chunks|);
      WriteBitView(chunks, size, i, true);
      var chunk := i / 8;
      var bit := i % 8;
      chunks := chunks[chunk := chunks[chunk] | Mask(bit)];
      assert chunks == WriteBit(old(chunks), i, true);
    }

    /** `unset_bit`: a no-op outside `size`; otherwise clears bit `i` and nothing else. */
    method UnsetBit(i: nat)
      requires Valid()
      modifies this
      ensures Valid() && size == old(size)
      ensures chunks == if i < size then old(chunks)[i / 8 := old(chunks)[i / 8] & !Mask(i % 8)]
                        else old(chunks)
      ensures Contents() == if i < size then old(Contents())[i := false] else old(Contents())
    {
      if i >= size {
        return;
      }
      ByteInRange(i, |chunks|);
      WriteBitView(chunks, size, i, false);
      var chunk := i / 8;
      var bit := i % 8;
      chunks := chunks[chunk := chunks[chunk] & !Mask(bit)];
      assert chunks == WriteBit(old(chunks), i, false);
    }
  }

  // The unit tests of `src/bit_set.rs`, restated against the model.

  /** `(0..n).filter(|i| is_bit_set(i))`: the set bit indices below `n`, in increasing order. */
  function SetIndices(chunks: seq<bv8>, size: nat, n: nat): (r: seq<nat>)
    requires size <= |chunks| * 8
    ensures |r| <= n
  {
    if n == 0 then []
    else SetIndices(chunks, size, n - 1) + (if TestBit(chunks, size, n - 1) then [n - 1] else [])
  }

  /** Appending `[m]` when `t` holds, and nothing otherwise, adds `m` as a member exactly when `t`. */
  lemma MemberExtend(prefix: seq<nat>, m: nat, t: bool, k: nat)
    ensures k in prefix + (if t then [m] else []) <==> k in prefix || (k == m && t)
  {
    var last := if t then [m] else [];
    assert k in prefix + last <==> k in prefix || k in last;
  }

  /** Index `k` is listed by `SetIndices` exactly when it is below `n` and its bit is set. */
  lemma {:induction false} SetIndicesMember(chunks: seq<bv8>, size: nat, n: nat, k: nat)
    requires size <= |chunks| * 8
    ensures k in SetIndices(chunks, size, n) <==> k < n && TestBit(chunks, size, k)
  {
    if n > 0 {
      SetIndicesMember(chunks, size, n - 1, k);
      MemberExtend(SetIndices(chunks, size, n - 1), n - 1, TestBit(chunks, size, n - 1), k);
    }
  }

  /** `SetIndices` lists exactly the set bits below `n`. */
  lemma SetIndicesMembers(chunks: seq<bv8>, size: nat, n: nat)
    requires size <= |chunks| * 8
    ensures forall k: nat :: k in SetIndices(chunks, size, n) <==> k < n && TestBit(chunks, size, k)
  {
    forall k: nat
      ensures k in SetIndices(chunks, size, n) <==> k < n && TestBit(chunks, size, k)
    {
      SetIndicesMember(chunks, size, n, k);
    }
  }

  /** `r` is strictly increasing and every element is below `n`. */
  predicate AscendingBelow(r: seq<nat>, n: nat)
  {
    (forall p :: 0 <= p < |r| ==> r[p] < n) &&
    (forall p, q :: 0 <= p < q < |r| ==> r[p] < r[q])
  }

  /** Appending `[m]` when `t` holds, and nothing otherwise, to a list ascending below `m` keeps it ascending below `m + 1`. */
  lemma AscendingExtend(prefix: seq<nat>, m: nat, t: bool)
    requires AscendingBelow(prefix, m)
    ensures AscendingBelow(prefix + (if t then [m] else []), m + 1)
  {
    var r := prefix + (if t then [m] else []);
    forall p, q | 0 <= p < q < |r|
      ensures r[p] < r[q]
    {
      assert r[p] == prefix[p];
      if q < |prefix| {
        assert r[q] == prefix[q];
      }
    }
  }

  /** `SetIndices` lists its indices in strictly increasing order, all below `n`. */
  lemma {:induction false} SetIndicesAscending(chunks: seq<bv8>, size: nat, n: nat)
    requires size <= |chunks| * 8
    ensures AscendingBelow(SetIndices(chunks, size, n), n)
  {
    if n > 0 {
      SetIndicesAscending(chunks, size, n - 1);
      AscendingExtend(SetIndices(chunks, size, n - 1), n - 1, TestBit(chunks, size, n - 1));
    }
  }

  /** The last value written to bit `i` by a run of set/unset calls, `false` if none touched it. */
  function LastWrite(writes: seq<(nat, bool)>, i: nat): bool
  {
    if writes == [] then false
    else if writes[|writes| - 1].0 == i then writes[|writes| - 1].1
    else LastWrite(writes[..|writes| - 1], i)
  }

  /** The bits below `size` after a run of writes: each holds the last value written to it. */
  function Expected(writes: seq<(nat, bool)>, size: nat): (e: seq<bool>)
    ensures |e| == size && forall i :: 0 <= i < size ==> e[i] == LastWrite(writes, i)
  {
    seq(size, i requires 0 <= i < size => LastWrite(writes, i))
  }

  /** A freshly resized set reads as all clear, as if no write had happened. */
  lemma ZerosView(size: nat)
    ensures size <= |Zeros(ChunkCount(size))| * 8
    ensures BitView(Zeros(ChunkCount(size)), size) == Expected([], size)
  {
    var z := Zeros(ChunkCount(size));
    forall i | 0 <= i < size
      ensures BitView(z, size)[i] == Expected([], size)[i]
    {
      ByteInRange(i, |z|);
    }
  }

  /** One more write changes the bit it names, if that bit is below `size`, and nothing else. */
  lemma ExpectedStep(writes: seq<(nat, bool)>, size: nat, bit: nat, value: bool)
    ensures Expected(writes + [(bit, value)], size) ==
            if bit < size then Expected(writes, size)[bit := value] else Expected(writes, size)
  {
    assert (writes + [(bit, value)])[..|writes|] == writes;
  }

  /** A write that updates the view as `Write` does keeps the view equal to the expectation, one write longer. */
  lemma WriteStepView(c0: seq<bv8>, c1: seq<bv8>, size: nat, writes: seq<(nat, bool)>, bit: nat, value: bool)
    requires size <= |c0| * 8 && size <= |c1| * 8
    requires BitView(c0, size) == Expected(writes, size)
    requires BitView(c1, size) == if bit < size then BitView(c0, size)[bit := value] else BitView(c0, size)
    ensures BitView(c1, size) == Expected(writes + [(bit, value)], size)
  {
    ExpectedStep(writes, size, bit, value);
  }

  /** One step of `test_set_bit`: `set_bit` or `unset_bit`, as `value` says. */
  method Write(bitSet: BitSet, bit: nat, value: bool)
    requires bitSet.Valid()
    modifies bitSet
    ensures bitSet.Valid() && bitSet.size == old(bitSet.size) && |bitSet.chunks| == |old(bitSet.chunks)|
    ensures bitSet.chunks == if bit < bitSet.size then WriteBit(old(bitSet.chunks), bit, value) else old(bitSet.chunks)
    ensures BitView(bitSet.chunks, bitSet.size) ==
            if bit < bitSet.size then BitView(old(bitSet.chunks), bitSet.size)[bit := value]
            else BitView(old(bitSet.chunks), bitSet.size)
    ensures TailClear(old(bitSet.chunks), bitSet.size) ==> TailClear(bitSet.chunks, bitSet.size)
  {
    ghost var before := bitSet.chunks;
    if value {
      bitSet.SetBit(bit);
    } else {
      bitSet.UnsetBit(bit);
    }
    if bit < bitSet.size && TailClear(before, bitSet.size) {
      ByteInRange(bit, |before|);
      WriteBitKeepsTail(before, bitSet.size, bit, value);
    }
  }

  /**
   * A byte vector that holds what a fresh set of `size` bits holds after
   * `writes`: the right length, each in-range bit last written, the tail clear.
   */
  predicate Tracks(chunks: seq<bv8>, size: nat, writes: seq<(nat, bool)>)
  {
    |chunks| == ChunkCount(size) && BitView(chunks, size) == Expected(writes, size) && TailClear(chunks, size)
  }

  /** `Write` on a set that tracks `writes`: afterwards it tracks one write more. */
  method WriteTracked(bitSet: BitSet, ghost writes: seq<(nat, bool)>, bit: nat, value: bool)
    requires bitSet.Valid() && Tracks(bitSet.chunks, bitSet.size, writes)
    modifies bitSet
    ensures bitSet.Valid() && bitSet.size == old(bitSet.size)
    ensures Tracks(bitSet.chunks, bitSet.size, writes + [(bit, value)])
  {
    ghost var before := bitSet.chunks;
    Write(bitSet, bit, value);
    WriteStepView(before, bitSet.chunks, bitSet.size, writes, bit, value);
  }

  /** `BitSet::new()` then `resize(size)`: a set that tracks no writes. */
  method FreshTracked(size: nat) returns (bitSet: BitSet)
    ensures fresh(bitSet) && bitSet.Valid() && bitSet.size == size && Tracks(bitSet.chunks, size, [])
  {
    ZerosView(size);
    ZerosTailClear(ChunkCount(size), size);
    bitSet := new BitSet();
    bitSet.Resize(size);
    assert bitSet.chunks == Zeros(ChunkCount(size));
  }

  /**
   * The body of `test_set_bit`: a fresh set resized to `size`, then each
   * `(bit, value)` applied as `set_bit` or `unset_bit`. Every in-range bit ends
   * up holding the last value written to it; writes out of range are lost, and
   * every bit of the bytes at or above `size` stays clear. By `BytesFromBits`
   * these facts fix the bytes the test compares.
   */
  method ApplyWrites(size: nat, writes: seq<(nat, bool)>) returns (chunks: seq<bv8>)
    ensures |chunks| == ChunkCount(size)
    ensures BitView(chunks, size) == Expected(writes, size)
    ensures TailClear(chunks, size)
  {
    var bitSet := FreshTracked(size);
    var k := 0;
    while k < |writes|
      invariant 0 <= k <= |writes|
      invariant bitSet.Valid() && bitSet.size == size && Tracks(bitSet.chunks, size, writes[..k])
    {
      WriteTracked(bitSet, writes[..k], writes[k].0, writes[k].1);
      assert writes[..k + 1] == writes[..k] + [writes[k]];
      k := k + 1;
    }
    assert writes[..k] == writes;
    chunks := bitSet.chunks;
  }

  /** `test_resize`: the byte count is the bit count divided by 8, rounded up. */
  method ResizeCases() returns (sizes: seq<nat>, lengths: seq<nat>)
    ensures sizes == [1, 8, 9, 16, 17] && lengths == [1, 1, 2, 2, 3]
  {
    sizes, lengths := [], [];
    var bits := [1, 8, 9, 16, 17];
    var k := 0;
    while k < |bits|
      invariant 0 <= k <= |bits|
      invariant sizes == bits[..k]
      invariant |lengths| == k && forall p :: 0 <= p < k ==> lengths[p] == ChunkCount(bits[p])
    {
      var bitSet := new BitSet();
      bitSet.Resize(bits[k]);
      sizes, lengths := sizes + [bitSet.size], lengths + [|bitSet.chunks|];
      k := k + 1;
    }
  }

  /** `test_set_bit` without writes: the resized set is all zero bytes. */
  method SetBitNoWrites() returns (none: seq<bv8>, one: seq<bv8>, two: seq<bv8>, three: seq<bv8>)
    ensures none == [] && one == [0] && two == [0, 0] && three == [0, 0, 0]
  {
    var bitSet := new BitSet();
    bitSet.Resize(0);
    none := bitSet.chunks;
    bitSet := new BitSet();
    bitSet.Resize(8);
    one := bitSet.chunks;
    bitSet := new BitSet();
    bitSet.Resize(16);
    two := bitSet.chunks;
    bitSet := new BitSet();
    bitSet.Resize(24);
    three := bitSet.chunks;
  }

  /**
   * Two rows of `test_set_bit` read off the contract of `ApplyWrites`: its
   * bits and its clear tail fix the bytes.
   */
  method ApplyWritesRows() returns (outOfRange: seq<bv8>, firstByte: seq<bv8>)
    ensures outOfRange == [0] && firstByte == [0x02]
  {
    outOfRange := ApplyWrites(6, [(7, true), (8, true)]);
    assert forall i :: 0 <= i < 6 ==> !LastWrite([(7, true), (8, true)], i);
    BytesFromBits(outOfRange, [0], 6);
    firstByte := ApplyWrites(8, [(1, true)]);
    assert forall i :: 0 <= i < 8 ==> TestBit([0x02], 8, i) == LastWrite([(1, true)], i);
    BytesFromBits(firstByte, [0x02], 8);
  }

  /** `test_set_bit`: bit 1 is bit 1 of the first byte. */
  method SetBitFirstByte() returns (chunks: seq<bv8>)
    ensures chunks == [0x02]
  {
    var bitSet := new BitSet();
    bitSet.Resize(8);
    bitSet.SetBit(1);
    chunks := bitSet.chunks;
  }

  /** `test_set_bit`: writes at or above `size` change nothing. */
  method SetBitOutOfRange() returns (chunks: seq<bv8>)
    ensures chunks == [0]
  {
    var bitSet := new BitSet();
    bitSet.Resize(6);
    bitSet.SetBit(7);
    bitSet.SetBit(8);
    chunks := bitSet.chunks;
  }

  /** `test_set_bit`: bits 9 and 11 are bits 1 and 3 of the second byte. */
  method SetBitSecondByte() returns (chunks: seq<bv8>)
    ensures chunks == [0, 0x0A]
  {
    var bitSet := new BitSet();
    bitSet.Resize(16);
    bitSet.SetBit(9);
    bitSet.SetBit(11);
    chunks := bitSet.chunks;
  }

  /** `test_set_bit`: bits 1, 2, 3 set, then bit 2 unset. */
  method SetThenUnsetBit() returns (chunks: seq<bv8>)
    ensures chunks == [0x0A]
  {
    var bitSet := new BitSet();
    bitSet.Resize(8);
    bitSet.SetBit(1);
    bitSet.SetBit(2);
    bitSet.SetBit(3);
    bitSet.UnsetBit(2);
    chunks := bitSet.chunks;
  }

  /** `test_set_bit`: the first and the last bit of a 24-bit set. */
  method SetBitFirstAndLast() returns (chunks: seq<bv8>)
    ensures chunks == [0x02, 0, 0x80]
  {
    var bitSet := new BitSet();
    bitSet.Resize(24);
    bitSet.SetBit(1);
    bitSet.SetBit(23);
    chunks := bitSet.chunks;
  }

  /**
   * The body of `test_is_bit_set`: `(0..total_bits).filter(|i| is_bit_set(i))`
   * with `total_bits` the number of bits the bytes hold.
   */
  method SetBitIndices(bitSet: BitSet) returns (r: seq<nat>)
    requires bitSet.Valid()
    ensures r == SetIndices(bitSet.chunks, bitSet.size, |bitSet.chunks| * 8)
    ensures forall k: nat :: k in r <==> k < |bitSet.chunks| * 8 && bitSet.IsBitSet(k)
    ensures forall p, q :: 0 <= p < q < |r| ==> r[p] < r[q]
  {
    r := [];
    var i := 0;
    while i < |bitSet.chunks| * 8
      invariant 0 <= i <= |bitSet.chunks| * 8
      invariant r == SetIndices(bitSet.chunks, bitSet.size, i)
    {
      if bitSet.IsBitSet(i) {
        r := r + [i];
      }
      i := i + 1;
    }
    SetIndicesMembers(bitSet.chunks, bitSet.size, |bitSet.chunks| * 8);
    SetIndicesAscending(bitSet.chunks, bitSet.size, |bitSet.chunks| * 8);
  }

  /** `test_is_bit_set`: the pattern `0b10000001` repeated over 24 bits. */
  method IsBitSetRepeatedPattern() returns (r: seq<nat>)
    ensures r == [0, 7, 8, 15, 16, 23]
  {
    var bitSet := new BitSet.FromParts([0x81, 0x81, 0x81], 24);
    r := SetBitIndices(bitSet);
    RepeatedPatternIndices();
  }

  /** The set bits of `[0x81, 0x81, 0x81]`, read off `SetIndices`. */
  lemma RepeatedPatternIndices()
    ensures SetIndices([0x81, 0x81, 0x81], 24, 24) == [0, 7, 8, 15, 16, 23]
  {
    assert SetIndices([0x81, 0x81, 0x81], 24, 8) == [0, 7];
    assert SetIndices([0x81, 0x81, 0x81], 24, 16) == [0, 7, 8, 15];
  }

  /** `test_is_bit_set`: bit 7 of a 7-bit set reads as unset although its byte has it. */
  method IsBitSetIgnoresBitAboveSize() returns (r: seq<nat>)
    ensures r == [1]
  {
    var bitSet := new BitSet.FromParts([0x82], 7);
    r := SetBitIndices(bitSet);
  }

  /** `test_is_bit_set`: only bit 8 of the second byte is below `size == 9`. */
  method IsBitSetIgnoresByteTail() returns (r: seq<nat>)
    ensures r == [0, 5, 8]
  {
    var bitSet := new BitSet.FromParts([0x21, 0xFF], 9);
    r := SetBitIndices(bitSet);
    assert SetIndices([0x21, 0xFF], 9, 8) == [0, 5];
    assert SetIndices([0x21, 0xFF], 9, 16) == [0, 5, 8];
  }

  /** `test_is_bit_set`: a third byte beyond `size == 16` is never read. */
  method IsBitSetIgnoresSpareByte() returns (r: seq<nat>)
    ensures r == [0]
  {
    var bitSet := new BitSet.FromParts([0x01, 0, 0xFF], 16);
    r := SetBitIndices(bitSet);
    assert SetIndices([0x01, 0, 0xFF], 16, 8) == [0];
    assert SetIndices([0x01, 0, 0xFF], 16, 16) == [0];
    assert SetIndices([0x01, 0, 0xFF], 16, 24) == [0];
  }

  /**
   * Shrinking does not clear a retained byte: set bit 7 of an 8-bit set, shrink
   * to 4 bits and grow back to 8, and bit 7 reads as set again.
   */
  method StaleBitAfterRegrow() returns (hidden: bool, revived: bool)
    ensures !hidden && revived
  {
    var bitSet := new BitSet();
    bitSet.Resize(8);
    bitSet.SetBit(7);
    bitSet.Resize(4);
    hidden := bitSet.IsBitSet(7);
    bitSet.Resize(8);
    revived := bitSet.IsBitSet(7);
  }
}
