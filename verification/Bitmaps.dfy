/** The header of a mapped zone, with its free bitmap kept in bytes as the C code keeps it. */
module Bitmaps {
  import opened Layout
  import Z = Zones

  predicate BitOf(b: bv8, j: nat)
    requires j < 8
  {
    b & (1 << j) != 0
  }

  predicate BitAt(bytes: seq<bv8>, k: nat)
    requires k < 8 * |bytes|
  {
    BitOf(bytes[k / 8], k % 8)
  }

  function Bits(bytes: seq<bv8>, n: nat): (bits: seq<bool>)
    requires n <= 8 * |bytes|
    ensures |bits| == n
    ensures forall k :: 0 <= k < n ==> bits[k] == BitAt(bytes, k)
  {
    seq(n, k requires 0 <= k < n => BitAt(bytes, k))
  }

  // The bits of the last byte that stand for no block are 0.
  ghost predicate TailClear(bytes: seq<bv8>, n: nat) {
    forall k :: n <= k < 8 * |bytes| ==> !BitAt(bytes, k)
  }

  lemma ClearOne(b: bv8, j: nat, i: nat)
    requires j < 8 && i < 8
    ensures BitOf(ByteCleared(b, j), i) == (BitOf(b, i) && i != j)
  {}

  lemma SetOne(b: bv8, j: nat, i: nat)
    requires j < 8 && i < 8
    ensures BitOf(ByteSet(b, j), i) == (BitOf(b, i) || i == j)
  {}

  function LowMask(r: nat): bv8
    requires r < 8
  {
    (1 << r) - 1
  }

  lemma LowOnes(r: nat, i: nat)
    requires 0 < r < 8 && i < 8
    ensures BitOf(LowMask(r), i) == (i < r)
  {}

  lemma AllOnes(i: nat)
    requires i < 8
    ensures BitOf(0xFF, i)
  {}

  function ByteCleared(b: bv8, j: nat): bv8
    requires j < 8
  {
    b & !(1 << j)
  }

  function ByteSet(b: bv8, j: nat): bv8
    requires j < 8
  {
    b | (1 << j)
  }

  // Clearing or setting bit k of the byte k / 8 changes that one bit of the map.
  lemma ClearBit(bytes: seq<bv8>, n: nat, k: nat)
    requires n <= 8 * |bytes| && k < n && TailClear(bytes, n)
    ensures var bytes' := bytes[k / 8 := ByteCleared(bytes[k / 8], k % 8)];
            Bits(bytes', n) == Bits(bytes, n)[k := false] && TailClear(bytes', n)
  {
    hide BitOf, ByteCleared;
    var bytes' := bytes[k / 8 := ByteCleared(bytes[k / 8], k % 8)];
    forall i | 0 <= i < 8 * |bytes|
      ensures BitAt(bytes', i) == (BitAt(bytes, i) && i != k)
    {
      ClearOne(bytes[k / 8], k % 8, i % 8);
    }
  }

  lemma SetBit(bytes: seq<bv8>, n: nat, k: nat)
    requires n <= 8 * |bytes| && k < n && TailClear(bytes, n)
    ensures var bytes' := bytes[k / 8 := ByteSet(bytes[k / 8], k % 8)];
            Bits(bytes', n) == Bits(bytes, n)[k := true] && TailClear(bytes', n)
  {
    hide BitOf, ByteSet;
    var bytes' := bytes[k / 8 := ByteSet(bytes[k / 8], k % 8)];
    forall i | 0 <= i < 8 * |bytes|
      ensures BitAt(bytes', i) == (BitAt(bytes, i) || i == k)
    {
      SetOne(bytes[k / 8], k % 8, i % 8);
    }
  }

  // All bytes 0xFF, the last one masked down to n % 8 ones unless n is a multiple of 8.
  lemma FreshBits(bytes: seq<bv8>, n: nat)
    requires n > 0 && |bytes| == (n + 7) / 8
    requires forall i :: 0 <= i < |bytes| - 1 ==> bytes[i] == 0xFF
    requires bytes[|bytes| - 1] == (if n % 8 == 0 then 0xFF else LowMask(n % 8))
    ensures Bits(bytes, n) == seq(n, _ => true) && TailClear(bytes, n)
  {
    hide BitOf, LowMask;
    forall k | 0 <= k < 8 * |bytes|
      ensures BitAt(bytes, k) == (k < n)
    {
      AllOnes(k % 8);
      if n % 8 != 0 { LowOnes(n % 8, k % 8); }
    }
  }

  // ft_memset
  method Memset(a: array<bv8>, c: bv8, len: nat)
    requires len <= a.Length
    modifies a
    ensures forall i :: 0 <= i < a.Length ==> a[i] == if i < len then c else old(a[i])
  {
    var p, left := 0, len;
    while left > 0
      invariant p + left == len
      invariant forall i :: 0 <= i < a.Length ==> a[i] == if i < p then c else old(a[i])
    {
      a[p] := c;
      p, left := p + 1, left - 1;
    }
  }

  // zone_t, less its own address and its links, which are in the list cell
  class ZoneHeader {
    const kind: ZoneClass
    const blocks: nat
    const bitmap: array<bv8>
    const requested: array<nat>
    var freeCount: int

    ghost predicate Valid()
      reads bitmap
    {
      && bitmap as object != requested as object
      && bitmap.Length == (blocks + 7) / 8 && requested.Length == blocks
      && TailClear(bitmap[..], blocks)
    }

    // What the header, the bitmap and the size table say together.
    ghost function Value(): Z.Zone
      reads this, bitmap, requested
      requires Valid()
    {
      Z.Zone(Bits(bitmap[..], blocks), requested[..], freeCount)
    }

    ghost predicate Is(v: Z.Zone)
      reads this, bitmap, requested
    {
      Valid() && Value() == v
    }

    lemma CellIs(v: Z.Zone, i: nat)
      requires Is(v)
      ensures |v.bits| == |v.requested| == requested.Length == blocks
      ensures i < blocks ==> i / 8 < bitmap.Length && BitOf(bitmap[i / 8], i % 8) == v.bits[i] && requested[i] == v.requested[i]
    {
      hide BitOf;
    }

    // The part of create_zone that fills in a mapped, zeroed zone.
    constructor (kind: ZoneClass, blocks: nat)
      requires blocks > 0
      ensures this.kind == kind && this.blocks == blocks
      ensures fresh(bitmap) && fresh(requested)
      ensures Is(Z.FreshZone(blocks)) && bitmap as object != requested
    {
      this.kind, this.blocks := kind, blocks;
      freeCount := blocks;
      bitmap := new bv8[(blocks + 7) / 8](_ => 0);
      requested := new nat[blocks](_ => 0);
      new;
      Memset(bitmap, 0xFF, bitmap.Length);
      if blocks % 8 != 0 {
        bitmap[bitmap.Length - 1] := LowMask(blocks % 8);
      }
      FreshBits(bitmap[..], blocks);
    }

    // The answer is -1 or the lowest set bit.  The scan looks at the unused bits of the last byte too,
    // but they are 0, so the answer is always the number of a block.
    method FindSetBit() returns (r: int)
      requires Valid()
      ensures match Z.FirstFree(Value().bits)
              case None => r == -1
              case Some(k) => r == k
    {
      hide BitOf;
      var i := 0;
      while i < (blocks + 7) / 8
        invariant 0 <= i <= bitmap.Length
        invariant forall k :: 0 <= k < 8 * i ==> !BitAt(bitmap[..], k)
      {
        var byte := bitmap[i];
        var j := 0;
        while j < 8
          invariant 0 <= j <= 8
          invariant forall k :: 0 <= k < 8 * i + j ==> !BitAt(bitmap[..], k)
        {
          if BitOf(byte, j) {
            assert BitAt(bitmap[..], 8 * i + j);
            return i * 8 + j;
          }
          assert !BitAt(bitmap[..], 8 * i + j);
          j := j + 1;
        }
        i := i + 1;
      }
      return -1;
    }

    // The threaded version has a guard for bits that stand for no block.  The contract is the same,
    // so the guard never fires.
    method FindSetBitGuarded() returns (r: int)
      requires Valid()
      ensures match Z.FirstFree(Value().bits)
              case None => r == -1
              case Some(k) => r == k
    {
      hide BitOf;
      var i := 0;
      while i < (blocks + 7) / 8
        invariant 0 <= i <= bitmap.Length
        invariant forall k :: 0 <= k < 8 * i ==> !BitAt(bitmap[..], k)
      {
        var byte := bitmap[i];
        var j := 0;
        while j < 8
          invariant 0 <= j <= 8
          invariant forall k :: 0 <= k < 8 * i + j ==> !BitAt(bitmap[..], k)
        {
          if BitOf(byte, j) {
            assert BitAt(bitmap[..], 8 * i + j);
            var bitIndex := i * 8 + j;
            if bitIndex >= blocks {
              assert false;
              return -1;
            }
            return bitIndex;
          }
          assert !BitAt(bitmap[..], 8 * i + j);
          j := j + 1;
        }
        i := i + 1;
      }
      return -1;
    }

    // The three updates of find_free_block.
    method TakeBit(k: nat, size: nat)
      requires Valid() && k < blocks
      modifies this`freeCount, bitmap, requested
      ensures Valid()
      ensures var was := old(Value()); Value() == Z.Zone(was.bits[k := false], was.requested[k := size], was.freeCount - 1)
    {
      hide BitOf, TailClear, Bits;
      ClearBit(bitmap[..], blocks, k);
      bitmap[k / 8] := bitmap[k / 8] & !(1 << (k % 8));
      assert bitmap[..] == old(bitmap[..])[k / 8 := ByteCleared(old(bitmap[k / 8]), k % 8)];
      requested[k] := size;
      assert requested[..] == old(requested[..])[k := size];
      freeCount := freeCount - 1;
    }

    // The two updates of free.
    method GiveBit(k: nat)
      requires Valid() && k < blocks
      modifies this`freeCount, bitmap
      ensures Valid()
      ensures var was := old(Value()); Value() == was.(bits := was.bits[k := true], freeCount := was.freeCount + 1)
    {
      hide BitOf, TailClear, Bits;
      SetBit(bitmap[..], blocks, k);
      bitmap[k / 8] := bitmap[k / 8] | (1 << (k % 8));
      assert bitmap[..] == old(bitmap[..])[k / 8 := ByteSet(old(bitmap[k / 8]), k % 8)];
      freeCount := freeCount + 1;
    }
  }
}
