/** The meta word kept just before every payload.

    A word is a natural number below 2^64 and the C operators are defined bit by bit, so the macros
    below are the C expressions; the lemmas then give their meaning. */
module Meta {

  const ZONE_FLAG: nat := 2048                    // 1u << 11
  const INDEX_MASK: nat := 0x7FF
  const PAGE_MASK: nat := 0xFFFF_FFFF_FFFF_F000   // ~(uintptr_t)0xFFF
  const PAGES: nat := 0x10_0000_0000_0000          // pages in a 64-bit address space
  const WORD_LIMIT: nat := 0x1_0000_0000_0000_0000

  function Or(x: nat, y: nat): nat {
    if x == 0 then y
    else if y == 0 then x
    else (if x % 2 == 1 || y % 2 == 1 then 1 else 0) + 2 * Or(x / 2, y / 2)
  }

  function And(x: nat, y: nat): nat {
    if x == 0 || y == 0 then 0
    else (if x % 2 == 1 && y % 2 == 1 then 1 else 0) + 2 * And(x / 2, y / 2)
  }

  function MetaPack(zone: nat, n: nat): nat { Or(Or(zone, ZONE_FLAG), n) }
  predicate MetaIsZone(meta: nat) { And(meta, ZONE_FLAG) != 0 }
  function MetaZone(meta: nat): nat { And(meta, PAGE_MASK) }
  function MetaBlockNum(meta: nat): nat { And(meta, INDEX_MASK) }

  function Pow2(k: nat): (p: nat)
    ensures p > 0
  {
    if k == 0 then 1 else 2 * Pow2(k - 1)
  }

  function Shl(x: nat, k: nat): nat {
    if k == 0 then x else 2 * Shl(x, k - 1)
  }

  // Both operators act separately on the k low bits and on the rest.
  lemma {:induction false} AndSplit(hi: nat, lo: nat, m: nat, l: nat, k: nat)
    requires lo < Pow2(k) && l < Pow2(k)
    ensures And(Shl(hi, k) + lo, Shl(m, k) + l) == Shl(And(hi, m), k) + And(lo, l)
  {
    if k > 0 {
      AndSplit(hi, lo / 2, m, l / 2, k - 1);
      var x, y := Shl(hi, k) + lo, Shl(m, k) + l;
      assert x / 2 == Shl(hi, k - 1) + lo / 2 && x % 2 == lo % 2;
      assert y / 2 == Shl(m, k - 1) + l / 2 && y % 2 == l % 2;
    }
  }

  lemma {:induction false} OrSplit(hi: nat, lo: nat, k: nat)
    requires lo < Pow2(k)
    ensures Or(Shl(hi, k), lo) == Shl(hi, k) + lo
  {
    if k > 0 {
      OrSplit(hi, lo / 2, k - 1);
      assert Shl(hi, k) / 2 == Shl(hi, k - 1) && Shl(hi, k) % 2 == 0;
    }
  }

  lemma {:induction false} AndOnes(x: nat, k: nat)
    requires x < Pow2(k)
    ensures And(x, Pow2(k) - 1) == x
  {
    if k > 0 {
      assert (Pow2(k) - 1) / 2 == Pow2(k - 1) - 1;
      AndOnes(x / 2, k - 1);
    }
  }

  lemma {:induction false} AndAtMost(x: nat, y: nat)
    ensures And(x, y) <= y
  {
    if x != 0 && y != 0 { AndAtMost(x / 2, y / 2); }
  }

  lemma Shl12(x: nat)
    ensures Shl(x, 12) == 4096 * x && Shl(x, 11) == 2048 * x
  {
    assert Shl(x, 1) == 2 * x;
    assert Shl(x, 2) == 4 * x;
    assert Shl(x, 4) == 16 * x;
    assert Shl(x, 6) == 64 * x;
    assert Shl(x, 8) == 256 * x;
    assert Shl(x, 10) == 1024 * x;
  }

  lemma PageCount()
    ensures Pow2(12) == 4096 && Pow2(11) == 2048 && Pow2(52) == PAGES
  {
    assert Pow2(13) == 8192;
    assert Pow2(26) == 8192 * 8192;
    assert Pow2(39) == 8192 * 8192 * 8192;
  }

  // The packed word is a sum, because the three parts share no bit.
  lemma PackIsSum(zone: nat, n: nat)
    requires zone % 4096 == 0 && n < 2048
    ensures MetaPack(zone, n) == zone + ZONE_FLAG + n
  {
    var page := zone / 4096;
    Shl12(page);
    OrSplit(page, ZONE_FLAG, 12);
    Shl12(2 * page + 1);
    OrSplit(2 * page + 1, n, 11);
  }

  // A page-aligned address decodes as a large block, never as a zone.
  lemma PlainWordIsNotZone(base: nat)
    requires base % 4096 == 0
    ensures !MetaIsZone(base)
  {
    var page := base / 4096;
    Shl12(page);
    AndSplit(page, 0, 0, ZONE_FLAG, 12);
  }

  lemma DecodePacked(zone: nat, n: nat)
    requires zone < WORD_LIMIT && zone % 4096 == 0 && n < 2048
    ensures MetaIsZone(MetaPack(zone, n))
    ensures MetaZone(MetaPack(zone, n)) == zone
    ensures MetaBlockNum(MetaPack(zone, n)) == n
  {
    PackIsSum(zone, n);
    var page := zone / 4096;
    Shl12(page); Shl12(1); Shl12(0); Shl12(2 * page + 1);
    DecodeFlag(page, n);
    DecodeZone(page, n);
    DecodeIndex(page, n);
  }

  lemma DecodeFlag(page: nat, n: nat)
    requires n < 2048
    ensures And(4096 * page + 2048 + n, ZONE_FLAG) == 2048
  {
    Shl12(2 * page + 1); Shl12(1);
    AndSplit(2 * page + 1, n, 1, 0, 11);
  }

  lemma DecodeZone(page: nat, n: nat)
    requires n < 2048 && page < PAGES
    ensures And(4096 * page + 2048 + n, PAGE_MASK) == 4096 * page
  {
    Shl12(page); Shl12(PAGES - 1);
    AndSplit(page, 2048 + n, PAGES - 1, 0, 12);
    PageCount();
    AndOnes(page, 52);
    Shl12(And(page, PAGES - 1));
  }

  lemma DecodeIndex(page: nat, n: nat)
    requires n < 2048
    ensures And(4096 * page + 2048 + n, INDEX_MASK) == n
  {
    Shl12(2 * page + 1); Shl12(0);
    AndSplit(2 * page + 1, n, 0, INDEX_MASK, 11);
    AndOnes(n, 11);
  }

  lemma MaskedZoneIsAligned(meta: nat)
    ensures MetaZone(meta) % 4096 == 0
  {
    var page := meta / 4096;
    Shl12(page); Shl12(PAGES - 1);
    AndSplit(page, meta % 4096, PAGES - 1, 0, 12);
    Shl12(And(page, PAGES - 1));
  }

  // Unpacking undoes packing for exactly the page-aligned zones and the indices below 2048.
  lemma RoundTripExactly(zone: nat, n: nat)
    requires zone < WORD_LIMIT
    ensures MetaZone(MetaPack(zone, n)) == zone && MetaBlockNum(MetaPack(zone, n)) == n
            <==> zone % 4096 == 0 && n < 2048
  {
    if zone % 4096 == 0 && n < 2048 {
      DecodePacked(zone, n);
    } else {
      MaskedZoneIsAligned(MetaPack(zone, n));
      AndAtMost(MetaPack(zone, n), INDEX_MASK);
    }
  }
}
