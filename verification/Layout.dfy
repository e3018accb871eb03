/** Size classes and the layout of a zone: header, free bitmap, requested sizes, then slots made of
    a meta word and a payload. */
module Layout {

  const TINY_BLOCK_SIZE: nat := 64
  const SMALL_BLOCK_SIZE: nat := 1024
  const BLOCKS_PER_ZONE: nat := 100
  const MAX_BLOCKS: nat := 2047
  const ZONE_HEADER: nat := 72     // sizeof(zone_t)
  const BLOCK_HEADER: nat := 40    // sizeof(block_t)
  const WORD: nat := 8             // sizeof(void *) and sizeof(size_t)
  const CACHE_LIMIT: nat := SMALL_BLOCK_SIZE * BLOCKS_PER_ZONE
  const PTRDIFF_MAX: nat := 0x7FFF_FFFF_FFFF_FFFF
  const INT_LIMIT: nat := 0x8000_0000

  datatype SizeClass = Tiny | Small | Large
  type ZoneClass = c: SizeClass | c != Large witness Tiny

  function ClassOf(size: nat): (c: SizeClass)
    ensures c == Tiny <==> size <= TINY_BLOCK_SIZE
    ensures c == Large <==> size > SMALL_BLOCK_SIZE
  {
    if size <= TINY_BLOCK_SIZE then Tiny else if size <= SMALL_BLOCK_SIZE then Small else Large
  }

  function BlockSize(c: ZoneClass): nat {
    if c.Tiny? then TINY_BLOCK_SIZE else SMALL_BLOCK_SIZE
  }

  // ---- the arithmetic of create_zone, for any block size and page size ----

  function MinSize(blockSize: nat): nat {
    ZONE_HEADER + (BLOCKS_PER_ZONE + 7) / 8 + BLOCKS_PER_ZONE * (WORD + WORD + blockSize)
  }

  function TotalSize(blockSize: nat, page: nat): nat
    requires page > 0
  {
    ((MinSize(blockSize) + page - 1) / page) * page
  }

  function PerBlock(blockSize: nat): nat { WORD + blockSize + WORD }

  // The C conversion to a 32-bit int.
  function ToInt(x: nat): int {
    var low := x % (2 * INT_LIMIT);
    if low < INT_LIMIT then low else low - 2 * INT_LIMIT
  }

  // The C division, which truncates toward zero.
  function TruncatedDiv(a: int, b: int): int
    requires b != 0
  {
    if a >= 0 then a / b else -((-a) / b)
  }

  // Block count for a zone of the given total size.
  function CountFor(total: nat, blockSize: nat): int
    requires ToInt(8 * PerBlock(blockSize) + 1) != 0
    requires total >= ZONE_HEADER
  {
    var n := TruncatedDiv(ToInt(8 * (total - ZONE_HEADER)), ToInt(8 * PerBlock(blockSize) + 1));
    if n > MAX_BLOCKS then MAX_BLOCKS else n
  }

  function NumberOfBlocks(blockSize: nat, page: nat): int
    requires page > 0
    requires ToInt(8 * PerBlock(blockSize) + 1) != 0
    requires TotalSize(blockSize, page) >= ZONE_HEADER
  {
    CountFor(TotalSize(blockSize, page), blockSize)
  }

  // Bytes that n slots of the given block size need, with the ceiling of the bitmap written out.
  function ZoneNeed(blockSize: nat, n: nat): nat {
    ZONE_HEADER + (n + 7) / 8 + n * PerBlock(blockSize)
  }

  // The two operands of the division, as ints.
  function Dividend(blockSize: nat, page: nat): int
    requires page > 0 && TotalSize(blockSize, page) >= ZONE_HEADER
  {
    ToInt(8 * (TotalSize(blockSize, page) - ZONE_HEADER))
  }

  function Divisor(blockSize: nat): int { ToInt(8 * PerBlock(blockSize) + 1) }

  // Eight slots, and one byte, fit in an int; true of both block sizes that are in use.
  predicate SlotsFitInt(blockSize: nat) { 8 * PerBlock(blockSize) + 1 < INT_LIMIT }

  lemma RoundedUp(x: nat, page: nat)
    requires page > 0
    ensures ((x + page - 1) / page) * page >= x
    ensures ((x + page - 1) / page) * page < x + page
  {
    var q := (x + page - 1) / page;
    assert x + page - 1 == q * page + (x + page - 1) % page;
  }

  // The division of non-negative numbers, with a name under which proofs can set it aside.
  function Div(a: nat, d: nat): nat
    requires d > 0
  {
    a / d
  }

  function Min(a: nat, b: nat): nat { if a < b then a else b }

  function Quotient(total: nat, blockSize: nat): nat
    requires total >= ZONE_HEADER
  {
    Div(8 * (total - ZONE_HEADER), 8 * PerBlock(blockSize) + 1)
  }

  // n slots fit exactly when n is at most the quotient that create_zone computes, so the single
  // division accounts for the rounded-up bitmap.
  lemma FitsIffBelowQuotient(total: nat, blockSize: nat, n: nat)
    requires total >= ZONE_HEADER
    ensures ZoneNeed(blockSize, n) <= total <==> n <= Quotient(total, blockSize)
  {
    var room, perBlock := total - ZONE_HEADER, PerBlock(blockSize);
    QuotientReaches(8 * room, 8 * perBlock + 1, n);
    assert n * (8 * perBlock + 1) == 8 * (n * perBlock) + n;
  }

  lemma MulMonotone(a: nat, b: nat, d: nat)
    requires a <= b
    ensures a * d <= b * d
  {
    assert (b - a) * d >= 0;
    assert b * d == a * d + (b - a) * d;
  }

  lemma ToIntAtMost(x: nat)
    ensures ToInt(x) == x || ToInt(x) + 2 * INT_LIMIT <= x
    ensures x < INT_LIMIT ==> ToInt(x) == x
  {}

  lemma TotalCoversMin(blockSize: nat, page: nat)
    requires page > 0
    ensures TotalSize(blockSize, page) >= MinSize(blockSize) >= ZONE_HEADER
  {
    RoundedUp(MinSize(blockSize), page);
  }

  // A quotient rounded down reaches a bound exactly when the dividend reaches the multiple.
  lemma QuotientReaches(a: nat, d: nat, n: nat)
    requires d > 0
    ensures Div(a, d) >= n <==> a >= n * d
  {
    var q := a / d;
    assert a == q * d + a % d;
    if q >= n {
      MulMonotone(n, q, d);
    } else {
      MulMonotone(q + 1, n, d);
      assert (q + 1) * d == q * d + d;
    }
  }

  // The mapped length is the least number of whole pages in which a header, a bitmap for 100 blocks and
  // 100 slots with their entries in the size table find room.
  lemma TotalIsLeast(blockSize: nat, page: nat, m: nat) returns (pages: nat)
    requires page > 0
    ensures TotalSize(blockSize, page) == pages * page
    ensures 72 + 13 + 100 * (8 + 8 + blockSize) <= m * page <==> pages <= m
  {
    var least := 72 + 13 + 100 * (8 + 8 + blockSize);
    assert least == MinSize(blockSize);
    pages := Div(least + page - 1, page);
    QuotientReaches(least + page - 1, page, m + 1);
    assert (m + 1) * page == m * page + page;
  }

  // The count, whatever the casts do: the division, capped, of a non-negative dividend; and no
  // positive number for a negative one.
  lemma CountIs(blockSize: nat, page: nat)
    requires page > 0 && SlotsFitInt(blockSize)
    ensures TotalSize(blockSize, page) >= ZONE_HEADER && Divisor(blockSize) == 8 * PerBlock(blockSize) + 1
    ensures var a, n := Dividend(blockSize, page), NumberOfBlocks(blockSize, page);
            if a < 0 then n <= 0 else n == Min(Div(a, Divisor(blockSize)), MAX_BLOCKS)
  {
    TotalCoversMin(blockSize, page);
    ToIntAtMost(8 * PerBlock(blockSize) + 1);
    var a := Dividend(blockSize, page);
    if a < 0 { QuotientReaches(-a, Divisor(blockSize), 0); }
  }

  // Where the count is at least as many slots as are promised, seen before the zone is mapped.
  predicate RoomForMinimum(blockSize: nat, page: nat)
    requires page > 0 && TotalSize(blockSize, page) >= ZONE_HEADER
  {
    Dividend(blockSize, page) >= BLOCKS_PER_ZONE * Divisor(blockSize)
  }

  // For every page size: create_zone picks between 100 and 2047 blocks, all of which fit, exactly when
  // the dividend, as an int, is at least 100 times the divisor.
  lemma ZoneIsGoodExactly(blockSize: nat, page: nat)
    requires page > 0 && SlotsFitInt(blockSize)
    ensures TotalSize(blockSize, page) >= ZONE_HEADER && Divisor(blockSize) > 0
    ensures BLOCKS_PER_ZONE <= NumberOfBlocks(blockSize, page) <==> RoomForMinimum(blockSize, page)
    ensures NumberOfBlocks(blockSize, page) <= MAX_BLOCKS
    ensures NumberOfBlocks(blockSize, page) > 0 ==> ZoneNeed(blockSize, NumberOfBlocks(blockSize, page)) <= TotalSize(blockSize, page)
  {
    hide NumberOfBlocks, TotalSize, ZoneNeed, Divisor, Dividend, Div;
    CountIs(blockSize, page);
    var a, d, n := Dividend(blockSize, page), Divisor(blockSize), NumberOfBlocks(blockSize, page);
    if a >= 0 {
      QuotientReaches(a, d, BLOCKS_PER_ZONE);
      DividendFits(blockSize, page, n);
    }
  }

  // A quotient of the dividend never exceeds what fits, whatever the conversion took away.
  lemma DividendFits(blockSize: nat, page: nat, n: nat)
    requires page > 0 && SlotsFitInt(blockSize) && TotalSize(blockSize, page) >= ZONE_HEADER
    requires Divisor(blockSize) == 8 * PerBlock(blockSize) + 1
    requires 0 <= Dividend(blockSize, page) && n <= Div(Dividend(blockSize, page), Divisor(blockSize))
    ensures ZoneNeed(blockSize, n) <= TotalSize(blockSize, page)
  {
    hide TotalSize, ZoneNeed, Divisor, ToInt, Div;
    var total := TotalSize(blockSize, page);
    ToIntAtMost(8 * (total - ZONE_HEADER));
    DivMonotone(Dividend(blockSize, page), 8 * (total - ZONE_HEADER), Divisor(blockSize));
    FitsIffBelowQuotient(total, blockSize, n);
  }

  lemma DivMonotone(a: nat, b: nat, d: nat)
    requires a <= b && d > 0
    ensures Div(a, d) <= Div(b, d)
  {
    QuotientReaches(a, d, Div(a, d));
    QuotientReaches(b, d, Div(a, d));
  }

  // Where the count is the largest that fits under the cap, seen before the zone is mapped.
  predicate RoomIsExact(blockSize: nat, page: nat)
    requires page > 0 && TotalSize(blockSize, page) >= ZONE_HEADER
  {
    || Dividend(blockSize, page) == 8 * (TotalSize(blockSize, page) - ZONE_HEADER)
    || Dividend(blockSize, page) >= MAX_BLOCKS * Divisor(blockSize)
  }

  // n is no more than the count exactly when n slots fit and the index field can hold n.
  ghost predicate LargestThatFits(blockSize: nat, page: nat, count: int)
    requires page > 0
  {
    forall n: nat :: n <= count <==> ZoneNeed(blockSize, n) <= TotalSize(blockSize, page) && n <= MAX_BLOCKS
  }

  // For every page size: the count is the largest that fits under the cap exactly when the dividend
  // survives its conversion to int, or reaches the cap all the same.
  lemma LargestThatFitsExactly(blockSize: nat, page: nat)
    requires page > 0 && SlotsFitInt(blockSize)
    ensures TotalSize(blockSize, page) >= ZONE_HEADER && Divisor(blockSize) > 0
    ensures LargestThatFits(blockSize, page, NumberOfBlocks(blockSize, page)) <==> RoomIsExact(blockSize, page)
  {
    hide NumberOfBlocks, TotalSize, ZoneNeed, Divisor, Dividend, Quotient, LargestThatFits, RoomIsExact, PerBlock;
    CountIs(blockSize, page);
    var total := TotalSize(blockSize, page);
    var best := Min(Quotient(total, blockSize), MAX_BLOCKS);
    forall n: nat ensures ZoneNeed(blockSize, n) <= total && n <= MAX_BLOCKS <==> n <= best {
      FitsIffBelowQuotient(total, blockSize, n);
    }
    LargestIsBest(blockSize, page, NumberOfBlocks(blockSize, page), best);
    CountIsBest(blockSize, page);
  }

  lemma LargestIsBest(blockSize: nat, page: nat, count: int, best: nat)
    requires page > 0
    requires forall n: nat :: ZoneNeed(blockSize, n) <= TotalSize(blockSize, page) && n <= MAX_BLOCKS <==> n <= best
    ensures LargestThatFits(blockSize, page, count) <==> count == best
  {
    hide ZoneNeed, TotalSize;
    if LargestThatFits(blockSize, page, count) {
      assert best <= count <==> ZoneNeed(blockSize, best) <= TotalSize(blockSize, page) && best <= MAX_BLOCKS;
      assert count <= count <==> ZoneNeed(blockSize, count) <= TotalSize(blockSize, page) && count <= MAX_BLOCKS;
    }
  }

  // A dividend that wrapped lost at least 2^32, which is more than one divisor.
  lemma CountIsBest(blockSize: nat, page: nat)
    requires page > 0 && SlotsFitInt(blockSize) && TotalSize(blockSize, page) >= ZONE_HEADER && Divisor(blockSize) > 0
    ensures NumberOfBlocks(blockSize, page) == Min(Quotient(TotalSize(blockSize, page), blockSize), MAX_BLOCKS)
            <==> RoomIsExact(blockSize, page)
  {
    hide NumberOfBlocks, TotalSize, Divisor, ToInt, Div;
    CountIs(blockSize, page);
    var a, d := Dividend(blockSize, page), Divisor(blockSize);
    var room := 8 * (TotalSize(blockSize, page) - ZONE_HEADER);
    RoomReaches(blockSize, page);
    ToIntAtMost(room);
    if a >= 0 {
      QuotientReaches(a, d, MAX_BLOCKS);
      if a != room {
        LessByDivisor(a, room, d);
      }
    }
  }

  lemma RoomReaches(blockSize: nat, page: nat)
    requires page > 0 && TotalSize(blockSize, page) >= ZONE_HEADER
    requires Divisor(blockSize) == 8 * PerBlock(blockSize) + 1
    ensures Quotient(TotalSize(blockSize, page), blockSize) >= BLOCKS_PER_ZONE
  {
    hide TotalSize, Divisor, Div;
    TotalCoversMin(blockSize, page);
    QuotientReaches(8 * (TotalSize(blockSize, page) - ZONE_HEADER), Divisor(blockSize), BLOCKS_PER_ZONE);
  }

  lemma LessByDivisor(a: nat, b: nat, d: nat)
    requires 0 < d && a + d <= b
    ensures Div(a, d) + 1 <= Div(b, d)
  {
    QuotientReaches(a, d, Div(a, d));
    QuotientReaches(b, d, Div(a, d) + 1);
    assert (Div(a, d) + 1) * d == Div(a, d) * d + d;
  }

  // Block sizes in use with pages of 2^29 bytes: the conversion wraps and the zone has no block.
  lemma HugePageFails()
    ensures TotalSize(TINY_BLOCK_SIZE, 0x2000_0000) >= ZONE_HEADER && SlotsFitInt(TINY_BLOCK_SIZE)
    ensures NumberOfBlocks(TINY_BLOCK_SIZE, 0x2000_0000) == 0
    ensures !RoomForMinimum(TINY_BLOCK_SIZE, 0x2000_0000) && !RoomIsExact(TINY_BLOCK_SIZE, 0x2000_0000)
  {
    assert MinSize(TINY_BLOCK_SIZE) == 8085;
    assert TotalSize(TINY_BLOCK_SIZE, 0x2000_0000) == (536878996 / 0x2000_0000) * 0x2000_0000 == 0x2000_0000;
    assert Dividend(TINY_BLOCK_SIZE, 0x2000_0000) == -576 && Divisor(TINY_BLOCK_SIZE) == 641;
    assert TruncatedDiv(-576, 641) == 0;
  }

  // ---- the geometry of the two zone classes ----

  // Number of blocks and mapped bytes of a zone of each class.
  datatype Geometry = Geometry(tinyBlocks: nat, tinyBytes: nat, smallBlocks: nat, smallBytes: nat) {

    function Blocks(c: ZoneClass): nat { if c.Tiny? then tinyBlocks else smallBlocks }

    function Length(c: ZoneClass): nat { if c.Tiny? then tinyBytes else smallBytes }

    // Offset of the first meta word.
    function DataOffset(c: ZoneClass): nat {
      ZONE_HEADER + (Blocks(c) + 7) / 8 + WORD * Blocks(c)
    }

    // Offset of slot i, written per class so that it stays linear.
    function SlotOffset(c: ZoneClass, i: nat): nat {
      DataOffset(c) + (if c.Tiny? then (WORD + TINY_BLOCK_SIZE) * i else (WORD + SMALL_BLOCK_SIZE) * i)
    }

    ghost predicate Sound() {
      && BLOCKS_PER_ZONE <= tinyBlocks <= MAX_BLOCKS
      && BLOCKS_PER_ZONE <= smallBlocks <= MAX_BLOCKS
      && SlotOffset(Tiny, tinyBlocks) <= tinyBytes
      && SlotOffset(Small, smallBlocks) <= smallBytes
    }
  }

  predicate PageOk(page: nat)
    requires page > 0
  {
    TotalCoversMin(TINY_BLOCK_SIZE, page);
    TotalCoversMin(SMALL_BLOCK_SIZE, page);
    RoomForMinimum(TINY_BLOCK_SIZE, page) && RoomForMinimum(SMALL_BLOCK_SIZE, page)
  }

  // What create_zone computes for both classes; soundness is decided by the test on the page size.
  function GeometryOf(page: nat): (r: (int, nat, int, nat))
    requires page > 0
    ensures PageOk(page) <==> r.0 >= 0 && r.2 >= 0 && Geometry(r.0, r.1, r.2, r.3).Sound()
  {
    ZoneIsGoodExactly(TINY_BLOCK_SIZE, page);
    ZoneIsGoodExactly(SMALL_BLOCK_SIZE, page);
    (NumberOfBlocks(TINY_BLOCK_SIZE, page), TotalSize(TINY_BLOCK_SIZE, page),
     NumberOfBlocks(SMALL_BLOCK_SIZE, page), TotalSize(SMALL_BLOCK_SIZE, page))
  }

  // Every page size up to 255 MiB passes the test, and with room that no conversion changes.
  lemma OrdinaryPagesPass(page: nat)
    requires 0 < page <= 0xFF0_0000
    ensures PageOk(page)
    ensures TotalSize(TINY_BLOCK_SIZE, page) >= ZONE_HEADER && RoomIsExact(TINY_BLOCK_SIZE, page)
    ensures TotalSize(SMALL_BLOCK_SIZE, page) >= ZONE_HEADER && RoomIsExact(SMALL_BLOCK_SIZE, page)
  {
    OrdinaryPagePasses(TINY_BLOCK_SIZE, page);
    OrdinaryPagePasses(SMALL_BLOCK_SIZE, page);
  }

  lemma OrdinaryPagePasses(blockSize: nat, page: nat)
    requires 0 < page <= 0xFF0_0000 && blockSize <= SMALL_BLOCK_SIZE
    ensures TotalSize(blockSize, page) >= ZONE_HEADER && RoomForMinimum(blockSize, page) && RoomIsExact(blockSize, page)
  {
    RoundedUp(MinSize(blockSize), page);
    ToIntAtMost(8 * (TotalSize(blockSize, page) - ZONE_HEADER));
    ToIntAtMost(8 * PerBlock(blockSize) + 1);
  }
}
