/** The large blocks: a list of cached ones, a list of those in use, and the size stored in each
    block header. */
module Blocks {
  import opened Sequences
  import opened Layout

  datatype Store = Store(free: seq<nat>, full: seq<nat>, sizes: map<nat, nat>)

  const EMPTY_STORE := Store([], [], map[])

  // The first cached block that is big enough, in list order.
  function FirstFit(free: seq<nat>, sizes: map<nat, nat>, size: nat): (r: Option<nat>)
    requires forall b :: b in free ==> b in sizes
    ensures r.None? <==> forall b :: b in free ==> sizes[b] < size
    ensures r.Some? ==>
              exists i :: 0 <= i < |free| && free[i] == r.value && sizes[free[i]] >= size
                          && forall j :: 0 <= j < i ==> sizes[free[j]] < size
  {
    if free == [] then None
    else if sizes[free[0]] >= size then Some(free[0])
    else
      assert forall b :: b in free[1..] ==> b in free;
      var r := FirstFit(free[1..], sizes, size);
      assert r.Some? ==> exists i :: 0 <= i < |free| && free[i] == r.value && sizes[free[i]] >= size
                                     && forall j :: 0 <= j < i ==> sizes[free[j]] < size by {
        if r.Some? {
          var i :| 0 <= i < |free[1..]| && free[1..][i] == r.value && sizes[free[1..][i]] >= size
                   && forall j :: 0 <= j < i ==> sizes[free[1..][j]] < size;
          assert free[i + 1] == r.value;
          assert forall j :: 1 <= j < i + 1 ==> free[j] == free[1..][j - 1];
        }
      }
      r
  }

  // The lists partition the mapped blocks, and only blocks in the cacheable range are cached.
  ghost predicate Valid(s: Store) {
    && NoDup(s.free) && NoDup(s.full) && Disjoint(s.free, s.full)
    && (forall b :: b in s.sizes <==> b in s.free || b in s.full)
    && (forall b :: b in s.sizes ==> s.sizes[b] > SMALL_BLOCK_SIZE)
    && (forall b :: b in s.free ==> s.sizes[b] <= CACHE_LIMIT)
  }

  lemma FreeHaveSizes(s: Store)
    requires Valid(s)
    ensures forall b :: b in s.free ==> b in s.sizes
  {}

  function DetachFree(s: Store, b: nat): Store { s.(free := Remove(s.free, b)) }
  function DetachFull(s: Store, b: nat): Store { s.(full := Remove(s.full, b)) }
  function AppendFree(s: Store, b: nat): Store { s.(free := s.free + [b]) }
  function AppendFull(s: Store, b: nat): Store { s.(full := s.full + [b]) }
  function MapBlock(s: Store, b: nat, size: nat): Store { s.(sizes := s.sizes[b := size]) }
  function UnmapBlock(s: Store, b: nat): Store { s.(sizes := s.sizes - {b}) }

  // find_free_large_block; r is what mmap answers if it is asked.
  function Alloc(s: Store, size: nat, r: Option<nat>): (Store, Option<nat>)
    requires Valid(s)
  {
    match FirstFit(s.free, s.sizes, size)
    case Some(b) => (AppendFull(DetachFree(s, b), b), Some(b))
    case None =>
      match r
      case None => (s, None)
      case Some(a) => (AppendFull(MapBlock(s, a, size), a), Some(a))
  }

  // The large part of free; the flag tells whether the block was unmapped.
  function Free(s: Store, b: nat): (Store, bool)
    requires b in s.sizes
  {
    var s1 := DetachFull(s, b);
    if s.sizes[b] > CACHE_LIMIT then (UnmapBlock(s1, b), true) else (AppendFree(s1, b), false)
  }

  lemma AllocKeepsValid(s: Store, size: nat, r: Option<nat>)
    requires Valid(s) && size > SMALL_BLOCK_SIZE
    requires r.Some? ==> r.value !in s.sizes
    ensures Valid(Alloc(s, size, r).0)
  {
    match FirstFit(s.free, s.sizes, size)
    case Some(b) =>
      RemoveKeeps(s.free, b);
      AppendKeeps(s.full, b);
    case None =>
      if r.Some? { AppendKeeps(s.full, r.value); }
  }

  // The block handed out is at least as large as asked and was not in use; a cached block is used
  // whenever one fits, and a request above the cache limit always maps.
  lemma AllocFits(s: Store, size: nat, r: Option<nat>)
    requires Valid(s) && size > SMALL_BLOCK_SIZE
    requires r.Some? ==> r.value !in s.sizes
    ensures var (s', t) := Alloc(s, size, r);
            && (t.None? <==> FirstFit(s.free, s.sizes, size).None? && r.None?)
            && (t.None? ==> s' == s)
            && (t.Some? ==>
                  && t.value !in s.full && s'.full == s.full + [t.value]
                  && t.value in s'.sizes && s'.sizes[t.value] >= size
                  && (forall b :: b in s'.free <==> b in s.free && b != t.value)
                  && (forall b :: b in s.sizes ==> b in s'.sizes && s'.sizes[b] == s.sizes[b])
                  && (t.value in s.free || (t == r && s'.sizes[t.value] == size)))
            && (size > CACHE_LIMIT ==> t == r)
  {
    match FirstFit(s.free, s.sizes, size)
    case Some(b) => RemoveKeeps(s.free, b);
    case None =>
  }

  lemma FreeKeepsValid(s: Store, b: nat)
    requires Valid(s) && b in s.full
    ensures Valid(Free(s, b).0)
  {
    RemoveKeeps(s.full, b);
    AppendKeeps(s.free, b);
  }

  // Only b leaves the blocks in use; it stays mapped, with its size, unless it is above the limit.
  lemma FreeReleases(s: Store, b: nat)
    requires Valid(s) && b in s.full
    ensures var (s', dropped) := Free(s, b);
            && (forall y :: y in s'.full <==> y in s.full && y != b)
            && (dropped <==> s.sizes[b] > CACHE_LIMIT)
            && (b in s'.free <==> !dropped)
            && s'.sizes == (if dropped then s.sizes - {b} else s.sizes)
  {
    RemoveKeeps(s.full, b);
  }

  // Which block is taken and what becomes of the lists: the first cached block that fits leaves the
  // cache, otherwise the mapped one is taken, and either goes to the back of the list in use; a freed
  // block goes to the back of the cache or is dropped.
  lemma ListsMove(s: Store, size: nat, r: Option<nat>, b: nat)
    requires Valid(s)
    ensures var (s', t) := Alloc(s, size, r);
            match FirstFit(s.free, s.sizes, size)
            case Some(c) => t == Some(c) && s'.free == Remove(s.free, c) && s'.full == s.full + [c] && s'.sizes == s.sizes
            case None => t == r && s'.free == s.free && s'.full == if r.Some? then s.full + [r.value] else s.full
    ensures b in s.full ==>
              && Free(s, b).0.full == Remove(s.full, b)
              && Free(s, b).0.free == if s.sizes[b] > 102400 then s.free else s.free + [b]
  {}
}
