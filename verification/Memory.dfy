/** Byte-addressed memory.  The domain of the map is the set of mapped bytes, so an access that
    would fault is one that Dafny cannot prove to be inside the domain. */
module Memory {

  const WORD_BYTES: nat := 8
  const ADDRESS_LIMIT: nat := 0x1_0000_0000_0000_0000

  type byte = x: int | 0 <= x < 256
  type Mem = map<nat, byte>

  ghost predicate Mapped(mem: Mem, at: nat, len: nat) {
    forall a :: at <= a < at + len ==> a in mem
  }

  function Pow256(n: nat): (p: nat)
    ensures p > 0
  {
    if n == 0 then 1 else 256 * Pow256(n - 1)
  }

  // Little-endian load of the bytes [lo, hi).
  function LoadBytes(mem: Mem, lo: nat, hi: nat): nat
    requires lo <= hi && Mapped(mem, lo, hi - lo)
    decreases hi - lo
  {
    if lo == hi then 0 else mem[lo] + 256 * LoadBytes(mem, lo + 1, hi)
  }

  // Little-endian store of w into the bytes [lo, hi).
  function StoreBytes(mem: Mem, lo: nat, hi: nat, w: nat): (mem': Mem)
    requires lo <= hi && Mapped(mem, lo, hi - lo)
    ensures mem'.Keys == mem.Keys
    ensures forall a :: a in mem && !(lo <= a < hi) ==> mem'[a] == mem[a]
    decreases hi - lo
  {
    if lo == hi then mem
    else
      var mem1 := mem[lo := w % 256];
      assert mem1.Keys == mem.Keys;
      StoreBytes(mem1, lo + 1, hi, w / 256)
  }

  function LoadWord(mem: Mem, at: nat): nat
    requires Mapped(mem, at, WORD_BYTES)
  {
    LoadBytes(mem, at, at + WORD_BYTES)
  }

  function StoreWord(mem: Mem, at: nat, w: nat): (mem': Mem)
    requires Mapped(mem, at, WORD_BYTES)
    ensures mem'.Keys == mem.Keys
    ensures forall a :: a in mem && !(at <= a < at + WORD_BYTES) ==> mem'[a] == mem[a]
  {
    StoreBytes(mem, at, at + WORD_BYTES, w)
  }

  lemma {:induction false} LoadAfterStoreBytes(mem: Mem, lo: nat, hi: nat, w: nat)
    requires lo <= hi && Mapped(mem, lo, hi - lo) && w < Pow256(hi - lo)
    ensures LoadBytes(StoreBytes(mem, lo, hi, w), lo, hi) == w
    decreases hi - lo
  {
    if lo < hi {
      var mem1 := mem[lo := w % 256];
      assert mem1.Keys == mem.Keys;
      LoadAfterStoreBytes(mem1, lo + 1, hi, w / 256);
    }
  }

  lemma {:induction false} LoadBytesDependsOn(mem: Mem, mem': Mem, lo: nat, hi: nat)
    requires lo <= hi && Mapped(mem, lo, hi - lo) && Mapped(mem', lo, hi - lo)
    requires forall a :: lo <= a < hi ==> mem[a] == mem'[a]
    ensures LoadBytes(mem, lo, hi) == LoadBytes(mem', lo, hi)
    decreases hi - lo
  {
    if lo < hi {
      LoadBytesDependsOn(mem, mem', lo + 1, hi);
    }
  }

  // A stored word reads back, and only the word itself changed.
  lemma LoadAfterStore(mem: Mem, at: nat, w: nat)
    requires Mapped(mem, at, WORD_BYTES) && w < ADDRESS_LIMIT
    ensures LoadWord(StoreWord(mem, at, w), at) == w
  {
    assert Pow256(8) == ADDRESS_LIMIT;
    LoadAfterStoreBytes(mem, at, at + WORD_BYTES, w);
  }

  lemma LoadDependsOn(mem: Mem, mem': Mem, at: nat)
    requires Mapped(mem, at, WORD_BYTES) && Mapped(mem', at, WORD_BYTES)
    requires forall a :: at <= a < at + WORD_BYTES ==> mem[a] == mem'[a]
    ensures LoadWord(mem, at) == LoadWord(mem', at)
  {
    LoadBytesDependsOn(mem, mem', at, at + WORD_BYTES);
  }

  // An anonymous mapping: zero-filled, every other byte as before.
  function Map(mem: Mem, at: nat, len: nat): (mem': Mem)
    ensures forall a :: a in mem' <==> a in mem || at <= a < at + len
    ensures forall a :: a in mem && !(at <= a < at + len) ==> mem'[a] == mem[a]
    decreases len
  {
    if len == 0 then mem else Map(mem[at := 0], at + 1, len - 1)
  }

  function Unmap(mem: Mem, at: nat, len: nat): (mem': Mem)
    ensures forall a :: a in mem' <==> a in mem && !(at <= a < at + len)
    ensures forall a :: a in mem' ==> mem'[a] == mem[a]
  {
    map a | a in mem && !(at <= a < at + len) :: mem[a]
  }

  ghost predicate BytesKept(mem: Mem, mem': Mem) {
    forall x :: x in mem ==> x in mem' && mem'[x] == mem[x]
  }

  // The bytes [at, at + len) as a sequence.
  function Bytes(mem: Mem, at: nat, len: nat): (s: seq<byte>)
    requires Mapped(mem, at, len)
    ensures |s| == len
    ensures forall i :: 0 <= i < len ==> s[i] == mem[at + i]
  {
    seq(len, i requires 0 <= i < len => mem[at + i])
  }

  // ft_memcpy: the byte loop, after n rounds.
  function CopyBytes(mem: Mem, dst: nat, src: nat, n: nat): (mem': Mem)
    requires Mapped(mem, dst, n) && Mapped(mem, src, n)
    ensures mem'.Keys == mem.Keys
    ensures forall a :: a in mem && !(dst <= a < dst + n) ==> mem'[a] == mem[a]
    decreases n
  {
    if n == 0 then mem
    else
      var mem1 := CopyBytes(mem, dst, src, n - 1);
      mem1[dst + n - 1 := mem1[src + n - 1]]
  }

  // Between ranges that do not overlap the loop is a copy.
  lemma {:induction false} CopyBytesCopies(mem: Mem, dst: nat, src: nat, n: nat)
    requires Mapped(mem, dst, n) && Mapped(mem, src, n)
    requires dst + n <= src || src + n <= dst
    ensures forall a :: dst <= a < dst + n ==> CopyBytes(mem, dst, src, n)[a] == mem[src + (a - dst)]
    decreases n
  {
    if n > 0 {
      CopyBytesCopies(mem, dst, src, n - 1);
    }
  }
}
