/** ft_split: one loop counts the words, another cuts them out and stores them in an array of that
    many cells and one for the end mark. */
module Split {
  import opened Sequences
  import opened CStrings

  // s[a..b] is a longest stretch without the separator.
  ghost predicate MaximalRun(s: string, c: char, a: nat, b: nat) {
    && a < b <= |s|
    && (forall k :: a <= k < b ==> s[k] != c)
    && (a == 0 || s[a - 1] == c)
    && (b == |s| || s[b] == c)
  }

  // Position after the word that starts at or before i.
  function WordEnd(s: string, c: char, i: nat): (j: nat)
    requires i <= |s|
    ensures i <= j <= |s|
    ensures forall k :: i <= k < j ==> s[k] != c
    ensures j == |s| || s[j] == c
    decreases |s| - i
  {
    if i < |s| && s[i] != c then WordEnd(s, c, i + 1) else i
  }

  // The words from position i on, as pairs of bounds.
  function Runs(s: string, c: char, i: nat): (r: seq<(nat, nat)>)
    requires i <= |s|
    ensures forall k :: 0 <= k < |r| ==> i <= r[k].0 < r[k].1 <= |s|
    decreases |s| - i
  {
    if i == |s| then []
    else if s[i] == c then Runs(s, c, i + 1)
    else [(i, WordEnd(s, c, i))] + Runs(s, c, WordEnd(s, c, i + 1))
  }

  // A run that starts inside another is the same run.
  lemma RunFromStart(s: string, c: char, i: nat, e: nat, a: nat, b: nat)
    requires MaximalRun(s, c, i, e) && MaximalRun(s, c, a, b) && a >= i
    ensures (a, b) == (i, e) || a >= e
  {}

  // The bounds are exactly those of the maximal runs, in order and each once.
  lemma {:induction false} RunsAreMaximal(s: string, c: char, i: nat)
    requires i <= |s| && (i == 0 || i == |s| || s[i - 1] == c || s[i] == c)
    ensures forall a: nat, b: nat :: (a, b) in Runs(s, c, i) <==> MaximalRun(s, c, a, b) && a >= i
    ensures forall j, k :: 0 <= j < k < |Runs(s, c, i)| ==> Runs(s, c, i)[j].1 < Runs(s, c, i)[k].0
    decreases |s| - i
  {
    if i < |s| {
      if s[i] == c {
        RunsAreMaximal(s, c, i + 1);
      } else {
        var e := WordEnd(s, c, i);
        assert e == WordEnd(s, c, i + 1);
        RunsAreMaximal(s, c, e);
        var rest := Runs(s, c, e);
        assert MaximalRun(s, c, i, e);
        forall a: nat, b: nat | MaximalRun(s, c, a, b) && a >= i
          ensures (a, b) == (i, e) || a >= e
        {
          RunFromStart(s, c, i, e, a, b);
        }
        forall k | 0 <= k < |rest|
          ensures e < rest[k].0
        {
          assert rest[k] in rest;
          assert MaximalRun(s, c, rest[k].0, rest[k].1);
        }
      }
    }
  }

  lemma RunsStep(s: string, c: char, i: nat)
    requires i <= |s|
    ensures i == |s| ==> Runs(s, c, i) == []
    ensures i < |s| && s[i] == c ==> Runs(s, c, i) == Runs(s, c, i + 1)
    ensures i < |s| && s[i] != c ==> Runs(s, c, i) == [(i, WordEnd(s, c, i))] + Runs(s, c, WordEnd(s, c, i))
  {}

  lemma WordEndStep(s: string, c: char, i: nat)
    requires i <= |s|
    ensures WordEnd(s, c, i) == if i < |s| && s[i] != c then WordEnd(s, c, i + 1) else i
  {}

  // ft_countchr
  method CountWords(s: string, c: char) returns (n: nat)
    requires '\0' !in s
    ensures n == |Runs(s, c, 0)|
  {
    hide Runs, WordEnd;
    var i := 0;
    n := 0;
    RunsStep(s, c, |s|);
    while At(s, i) != '\0'
      invariant 0 <= i <= |s| && n + |Runs(s, c, i)| == |Runs(s, c, 0)|
      decreases |s| - i
    {
      ghost var start := i;
      while At(s, i) == c
        invariant start <= i <= |s| && Runs(s, c, i) == Runs(s, c, start)
        invariant i < |s| || c != '\0'
        decreases |s| - i
      {
        RunsStep(s, c, i);
        i := i + 1;
      }
      if At(s, i) != '\0' {
        n := n + 1;
      }
      RunsStep(s, c, i);
      ghost var word := i;
      while At(s, i) != c && At(s, i) != '\0'
        invariant word <= i <= |s| && WordEnd(s, c, i) == WordEnd(s, c, word)
        decreases |s| - i
      {
        WordEndStep(s, c, i);
        i := i + 1;
      }
      WordEndStep(s, c, i);
    }
  }

  // ft_strlcpy
  method Strlcpy(dst: array<char>, src: string, dstsize: nat) returns (r: nat)
    requires '\0' !in src && dstsize <= dst.Length
    modifies dst
    ensures r == |src|
    ensures dstsize == 0 ==> dst[..] == old(dst[..])
    ensures dstsize > 0 ==>
              var n := if |src| < dstsize then |src| else dstsize - 1;
              dst[..] == src[..n] + ['\0'] + old(dst[..])[n + 1..]
  {
    var i := 0;
    if dstsize == 0 {
      while At(src, i) != '\0'
        invariant 0 <= i <= |src|
        decreases |src| - i
      {
        i := i + 1;
      }
      return i;
    }
    while i < dstsize - 1 && At(src, i) != '\0'
      invariant 0 <= i <= |src| && i < dstsize
      invariant forall k :: 0 <= k < dst.Length ==> dst[k] == if k < i then src[k] else old(dst[k])
    {
      dst[i] := src[i];
      i := i + 1;
    }
    ghost var n := i;
    if i < dstsize {
      dst[i] := '\0';
    }
    assert dst[..] == src[..n] + ['\0'] + old(dst[..])[n + 1..];
    while At(src, i) != '\0'
      invariant n <= i <= |src|
      decreases |src| - i
    {
      i := i + 1;
    }
    return i;
  }

  // ft_substr of a C string or NULL, with the answer malloc will give; overrun says that the string
  // would be measured from beyond its end, which happens for every start past it although the code
  // has a case for that.
  method Substr(s: Option<string>, start: nat, len: nat, granted: bool) returns (overrun: bool, p: array?<char>)
    requires s.Some? ==> '\0' !in s.value
    ensures overrun <==> s.Some? && start > |s.value|
    ensures !overrun ==> (p == null <==> s.None? || !granted)
    ensures p != null ==>
              !overrun && fresh(p)
              && p[..] == s.value[start..if start + len <= |s.value| then start + len else |s.value|] + ['\0']
  {
    p := null;
    if s.None? {
      return false, p;
    }
    var n := len;
    if |s.value| < start {
      return true, p;
    }
    if |s.value| - start < n {
      n := |s.value| - start;
    }
    if !granted {
      return false, p;
    }
    p := new char[n + 1];
    var r := Strlcpy(p, s.value[start..], n + 1);
    return false, p;
  }

  lemma SliceOfTail(s: string, a: nat, b: nat)
    requires a <= b <= |s|
    ensures s[a..][0..b - a] == s[a..b]
  {}

  // The cell of one word: NULL when its memory was refused, or the word and a NUL.
  ghost predicate Holds(cell: array?<char>, word: string, granted: bool)
    reads cell
  {
    if granted then cell != null && cell[..] == word + ['\0'] else cell == null
  }

  // ft_split; grants says which of its allocations succeed, the array first and then word by word.
  // The words in order, then the end mark; every store is inside the array.
  method SplitWords(s: Option<string>, c: char, grants: nat -> bool) returns (ret: array?<array?<char>>)
    requires s.Some? ==> '\0' !in s.value
    ensures ret == null <==> s.None? || !grants(0)
    ensures ret != null ==>
              var runs := Runs(s.value, c, 0);
              && ret.Length == |runs| + 1 && ret[|runs|] == null
              && forall k :: 0 <= k < |runs| ==> Holds(ret[k], s.value[runs[k].0..runs[k].1], grants(k + 1))
  {
    hide Runs, WordEnd;
    if s.None? {
      return null;
    }
    var text := s.value;
    var count := CountWords(text, c);
    if !grants(0) {
      return null;
    }
    var cells := new array?<char>[count + 1](_ => null);
    ghost var runs := Runs(text, c, 0);
    var i, p := 0, 0;
    while At(text, p) != '\0'
      invariant 0 <= p <= |text| && 0 <= i <= count && Runs(text, c, p) == runs[i..]
      invariant forall k :: 0 <= k < i ==> cells[k] as object? != cells
      invariant forall k :: 0 <= k < i ==> Holds(cells[k], text[runs[k].0..runs[k].1], grants(k + 1))
      decreases |text| - p
    {
      RunsStep(text, c, p);
      if At(text, p) != c {
        var len := 0;
        ghost var start := p;
        while At(text, p) != '\0' && At(text, p) != c
          invariant p == start + len <= |text| && WordEnd(text, c, p) == WordEnd(text, c, start)
          modifies {}
          decreases |text| - p
        {
          WordEndStep(text, c, p);
          len := len + 1;
          p := p + 1;
        }
        WordEndStep(text, c, p);
        var overrun, word := Substr(Some(text[p - len..]), 0, len, grants(i + 1));
        SliceOfTail(text, start, p);
        assert Holds(word, text[start..p], grants(i + 1));
        assert runs[i] == runs[i..][0] == (start, p) && runs[i + 1..] == runs[i..][1..];
        cells[i] := word;
        i := i + 1;
      } else {
        p := p + 1;
      }
    }
    RunsStep(text, c, p);
    cells[i] := null;
    return cells;
  }
}
