/** The abstract value of a linked list: a sequence without repetition. */
module Sequences {

  datatype Option<+T> = None | Some(value: T)

  ghost predicate NoDup<T>(s: seq<T>) {
    forall i, j :: 0 <= i < j < |s| ==> s[i] != s[j]
  }

  ghost predicate Disjoint<T>(s: seq<T>, t: seq<T>) {
    forall x :: x in s ==> x !in t
  }

  // The sequence without the first occurrence of x.
  function Remove<T(==)>(s: seq<T>, x: T): (r: seq<T>) {
    if s == [] then []
    else if s[0] == x then s[1..]
    else [s[0]] + Remove(s[1..], x)
  }

  lemma {:induction false} RemoveAt<T>(s: seq<T>, i: nat)
    requires i < |s| && NoDup(s)
    ensures Remove(s, s[i]) == s[..i] + s[i + 1..]
  {
    if i > 0 {
      RemoveAt(s[1..], i - 1);
      assert s[1..][..i - 1] == s[1..i];
      assert s[..i] == [s[0]] + s[1..i];
    }
  }

  // Removing keeps the order of the rest, and exactly x goes.
  lemma RemoveKeeps<T>(s: seq<T>, x: T)
    requires NoDup(s) && x in s
    ensures NoDup(Remove(s, x)) && |Remove(s, x)| == |s| - 1
    ensures forall y :: y in Remove(s, x) <==> y in s && y != x
  {
    var i :| 0 <= i < |s| && s[i] == x;
    RemoveAt(s, i);
    forall y | y in s && y != x
      ensures y in Remove(s, x)
    {
      var j :| 0 <= j < |s| && s[j] == y;
      if j < i { assert (s[..i] + s[i + 1..])[j] == y; } else { assert (s[..i] + s[i + 1..])[j - 1] == y; }
    }
  }

  // The same by position, which also speaks of cells that are references.
  lemma RemoveLeaves<T>(s: seq<T>, x: T)
    requires NoDup(s) && x in s
    ensures NoDup(Remove(s, x))
    ensures forall j :: 0 <= j < |Remove(s, x)| ==> Remove(s, x)[j] in s && Remove(s, x)[j] != x
  {
    var i :| 0 <= i < |s| && s[i] == x;
    RemoveAt(s, i);
  }

  lemma AppendKeeps<T>(s: seq<T>, x: T)
    requires NoDup(s) && x !in s
    ensures NoDup(s + [x])
    ensures forall y :: y in s + [x] <==> y in s || y == x
  {}
}
