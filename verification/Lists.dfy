/** Doubly linked lists with a head cell.  The repository has the same code twice, for zones and for
    large blocks; here the cells are generic. */
module Lists {
  import opened Sequences

  // A structure at an address, with its two links.
  class Node<T> {
    const address: nat
    const item: T
    var next: Node?<T>
    var prev: Node?<T>

    constructor (address: nat, item: T)
      ensures this.address == address && this.item == item && next == null && prev == null
    {
      this.address, this.item := address, item;
      next, prev := null, null;
    }
  }

  // The cells before and after position i.
  ghost function After<T>(s: seq<Node<T>>, i: nat): Node?<T> {
    if i + 1 < |s| then s[i + 1] else null
  }

  ghost function Before<T>(s: seq<Node<T>>, i: nat): Node?<T> {
    if 0 < i <= |s| then s[i - 1] else null
  }

  // Every link agrees with the sequence.
  ghost predicate Linked<T>(s: seq<Node<T>>)
    reads s
  {
    forall i :: 0 <= i < |s| ==> s[i].next == After(s, i) && s[i].prev == Before(s, i)
  }

  lemma AfterRemoval<T>(s: seq<Node<T>>, i: nat, j: nat)
    requires i < |s| && j < |s| && j != i
    ensures var r := s[..i] + s[i + 1..];
            var j' := if j < i then j else j - 1;
            && r[j'] == s[j]
            && After(r, j') == (if j + 1 == i then After(s, i) else After(s, j))
            && Before(r, j') == (if j == i + 1 then Before(s, i) else Before(s, j))
  {}

  lemma AfterAppend<T>(s: seq<Node<T>>, n: Node<T>, j: nat)
    requires s != [] && j <= |s|
    ensures After(s + [n], j) == (if j + 1 == |s| then n else if j == |s| then null else After(s, j))
    ensures Before(s + [n], j) == (if j == |s| then s[|s| - 1] else Before(s, j))
  {}

  lemma Around<T>(s: seq<Node<T>>, i: nat)
    requires Linked(s) && NoDup(s) && i < |s|
    ensures s[i].next == (if i + 1 < |s| then s[i + 1] else null)
    ensures s[i].prev == (if 0 < i then s[i - 1] else null)
    ensures forall j :: 0 <= j < |s| && j != i ==> s[j] != s[i]
    ensures forall j :: 0 <= j < |s| && j != i - 1 ==> s[j] != s[i].prev
    ensures forall j :: 0 <= j < |s| && j != i + 1 ==> s[j] != s[i].next
  {}

  lemma Without<T>(s: seq<Node<T>>, i: nat)
    requires NoDup(s) && i < |s|
    ensures var r := s[..i] + s[i + 1..];
            && r == Remove(s, s[i]) && NoDup(r)
            && (r != [] ==> r[0] == if i == 0 then s[1] else s[0])
  {
    RemoveAt(s, i);
  }

  lemma Distinct<T>(s: seq<Node<T>>, i: nat)
    requires NoDup(s) && i < |s|
    ensures forall j :: 0 <= j < |s| && j != i ==> s[j] != s[i]
  {}

  // The abstract value of a list is the sequence of its cells, in order.
  class List<T> {
    var head: Node?<T>
    ghost var nodes: seq<Node<T>>

    ghost function Cells(): set<Node<T>>
      reads this
    {
      set n | n in nodes
    }

    ghost predicate Valid()
      reads this, Cells()
    {
      && NoDup(nodes)
      && (if nodes == [] then head == null else head == nodes[0])
      && Linked(nodes)
    }

    constructor ()
      ensures Valid() && nodes == []
    {
      head, nodes := null, [];
    }

    // lst_add_back, block_add_back: walks to the tail.
    method AddBack(n: Node<T>)
      requires Valid() && n !in nodes
      modifies this, Cells(), n
      ensures Valid() && nodes == old(nodes) + [n]
    {
      n.next := null;
      if head == null {
        n.prev := null;
        head, nodes := n, [n];
        return;
      }
      var last: Node<T> := head;
      ghost var i := 0;
      while last.next != null
        invariant 0 <= i < |nodes| && last == nodes[i]
        decreases |nodes| - i
      {
        last := last.next;
        i := i + 1;
      }
      ghost var was := nodes;
      AppendKeeps(was, n);
      Distinct(was, i);
      hide NoDup, After, Before;
      last.next := n;
      n.prev := last;
      nodes := was + [n];
      forall k | 0 <= k < |nodes|
        ensures nodes[k].next == After(nodes, k) && nodes[k].prev == Before(nodes, k)
      {
        AfterAppend(was, n, k);
      }
    }

    // lst_detach, block_detach: head, middle, tail or sole element.
    method Detach(n: Node<T>)
      requires Valid() && n in nodes
      modifies this, Cells()
      ensures Valid() && nodes == Remove(old(nodes), n)
      ensures n.next == null && n.prev == null
    {
      hide NoDup, Remove, After, Before;
      ghost var i :| 0 <= i < |nodes| && nodes[i] == n;
      ghost var was, rest := nodes, nodes[..i] + nodes[i + 1..];
      Around(was, i);
      Without(was, i);
      if n.prev != null {
        n.prev.next := n.next;
      } else {
        head := n.next;
      }
      if n.next != null {
        n.next.prev := n.prev;
      }
      n.next, n.prev := null, null;
      nodes := rest;
      forall k | 0 <= k < |rest|
        ensures rest[k].next == After(rest, k) && rest[k].prev == Before(rest, k)
      {
        AfterRemoval(was, i, if k < i then k else k + 1);
      }
    }

    // free looks at the links of an emptied zone to see whether it is alone on its list.
    lemma LinkedIffNotAlone(n: Node<T>)
      requires Valid() && n in nodes
      ensures n.prev != null || n.next != null <==> |nodes| > 1
    {
      var i :| 0 <= i < |nodes| && nodes[i] == n;
    }
  }

  // ---- two lists over the structures that are mapped ----

  function Addresses<T>(s: seq<Node<T>>): (r: seq<nat>)
    ensures |r| == |s|
    ensures forall i :: 0 <= i < |s| ==> r[i] == s[i].address
  {
    seq(|s|, i requires 0 <= i < |s| => s[i].address)
  }

  // Distinct cells have distinct addresses, so detaching the cell removes its address.
  lemma {:induction false} AddressesOfRemove<T>(s: seq<Node<T>>, n: Node<T>)
    requires forall i :: 0 <= i < |s| && s[i].address == n.address ==> s[i] == n
    ensures Addresses(Remove(s, n)) == Remove(Addresses(s), n.address)
  {
    if s != [] {
      assert Addresses(s)[1..] == Addresses(s[1..]);
      if s[0] != n {
        AddressesOfRemove(s[1..], n);
        assert Addresses([s[0]] + Remove(s[1..], n)) == [s[0].address] + Addresses(Remove(s[1..], n));
      }
    }
  }

  // The cells are mapped structures, and their addresses are the given ones.
  ghost predicate Stands<T>(at: map<nat, Node<T>>, addresses: seq<nat>, s: seq<Node<T>>) {
    && (forall i :: 0 <= i < |s| ==> s[i].address in at && at[s[i].address] == s[i])
    && addresses == Addresses(s)
  }

  ghost predicate ListsFit<T>(at: map<nat, Node<T>>, free: seq<nat>, full: seq<nat>, s: seq<Node<T>>, t: seq<Node<T>>) {
    Stands(at, free, s) && Stands(at, full, t) && Disjoint(s, t)
  }

  lemma RemoveStands<T>(at: map<nat, Node<T>>, addresses: seq<nat>, s: seq<Node<T>>, n: Node<T>)
    requires Stands(at, addresses, s) && NoDup(s) && n in s
    ensures Stands(at, Remove(addresses, n.address), Remove(s, n))
    ensures n.address in at && at[n.address] == n
    ensures forall m :: m in Remove(s, n) ==> m in s && m != n && m.address != n.address
  {
    AddressesOfRemove(s, n);
    RemoveLeaves(s, n);
  }

  lemma AppendStands<T>(at: map<nat, Node<T>>, addresses: seq<nat>, s: seq<Node<T>>, n: Node<T>)
    requires Stands(at, addresses, s) && n.address in at && at[n.address] == n
    ensures Stands(at, addresses + [n.address], s + [n])
  {}

  // Moving a cell from one list to the back of the other.
  lemma MoveFits<T>(at: map<nat, Node<T>>, a: seq<nat>, b: seq<nat>, s: seq<Node<T>>, t: seq<Node<T>>, n: Node<T>)
    requires ListsFit(at, a, b, s, t) && NoDup(s) && n in s
    ensures ListsFit(at, Remove(a, n.address), b + [n.address], Remove(s, n), t + [n])
    ensures n !in t && Disjoint(Remove(s, n), t + [n])
  {
    RemoveStands(at, a, s, n);
    AppendStands(at, b, t, n);
  }

  lemma SwapFits<T>(at: map<nat, Node<T>>, a: seq<nat>, b: seq<nat>, s: seq<Node<T>>, t: seq<Node<T>>)
    requires ListsFit(at, a, b, s, t)
    ensures ListsFit(at, b, a, t, s)
  {}

  // A new structure joins the back of the first list.
  lemma AddFits<T>(at: map<nat, Node<T>>, a: seq<nat>, b: seq<nat>, s: seq<Node<T>>, t: seq<Node<T>>, n: Node<T>)
    requires ListsFit(at, a, b, s, t) && n.address !in at
    ensures ListsFit(at[n.address := n], a + [n.address], b, s + [n], t)
    ensures n !in s && n !in t
  {
    assert Stands(at[n.address := n], a, s) && Stands(at[n.address := n], b, t);
    AppendStands(at[n.address := n], a, s, n);
  }

  // A structure of the first list is detached and unmapped.
  lemma DropFits<T>(at: map<nat, Node<T>>, a: seq<nat>, b: seq<nat>, s: seq<Node<T>>, t: seq<Node<T>>, n: Node<T>)
    requires ListsFit(at, a, b, s, t) && NoDup(s) && n in s
    ensures ListsFit(at - {n.address}, Remove(a, n.address), b, Remove(s, n), t)
  {
    RemoveStands(at, a, s, n);
    assert Stands(at - {n.address}, Remove(a, n.address), Remove(s, n));
    assert Stands(at - {n.address}, b, t);
  }
}
