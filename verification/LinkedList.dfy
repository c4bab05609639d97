/** The doubly linked list under the prompt cache: a ring of heap elements through a sentinel,
    as in Go's container/list, with the ghost sequence of elements it stands for. */
module LinkedList {
  import opened Common

  /** The payload of an element: one cached response. */
  class Entry {
    const key: string
    var resp: string
    var expires: int

    constructor (key: string, resp: string, expires: int)
      ensures this.key == key && this.resp == resp && this.expires == expires
    {
      this.key, this.resp, this.expires := key, resp, expires;
    }
  }

  class Element {
    const value: Entry
    var prev: Element?
    var next: Element?

    constructor (value: Entry)
      ensures this.value == value && prev == null && next == null
    {
      this.value := value;
      prev, next := null, null;
    }
  }

  class List {
    const root: Element
    var len: nat
    ghost var nodes: seq<Element>

    ghost function Ring(): seq<Element>
      reads this
    {
      [root] + nodes
    }

    ghost predicate Valid()
      reads this, root, nodes
    {
      && len == |nodes|
      && Distinct(Ring())
      && Linked(Ring())
    }

    static ghost function Nexts(ring: seq<Element>): map<Element, Element?>
      reads ring
    {
      map e | e in ring :: e.next
    }

    static ghost function Prevs(ring: seq<Element>): map<Element, Element?>
      reads ring
    {
      map e | e in ring :: e.prev
    }

    /** Linked, with the links given as maps. */
    static ghost predicate LinkedBy(ring: seq<Element>, nx: map<Element, Element?>, pv: map<Element, Element?>) {
      ForthBy(ring, nx) && BackBy(ring, pv)
    }

    static ghost predicate ForthBy(ring: seq<Element>, nx: map<Element, Element?>) {
      forall i | 0 <= i < |ring| :: ring[i] in nx && nx[ring[i]] == ring[if i + 1 < |ring| then i + 1 else 0]
    }

    static ghost predicate BackBy(ring: seq<Element>, pv: map<Element, Element?>) {
      forall i | 0 <= i < |ring| :: ring[i] in pv && pv[ring[i]] == ring[if i == 0 then |ring| - 1 else i - 1]
    }

    /** A ring with element j bypassed on both sides is linked without it. */
    static lemma Bypass(
        was: seq<Element>, ring: seq<Element>, nx: map<Element, Element?>, pv: map<Element, Element?>, j: nat)
      requires 0 < j < |was| && Distinct(was) && LinkedBy(was, nx, pv)
      requires ring == was[..j] + was[j + 1..]
      ensures var after := if j + 1 < |was| then j + 1 else 0;
              LinkedBy(ring, nx[was[j - 1] := was[after]], pv[was[after] := was[j - 1]])
      ensures Distinct(ring) && forall x | x in ring :: x in was
    {
      BypassForth(was, ring, nx, j);
      BypassBack(was, ring, pv, j);
      DistinctWithout(was, j);
    }

    static lemma BypassForth(was: seq<Element>, ring: seq<Element>, nx: map<Element, Element?>, j: nat)
      requires 0 < j < |was| && Distinct(was) && ForthBy(was, nx)
      requires ring == was[..j] + was[j + 1..]
      ensures ForthBy(ring, nx[was[j - 1] := was[if j + 1 < |was| then j + 1 else 0]])
    {
      assert forall k | 0 <= k < |ring| :: ring[k] == was[if k < j then k else k + 1];
    }

    static lemma BypassBack(was: seq<Element>, ring: seq<Element>, pv: map<Element, Element?>, j: nat)
      requires 0 < j < |was| && Distinct(was) && BackBy(was, pv)
      requires ring == was[..j] + was[j + 1..]
      ensures BackBy(ring, pv[was[if j + 1 < |was| then j + 1 else 0] := was[j - 1]])
    {
      assert forall k | 0 <= k < |ring| :: ring[k] == was[if k < j then k else k + 1];
    }

    static lemma RingWithout(root: Element, nodes: seq<Element>, i: nat, ring: seq<Element>)
      requires i < |nodes|
      requires ring == ([root] + nodes)[..i + 1] + ([root] + nodes)[i + 2..]
      ensures ring == [root] + (nodes[..i] + nodes[i + 1..])
    {
    }

    static ghost predicate Linked(ring: seq<Element>)
      reads ring
    {
      forall i | 0 <= i < |ring| ::
        && ring[i].next == ring[if i + 1 < |ring| then i + 1 else 0]
        && ring[i].prev == ring[if i == 0 then |ring| - 1 else i - 1]
    }

    constructor ()
      ensures Valid() && nodes == [] && fresh(root)
    {
      var none := new Entry("", "", 0);
      var sentinel := new Element(none);
      root, len, nodes := sentinel, 0, [];
      new;
      root.next, root.prev := root, root;
    }

    method Back() returns (e: Element?)
      requires Valid()
      ensures e == if nodes == [] then null else nodes[|nodes| - 1]
    {
      if len == 0 {
        return null;
      }
      assert Ring()[0] == root && Ring()[|nodes|] == nodes[|nodes| - 1];
      return root.prev;
    }

    /** Links a fresh element in right behind the sentinel. */
    method InsertFront(e: Element)
      requires Valid() && e !in Ring()
      modifies this, root, nodes, e
      ensures Valid() && nodes == [e] + old(nodes)
    {
      ghost var was, first := Ring(), root.next;
      assert was[0] == root && first == was[if 1 < |was| then 1 else 0];
      e.prev := root;
      e.next := root.next;
      e.prev.next := e;
      e.next.prev := e;
      len := len + 1;
      nodes := [e] + nodes;
      assert Ring() == [root, e] + was[1..];
      RingWithFront(was, e);
    }

    static lemma RingWithFront(was: seq<Element>, e: Element)
      requires |was| > 0 && Distinct(was) && e !in was
      ensures Distinct([was[0], e] + was[1..])
    {
      var r := [was[0], e] + was[1..];
      forall i, j | 0 <= i < j < |r| ensures r[i] != r[j] {
        assert j >= 2 ==> r[j] == was[j - 1] && was[j - 1] in was;
        assert i >= 2 ==> r[i] == was[i - 1];
        assert was[0] in was;
      }
    }

    static lemma LinksOf(ring: seq<Element>)
      requires Linked(ring)
      ensures LinkedBy(ring, Nexts(ring), Prevs(ring))
    {
    }

    /** Makes p and n neighbours, which links a ring that lacked only that. */
    static method Join(p: Element, n: Element, ghost was: seq<Element>, ghost ring: seq<Element>)
      requires p in was && n in was && forall x | x in ring :: x in was
      requires LinkedBy(ring, Nexts(was)[p := n], Prevs(was)[n := p])
      modifies p, n
      ensures Linked(ring)
    {
      ghost var nx, pv := Nexts(was), Prevs(was);
      p.next := n;
      n.prev := p;
      assert forall x | x in was :: x.next == nx[p := n][x] && x.prev == pv[n := p][x];
      assert forall i | 0 <= i < |ring| :: ring[i] in was;
    }

    /** Unlinks the element at position i. */
    method Unlink(e: Element, ghost i: nat)
      requires Valid() && i < |nodes| && nodes[i] == e
      modifies this, root, nodes
      ensures Valid() && nodes == old(nodes)[..i] + old(nodes)[i + 1..]
    {
      ghost var ring := Bypassed(i);
      Join(e.prev, e.next, Ring(), ring);
      len := len - 1;
      nodes := nodes[..i] + nodes[i + 1..];
    }

    /** The ring without the element at position i, needing only its neighbours joined. */
    lemma Bypassed(i: nat) returns (ring: seq<Element>)
      requires Valid() && i < |nodes|
      ensures ring == [root] + (nodes[..i] + nodes[i + 1..])
      ensures var p, n := nodes[i].prev, nodes[i].next;
              && p == (if i == 0 then root else nodes[i - 1])
              && n == (if i + 1 == |nodes| then root else nodes[i + 1])
              && p in Ring() && n in Ring()
              && LinkedBy(ring, Nexts(Ring())[p := n], Prevs(Ring())[n := p])
      ensures Distinct(ring) && forall x | x in ring :: x in Ring()
    {
      var was, j := Ring(), i + 1;
      ring := was[..j] + was[j + 1..];
      RingWithout(root, nodes, i, ring);
      LinksOf(was);
      Bypass(was, ring, Nexts(was), Prevs(was), j);
      assert was[j] == nodes[i];
      assert nodes[i].prev == was[j - 1] == (if i == 0 then root else nodes[i - 1]);
      assert nodes[i].next == (if i + 1 == |nodes| then was[0] else was[j + 1]);
    }

    method PushFront(value: Entry) returns (e: Element)
      requires Valid()
      modifies this, root, nodes
      ensures Valid() && fresh(e) && e.value == value && nodes == [e] + old(nodes)
    {
      e := new Element(value);
      InsertFront(e);
    }

    method MoveToFront(e: Element, ghost i: nat)
      requires Valid() && i < |nodes| && nodes[i] == e
      modifies this, root, nodes
      ensures Valid() && nodes == [e] + (old(nodes)[..i] + old(nodes)[i + 1..])
    {
      if root.next == e {
        assert Ring()[0] == root && Ring()[1] == nodes[0] && Ring()[i + 1] == e;
        return;
      }
      ghost var was := Ring();
      Unlink(e, i);
      assert e !in Ring() by {
        assert was[i + 1] == e;
        assert Ring() == was[..i + 1] + was[i + 2..];
      }
      InsertFront(e);
    }
  }
}
