/** The prompt cache: a key map over a recency list, bounded in size and, if a time to live is
    set, in age; proved against a list of cells in recency order. */
module PromptCache {
  import opened Common
  import opened LinkedList

  datatype Cell = Cell(key: string, resp: string, expires: int)

  /** What the cache holds, most recently used first, and what it has counted. */
  datatype State = State(cells: seq<Cell>, hits: nat, misses: nat, evictions: nat)

  const EMPTY := State([], 0, 0, 0)

  predicate Holds(cells: seq<Cell>, key: string) {
    exists i | 0 <= i < |cells| :: cells[i].key == key
  }

  function Position(cells: seq<Cell>, key: string): (i: nat)
    requires Holds(cells, key)
    ensures i < |cells| && cells[i].key == key
    ensures forall k | 0 <= k < i :: cells[k].key != key
  {
    if cells[0].key == key then 0
    else
      assert Holds(cells[1..], key) by {
        var k :| 0 <= k < |cells| && cells[k].key == key;
        assert cells[1..][k - 1].key == key;
      }
      1 + Position(cells[1..], key)
  }

  function Without(cells: seq<Cell>, i: nat): seq<Cell>
    requires i < |cells|
  {
    cells[..i] + cells[i + 1..]
  }

  function Expiry(ttl: int, now: int): int {
    if ttl <= 0 then 0 else now + ttl
  }

  predicate Expired(c: Cell, ttl: int, now: int) {
    ttl > 0 && now > c.expires
  }

  function AfterGet(s: State, ttl: int, key: string, now: int): (State, Option<string>) {
    if !Holds(s.cells, key) then (s.(misses := s.misses + 1), None)
    else AfterGetAt(s, ttl, Position(s.cells, key), now)
  }

  function AfterGetAt(s: State, ttl: int, i: nat, now: int): (State, Option<string>)
    requires i < |s.cells|
  {
    var c := s.cells[i];
    if Expired(c, ttl, now) then (s.(cells := Without(s.cells, i), misses := s.misses + 1), None)
    else (s.(cells := [c] + Without(s.cells, i), hits := s.hits + 1), Some(c.resp))
  }

  function AfterPut(s: State, maxSize: nat, ttl: int, key: string, resp: string, now: int): State {
    var c := Cell(key, resp, Expiry(ttl, now));
    if Holds(s.cells, key) then s.(cells := [c] + Without(s.cells, Position(s.cells, key)))
    else
      var cells := [c] + s.cells;
      if |cells| <= maxSize then s.(cells := cells)
      else s.(cells := cells[..maxSize], evictions := s.evictions + (|cells| - maxSize))
  }

  /** The text behind a cache key; SHA-256 is taken to be injective. */
  function HashKey(model: string, body: string): string {
    model + ['\0'] + body
  }

  /** JSON text holds no raw NUL, so two lookups share a key only if they are the same. */
  lemma HashKeySeparates(m1: string, b1: string, m2: string, b2: string)
    requires '\0' !in b1 && '\0' !in b2
    ensures HashKey(m1, b1) == HashKey(m2, b2) <==> m1 == m2 && b1 == b2
  {
    if HashKey(m1, b1) == HashKey(m2, b2) {
      var s := HashKey(m1, b1);
      assert s[|m1|] == '\0' && s[|m2|] == '\0';
      assert forall i | |m1| < i < |s| :: s[i] == b1[i - |m1| - 1];
      assert forall i | |m2| < i < |s| :: s[i] == b2[i - |m2| - 1];
      assert |m1| == |m2|;
      assert m1 == s[..|m1|] && m2 == s[..|m2|];
      assert b1 == s[|m1| + 1..] && b2 == s[|m2| + 1..];
    }
  }

  /** The cells are the values of the elements, one for one. */
  ghost predicate Mirrors(cells: seq<Cell>, nodes: seq<Element>)
    reads set e | e in nodes :: e.value
  {
    && |cells| == |nodes|
    && forall i | 0 <= i < |nodes| ::
         cells[i] == Cell(nodes[i].value.key, nodes[i].value.resp, nodes[i].value.expires)
  }

  /** The map and the list hold exactly the same elements, under distinct keys. */
  ghost predicate InStep(entries: map<string, Element>, nodes: seq<Element>) {
    && (forall e | e in nodes :: e.value.key in entries && entries[e.value.key] == e)
    && (forall k | k in entries :: entries[k] in nodes && entries[k].value.key == k)
  }

  lemma InStepRemove(entries: map<string, Element>, nodes: seq<Element>, i: nat)
    requires InStep(entries, nodes) && Distinct(nodes) && i < |nodes|
    ensures InStep(entries - {nodes[i].value.key}, nodes[..i] + nodes[i + 1..])
  {
    DistinctWithout(nodes, i);
  }

  lemma InStepAdd(entries: map<string, Element>, nodes: seq<Element>, e: Element)
    requires InStep(entries, nodes) && e.value.key !in entries
    ensures InStep(entries[e.value.key := e], [e] + nodes)
  {
  }

  lemma MirrorsAdd(cells: seq<Cell>, nodes: seq<Element>, e: Element)
    requires Mirrors(cells, nodes)
    ensures Mirrors([Cell(e.value.key, e.value.resp, e.value.expires)] + cells, [e] + nodes)
  {
  }

  lemma InStepTouch(entries: map<string, Element>, nodes: seq<Element>, i: nat)
    requires InStep(entries, nodes) && Distinct(nodes) && i < |nodes|
    ensures InStep(entries, [nodes[i]] + (nodes[..i] + nodes[i + 1..]))
  {
    DistinctWithout(nodes, i);
  }

  lemma MirrorsWithout(cells: seq<Cell>, nodes: seq<Element>, i: nat)
    requires Mirrors(cells, nodes) && i < |nodes|
    ensures Mirrors(Without(cells, i), nodes[..i] + nodes[i + 1..])
    ensures Mirrors([cells[i]] + Without(cells, i), [nodes[i]] + (nodes[..i] + nodes[i + 1..]))
  {
  }

  /** A held element's key is found at its own position. */
  lemma FoundAt(entries: map<string, Element>, nodes: seq<Element>, cells: seq<Cell>, i: nat)
    requires InStep(entries, nodes) && Distinct(nodes) && Mirrors(cells, nodes) && i < |nodes|
    ensures Holds(cells, nodes[i].value.key) && Position(cells, nodes[i].value.key) == i
  {
    assert cells[i].key == nodes[i].value.key;
    var p := Position(cells, nodes[i].value.key);
    assert nodes[p] in nodes && nodes[p] == entries[nodes[i].value.key] == nodes[i];
  }

  /** A key is held by the list exactly if the map knows it. */
  lemma MapKnows(entries: map<string, Element>, nodes: seq<Element>, cells: seq<Cell>, key: string)
    requires InStep(entries, nodes) && Mirrors(cells, nodes)
    ensures Holds(cells, key) <==> key in entries
  {
    if Holds(cells, key) {
      assert nodes[Position(cells, key)] in nodes;
    }
    if key in entries {
      var i :| 0 <= i < |nodes| && nodes[i] == entries[key];
      assert cells[i].key == key;
    }
  }

  class Prompt {
    const maxSize: nat
    const ttl: int
    var entries: map<string, Element>
    const order: List
    var hits: nat
    var misses: nat
    var evictions: nat
    ghost var cells: seq<Cell>

    ghost function Values(): set<object>
      reads order
    {
      set e | e in order.nodes :: e.value
    }

    /** Everything but the size bound, which an insertion may break for a moment. */
    ghost predicate Sound()
      reads this`entries, this`cells, order, order.root, order.nodes, Values()
    {
      order.Valid() && InStep(entries, order.nodes) && Mirrors(cells, order.nodes) && 0 < maxSize
    }

    ghost predicate Valid()
      reads this`entries, this`cells, order, order.root, order.nodes, Values()
    {
      Sound() && |cells| <= maxSize
    }

    ghost function Abs(): State
      reads this
    {
      State(cells, hits, misses, evictions)
    }

    constructor (maxSize: int, ttl: int)
      ensures Valid() && Abs() == EMPTY && fresh(order) && fresh(order.root)
      ensures this.maxSize == (if maxSize <= 0 then 256 else maxSize) && this.ttl == ttl
    {
      this.maxSize := if maxSize <= 0 then 256 else maxSize;
      this.ttl := ttl;
      entries := map[];
      order := new List();
      hits, misses, evictions, cells := 0, 0, 0, [];
    }

    lemma NodesDistinct()
      requires order.Valid()
      ensures Distinct(order.nodes)
    {
      forall i, j | 0 <= i < j < |order.nodes| ensures order.nodes[i] != order.nodes[j] {
        assert order.Ring()[i + 1] != order.Ring()[j + 1];
      }
    }

    /** Map and cells without the element at position i match the list without it. */
    lemma WithoutOne(i: nat)
      requires Sound() && i < |order.nodes|
      ensures var nodes := order.nodes[..i] + order.nodes[i + 1..];
              InStep(entries - {order.nodes[i].value.key}, nodes) && Mirrors(Without(cells, i), nodes)
    {
      NodesDistinct();
      InStepRemove(entries, order.nodes, i);
      MirrorsWithout(cells, order.nodes, i);
    }

    method RemoveLocked(e: Element, ghost i: nat)
      requires Sound() && i < |order.nodes| && order.nodes[i] == e
      modifies this`entries, this`cells, order, order.root, order.nodes
      ensures Sound() && cells == Without(old(cells), i)
      ensures order.nodes == old(order.nodes)[..i] + old(order.nodes)[i + 1..]
    {
      WithoutOne(i);
      entries := entries - {e.value.key};
      cells := Without(cells, i);
      order.Unlink(e, i);
    }

    method Touch(e: Element, ghost i: nat)
      requires Sound() && i < |order.nodes| && order.nodes[i] == e
      modifies this`cells, order, order.root, order.nodes
      ensures Sound() && cells == [old(cells)[i]] + Without(old(cells), i)
      ensures order.nodes == [e] + (old(order.nodes)[..i] + old(order.nodes)[i + 1..])
    {
      NodesDistinct();
      InStepTouch(entries, order.nodes, i);
      MirrorsWithout(cells, order.nodes, i);
      cells := [cells[i]] + Without(cells, i);
      order.MoveToFront(e, i);
    }

    method Get(model: string, body: string, now: int) returns (r: Option<string>)
      requires Valid()
      modifies this, order, order.root, order.nodes
      ensures Valid()
      ensures (Abs(), r) == AfterGet(old(Abs()), ttl, HashKey(model, body), now)
      ensures r.Some? <==>
              var key := HashKey(model, body);
              key in old(entries) && (ttl > 0 ==> now <= old(entries[key].value.expires))
      ensures forall e | e in order.nodes :: e in old(order.nodes)
    {
      var key := HashKey(model, body);
      MapKnows(entries, order.nodes, cells, key);
      if key !in entries {
        misses := misses + 1;
        return None;
      }
      ghost var i := Locate(entries[key]);
      r := GetHeld(entries[key], i, now);
    }

    /** Where a held element stands, and that its key is found there. */
    lemma Locate(el: Element) returns (i: nat)
      requires Sound() && el in order.nodes
      ensures i < |cells| && order.nodes[i] == el
      ensures Holds(cells, el.value.key) && Position(cells, el.value.key) == i
    {
      i :| i < |order.nodes| && order.nodes[i] == el;
      NodesDistinct();
      FoundAt(entries, order.nodes, cells, i);
    }

    /** Get on a key that is held: a miss if it is too old, else a hit and to the front. */
    method GetHeld(el: Element, ghost i: nat, now: int) returns (r: Option<string>)
      requires Valid() && i < |cells| && order.nodes[i] == el
      modifies this, order, order.root, order.nodes
      ensures Valid()
      ensures Abs() == AfterGetAt(old(Abs()), ttl, i, now).0 && r == AfterGetAt(old(Abs()), ttl, i, now).1
      ensures r == if ttl > 0 && now > old(el.value.expires) then None else Some(old(el.value.resp))
      ensures forall e | e in order.nodes :: e in old(order.nodes)
    {
      assert cells[i] == Cell(el.value.key, el.value.resp, el.value.expires);
      var e := el.value;
      if ttl > 0 && now > e.expires {
        RemoveLocked(el, i);
        misses := misses + 1;
        return None;
      }
      r := Some(e.resp);
      Touch(el, i);
      hits := hits + 1;
    }

    method Put(model: string, body: string, resp: Option<string>, now: int)
      requires Valid()
      modifies this, order, order.root, order.nodes, Values()
      ensures Valid()
      ensures Abs() == if resp.None? then old(Abs())
                       else AfterPut(old(Abs()), maxSize, ttl, HashKey(model, body), resp.value, now)
    {
      if resp.None? {
        return;
      }
      var key := HashKey(model, body);
      MapKnows(entries, order.nodes, cells, key);
      if key in entries {
        ghost var i := Locate(entries[key]);
        Refresh(entries[key], i, resp.value, Expiry(ttl, now));
      } else {
        Insert(key, resp.value, Expiry(ttl, now));
      }
    }

    /** Put on a key that is held: new response and expiry, and to the front. */
    method Refresh(el: Element, ghost i: nat, resp: string, expires: int)
      requires Valid() && i < |cells| && order.nodes[i] == el
      modifies this`cells, order, order.root, order.nodes, el.value
      ensures Valid() && cells == [Cell(el.value.key, resp, expires)] + Without(old(cells), i)
    {
      NodesDistinct();
      UpdateMirrored(i);
      el.value.resp := resp;
      el.value.expires := expires;
      cells := cells[i := Cell(el.value.key, resp, expires)];
      assert Without(cells, i) == Without(old(cells), i);
      Touch(el, i);
    }

    /** No other element shares the value of the one at position i. */
    lemma UpdateMirrored(i: nat)
      requires Sound() && Distinct(order.nodes) && i < |order.nodes|
      ensures forall k | 0 <= k < |order.nodes| && k != i :: order.nodes[k].value != order.nodes[i].value
    {
      assert forall k | 0 <= k < |order.nodes| :: order.nodes[k] in order.nodes;
    }

    /** Put on a new key: to the front, then evict from the back. */
    method Insert(key: string, resp: string, expires: int)
      requires Valid() && key !in entries
      modifies this, order, order.root, order.nodes
      ensures Valid() && hits == old(hits) && misses == old(misses)
      ensures var all := [Cell(key, resp, expires)] + old(cells);
              && cells == (if |all| <= maxSize then all else all[..maxSize])
              && evictions == old(evictions) + if |all| <= maxSize then 0 else |all| - maxSize
    {
      var el := PushNew(key, resp, expires);
      EvictOverflow();
    }

    method PushNew(key: string, resp: string, expires: int) returns (el: Element)
      requires Sound() && key !in entries
      modifies this`entries, this`cells, order, order.root, order.nodes
      ensures Sound() && cells == [Cell(key, resp, expires)] + old(cells)
      ensures fresh(el) && order.nodes == [el] + old(order.nodes)
    {
      var e := new Entry(key, resp, expires);
      el := order.PushFront(e);
      InStepAdd(entries, order.nodes[1..], el);
      MirrorsAdd(cells, order.nodes[1..], el);
      entries := entries[key := el];
      cells := [Cell(key, resp, expires)] + cells;
    }

    /** One turn of the eviction loop. */
    method EvictBack() returns (ok: bool)
      requires Sound()
      modifies this`entries, this`cells, this`evictions, order, order.root, order.nodes
      ensures Sound() && order.nodes <= old(order.nodes)
      ensures ok <==> old(cells) != []
      ensures ok ==> cells == old(cells)[..|old(cells)| - 1] && evictions == old(evictions) + 1
      ensures !ok ==> cells == old(cells) && evictions == old(evictions)
    {
      var back := order.Back();
      if back == null {
        return false;
      }
      RemoveLocked(back, |order.nodes| - 1);
      evictions := evictions + 1;
      return true;
    }

    method EvictOverflow()
      requires Sound()
      modifies this`entries, this`cells, this`evictions, order, order.root, order.nodes
      ensures Valid()
      ensures cells == (if |old(cells)| <= maxSize then old(cells) else old(cells)[..maxSize])
      ensures evictions == old(evictions) + if |old(cells)| <= maxSize then 0 else |old(cells)| - maxSize
    {
      ghost var all, nodes, ev := cells, order.nodes, evictions;
      while order.len > maxSize
        invariant Sound() && order.nodes <= nodes
        invariant cells <= all && evictions == ev + (|all| - |cells|)
        invariant maxSize <= |cells| || cells == all
        decreases |cells|
      {
        var ok := EvictBack();
        if !ok {
          break;
        }
      }
    }

    /** Size and counters as the statistics endpoint reports them. */
    method Stats() returns (size: nat, h: nat, m: nat, ev: nat)
      requires Valid()
      ensures size == |Abs().cells| && h == Abs().hits && m == Abs().misses && ev == Abs().evictions
    {
      return order.len, hits, misses, evictions;
    }
  }
}
