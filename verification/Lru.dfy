/** What the prompt cache's steps add up to over whole runs: its books balance, its hits are
    honest, and without a time to live it is exactly least-recently-used. */
module Lru {
  import opened Common
  import opened PromptCache

  function Keys(cells: seq<Cell>): seq<string> {
    seq(|cells|, i requires 0 <= i < |cells| => cells[i].key)
  }

  datatype Op = GetOp(key: string, now: int) | PutOp(key: string, resp: string, now: int)

  function Step(s: State, maxSize: nat, ttl: int, op: Op): State {
    match op
    case GetOp(key, now) => AfterGet(s, ttl, key, now).0
    case PutOp(key, resp, now) => AfterPut(s, maxSize, ttl, key, resp, now)
  }

  function Run(maxSize: nat, ttl: int, ops: seq<Op>): State {
    if ops == [] then EMPTY
    else Step(Run(maxSize, ttl, ops[..|ops| - 1]), maxSize, ttl, ops[|ops| - 1])
  }

  lemma KeysWithout(cells: seq<Cell>, i: nat)
    requires i < |cells|
    ensures Keys(Without(cells, i)) == Keys(cells)[..i] + Keys(cells)[i + 1..]
  {
  }

  lemma HoldsIsKey(cells: seq<Cell>, key: string)
    ensures Holds(cells, key) <==> key in Keys(cells)
  {
    if Holds(cells, key) { assert Keys(cells)[Position(cells, key)] == key; }
    if key in Keys(cells) {
      var i :| 0 <= i < |cells| && Keys(cells)[i] == key;
      assert cells[i].key == key;
    }
  }

  /** Moving or inserting a key at the front keeps keys distinct. */
  lemma FrontDistinct(cells: seq<Cell>, c: Cell)
    requires Distinct(Keys(cells))
    ensures Holds(cells, c.key) ==> Distinct(Keys([c] + Without(cells, Position(cells, c.key))))
    ensures Holds(cells, c.key) ==> Distinct(Keys(Without(cells, Position(cells, c.key))))
    ensures !Holds(cells, c.key) ==> Distinct(Keys([c] + cells))
  {
    HoldsIsKey(cells, c.key);
    if Holds(cells, c.key) {
      var i := Position(cells, c.key);
      KeysWithout(cells, i);
      DistinctWithout(Keys(cells), i);
      DistinctCons(c.key, Keys(Without(cells, i)));
      assert Keys([c] + Without(cells, i)) == [c.key] + Keys(Without(cells, i));
    } else {
      DistinctCons(c.key, Keys(cells));
      assert Keys([c] + cells) == [c.key] + Keys(cells);
    }
  }

  ghost predicate Bounded(s: State, maxSize: nat) {
    Distinct(Keys(s.cells)) && |s.cells| <= maxSize
  }

  lemma StepBounded(s: State, maxSize: nat, ttl: int, op: Op)
    requires Bounded(s, maxSize) && maxSize > 0
    ensures Bounded(Step(s, maxSize, ttl, op), maxSize)
  {
    if Holds(s.cells, op.key) {
      FrontDistinct(s.cells, s.cells[Position(s.cells, op.key)]);
    }
    if op.PutOp? {
      var c := Cell(op.key, op.resp, Expiry(ttl, op.now));
      FrontDistinct(s.cells, c);
      assert Holds(s.cells, op.key) ==> Keys([c] + Without(s.cells, Position(s.cells, op.key)))[0] == op.key;
      assert forall n: nat | n <= |[c] + s.cells| :: Keys(([c] + s.cells)[..n]) == Keys([c] + s.cells)[..n];
    }
  }

  /** Over any run the map's keys stay distinct and the size within its bound. */
  lemma {:induction false} RunBounded(maxSize: nat, ttl: int, ops: seq<Op>)
    requires maxSize > 0
    ensures Bounded(Run(maxSize, ttl, ops), maxSize)
  {
    if ops != [] {
      RunBounded(maxSize, ttl, ops[..|ops| - 1]);
      StepBounded(Run(maxSize, ttl, ops[..|ops| - 1]), maxSize, ttl, ops[|ops| - 1]);
    }
  }

  // ---------------------------------------------------------------------------------
  // The books.

  function Gets(ops: seq<Op>): nat {
    if ops == [] then 0 else Gets(ops[..|ops| - 1]) + if ops[|ops| - 1].GetOp? then 1 else 0
  }

  /** How many operations of a run did what the predicate says of the state they met. */
  function Count(maxSize: nat, ttl: int, ops: seq<Op>, p: (State, Op) -> bool): nat {
    if ops == [] then 0
    else
      var before := ops[..|ops| - 1];
      Count(maxSize, ttl, before, p) + if p(Run(maxSize, ttl, before), ops[|ops| - 1]) then 1 else 0
  }

  predicate NewPut(s: State, op: Op) {
    op.PutOp? && !Holds(s.cells, op.key)
  }

  function TimesOut(ttl: int): (State, Op) -> bool {
    (s: State, op: Op) =>
      op.GetOp? && Holds(s.cells, op.key) && Expired(s.cells[Position(s.cells, op.key)], ttl, op.now)
  }

  /** Over any run: every lookup is a hit or a miss, and every entry ever added is still there,
      was evicted, or timed out. */
  lemma {:induction false} BooksBalance(maxSize: nat, ttl: int, ops: seq<Op>)
    requires maxSize > 0
    ensures var s := Run(maxSize, ttl, ops);
            && s.hits + s.misses == Gets(ops)
            && Count(maxSize, ttl, ops, NewPut) == |s.cells| + s.evictions + Count(maxSize, ttl, ops, TimesOut(ttl))
  {
    if ops != [] {
      BooksBalance(maxSize, ttl, ops[..|ops| - 1]);
      RunBounded(maxSize, ttl, ops[..|ops| - 1]);
      StepBalances(Run(maxSize, ttl, ops[..|ops| - 1]), maxSize, ttl, ops[|ops| - 1]);
    }
  }

  /** What one operation adds to the books. */
  lemma StepBalances(s: State, maxSize: nat, ttl: int, op: Op)
    requires maxSize > 0 && Bounded(s, maxSize)
    ensures var s' := Step(s, maxSize, ttl, op);
            && s'.hits + s'.misses == s.hits + s.misses + (if op.GetOp? then 1 else 0)
            && |s'.cells| + s'.evictions + (if TimesOut(ttl)(s, op) then 1 else 0)
               == |s.cells| + s.evictions + (if NewPut(s, op) then 1 else 0)
  {
  }

  // ---------------------------------------------------------------------------------
  // Honest hits.

  /** The j-th operation is the latest Put under this key. */
  ghost predicate LatestPut(ops: seq<Op>, key: string, j: nat) {
    && j < |ops| && ops[j].PutOp? && ops[j].key == key
    && forall k | j < k < |ops| :: !(ops[k].PutOp? && ops[k].key == key)
  }

  ghost predicate Honest(ops: seq<Op>, ttl: int, c: Cell) {
    exists j: nat :: LatestPut(ops, c.key, j) && c.resp == ops[j].resp && c.expires == Expiry(ttl, ops[j].now)
  }

  lemma HonestLater(ops: seq<Op>, op: Op, ttl: int, c: Cell)
    requires Honest(ops, ttl, c) && !(op.PutOp? && op.key == c.key)
    ensures Honest(ops + [op], ttl, c)
  {
    var j: nat :| LatestPut(ops, c.key, j) && c.resp == ops[j].resp && c.expires == Expiry(ttl, ops[j].now);
    assert (ops + [op])[j] == ops[j];
    assert LatestPut(ops + [op], c.key, j);
  }

  lemma {:induction false} CellsHonest(maxSize: nat, ttl: int, ops: seq<Op>)
    requires maxSize > 0
    ensures forall c | c in Run(maxSize, ttl, ops).cells :: Honest(ops, ttl, c)
  {
    if ops != [] {
      var before, op := ops[..|ops| - 1], ops[|ops| - 1];
      var s := Run(maxSize, ttl, before);
      CellsHonest(maxSize, ttl, before);
      RunBounded(maxSize, ttl, before);
      assert ops == before + [op];
      forall c | c in Run(maxSize, ttl, ops).cells ensures Honest(ops, ttl, c) {
        if op.PutOp? && c == Cell(op.key, op.resp, Expiry(ttl, op.now)) {
          assert LatestPut(ops, op.key, |before|);
        } else {
          assert c in s.cells;
          if op.PutOp? && c.key == op.key { StaleIsGone(s, maxSize, ttl, op, c); }
          HonestLater(before, op, ttl, c);
        }
      }
    }
  }

  /** After a Put no cell under its key remains but the new one. */
  lemma StaleIsGone(s: State, maxSize: nat, ttl: int, op: Op, c: Cell)
    requires Bounded(s, maxSize) && maxSize > 0 && op.PutOp?
    requires c in Step(s, maxSize, ttl, op).cells && c.key == op.key
    ensures c == Cell(op.key, op.resp, Expiry(ttl, op.now))
  {
    StepBounded(s, maxSize, ttl, op);
    var cells := Step(s, maxSize, ttl, op).cells;
    var i :| 0 <= i < |cells| && cells[i] == c;
    assert Keys(cells)[i] == Keys(cells)[0];
  }

  /** A hit returns what the latest Put under its key stored, and, if there is a time to live,
      no later than that long after that Put. */
  lemma HitsAreHonest(maxSize: nat, ttl: int, ops: seq<Op>, key: string, now: int)
    requires maxSize > 0
    ensures var r := AfterGet(Run(maxSize, ttl, ops), ttl, key, now).1;
            r.Some? ==>
              exists j: nat :: LatestPut(ops, key, j) && r.value == ops[j].resp && (ttl > 0 ==> now - ops[j].now <= ttl)
  {
    var s := Run(maxSize, ttl, ops);
    CellsHonest(maxSize, ttl, ops);
    if Holds(s.cells, key) {
      var c := s.cells[Position(s.cells, key)];
      assert Honest(ops, ttl, c);
    }
  }

  // ---------------------------------------------------------------------------------
  // Certain hits.

  /** The other keys looked up or stored after the j-th operation. */
  function OthersSince(ops: seq<Op>, key: string, j: nat): set<string> {
    set k | j < k < |ops| && ops[k].key != key :: ops[k].key
  }

  /** The cell is at position p, and every cell in front of it has one of these keys. */
  predicate At(cells: seq<Cell>, p: int, c: Cell, others: set<string>) {
    0 <= p < |cells| && cells[p] == c && forall q | 0 <= q < p :: cells[q].key in others
  }

  ghost predicate Within(cells: seq<Cell>, c: Cell, others: set<string>) {
    exists p :: At(cells, p, c, others)
  }

  lemma FrontFits(cells: seq<Cell>, p: nat, others: set<string>)
    requires Distinct(Keys(cells)) && p <= |cells| && forall q | 0 <= q < p :: cells[q].key in others
    ensures p <= |others|
  {
    var front := set k | k in Keys(cells)[..p];
    DistinctSize(Keys(cells)[..p], front);
    forall k | k in front ensures k in others {
      var q :| 0 <= q < p && Keys(cells)[..p][q] == k;
      assert cells[q].key == k;
    }
    SubsetSize(front, others);
  }

  lemma {:induction false} SubsetSize<T>(a: set<T>, b: set<T>)
    requires a <= b
    ensures |a| <= |b|
  {
    if a != {} {
      var x :| x in a;
      SubsetSize(a - {x}, b - {x});
    }
  }

  lemma FirstIsOnly(cells: seq<Cell>, p: nat)
    requires Distinct(Keys(cells)) && p < |cells|
    ensures Holds(cells, cells[p].key) && Position(cells, cells[p].key) == p
  {
    assert Keys(cells)[Position(cells, cells[p].key)] == Keys(cells)[p];
  }

  lemma WithoutKeeps(cells: seq<Cell>, i: nat, p: nat, c: Cell, others: set<string>)
    requires At(cells, p, c, others) && i < |cells| && i != p
    ensures At(Without(cells, i), if i < p then p - 1 else p, c, others)
  {
  }

  lemma FrontKeeps(cells: seq<Cell>, p: nat, c: Cell, others: set<string>, front: Cell)
    requires At(cells, p, c, others)
    ensures At([front] + cells, p + 1, c, others + {front.key})
  {
  }

  /** A lookup of another key leaves the cell within reach. */
  lemma GetKeepsWithin(s: State, maxSize: nat, ttl: int, op: Op, c: Cell, others: set<string>)
    requires Bounded(s, maxSize) && Within(s.cells, c, others) && op.GetOp? && op.key != c.key
    ensures Within(Step(s, maxSize, ttl, op).cells, c, others + {op.key})
  {
    var p :| At(s.cells, p, c, others);
    var s' := Step(s, maxSize, ttl, op);
    if Holds(s.cells, op.key) {
      var i := Position(s.cells, op.key);
      WithoutKeeps(s.cells, i, p, c, others);
      var p' := if i < p then p - 1 else p;
      if Expired(s.cells[i], ttl, op.now) {
        assert At(s'.cells, p', c, others + {op.key});
      } else {
        FrontKeeps(Without(s.cells, i), p', c, others, s.cells[i]);
        assert At(s'.cells, p' + 1, c, others + {op.key});
      }
    } else {
      assert At(s'.cells, p, c, others + {op.key});
    }
  }

  /** Storing another key does too, while there is room for the keys in front. */
  lemma PutKeepsWithin(s: State, maxSize: nat, ttl: int, op: Op, c: Cell, others: set<string>)
    requires Bounded(s, maxSize) && Within(s.cells, c, others) && op.PutOp? && op.key != c.key
    requires |others + {op.key}| < maxSize
    ensures Within(Step(s, maxSize, ttl, op).cells, c, others + {op.key})
  {
    var p :| At(s.cells, p, c, others);
    var s', front := Step(s, maxSize, ttl, op), Cell(op.key, op.resp, Expiry(ttl, op.now));
    StepBounded(s, maxSize, ttl, op);
    if Holds(s.cells, op.key) {
      var i := Position(s.cells, op.key);
      WithoutKeeps(s.cells, i, p, c, others);
      var p' := if i < p then p - 1 else p;
      FrontKeeps(Without(s.cells, i), p', c, others, front);
      assert At(s'.cells, p' + 1, c, others + {op.key});
    } else {
      FrontKeeps(s.cells, p, c, others, front);
      FrontDistinct(s.cells, front);
      FrontFits([front] + s.cells, p + 1, others + {op.key});
      assert At(s'.cells, p + 1, c, others + {op.key});
    }
  }

  /** A lookup in time brings the cell to the front. */
  lemma OwnGetKeepsWithin(s: State, maxSize: nat, ttl: int, op: Op, c: Cell, others: set<string>)
    requires Bounded(s, maxSize) && Within(s.cells, c, others) && op.GetOp? && op.key == c.key
    requires !Expired(c, ttl, op.now)
    ensures Within(Step(s, maxSize, ttl, op).cells, c, others)
  {
    var p :| At(s.cells, p, c, others);
    FirstIsOnly(s.cells, p);
    assert At(Step(s, maxSize, ttl, op).cells, 0, c, others);
  }

  lemma OthersExtend(ops: seq<Op>, op: Op, key: string, j: nat)
    requires j < |ops|
    ensures OthersSince(ops + [op], key, j) == OthersSince(ops, key, j) + if op.key == key then {} else {op.key}
  {
    var all := ops + [op];
    forall k | k in OthersSince(ops, key, j) ensures k in OthersSince(all, key, j) {
      var i :| j < i < |ops| && ops[i].key != key && ops[i].key == k;
      assert all[i] == ops[i];
    }
    assert op.key != key ==> all[|ops|].key in OthersSince(all, key, j);
  }

  /** What a Put stored stays within reach while its time lasts and few other keys are used. */
  lemma {:induction false} StaysWithin(maxSize: nat, ttl: int, ops: seq<Op>, key: string, j: nat, now: int)
    requires maxSize > 0 && LatestPut(ops, key, j) && |OthersSince(ops, key, j)| < maxSize
    requires forall k | j < k < |ops| :: ops[k].now <= now
    requires ttl > 0 ==> now - ops[j].now <= ttl
    ensures Within(Run(maxSize, ttl, ops).cells, Cell(key, ops[j].resp, Expiry(ttl, ops[j].now)),
                   OthersSince(ops, key, j))
  {
    var before, op := ops[..|ops| - 1], ops[|ops| - 1];
    var s, c := Run(maxSize, ttl, before), Cell(key, ops[j].resp, Expiry(ttl, ops[j].now));
    RunBounded(maxSize, ttl, before);
    if j == |before| {
      assert At(Run(maxSize, ttl, ops).cells, 0, c, OthersSince(ops, key, j));
    } else {
      assert ops == before + [op];
      OthersExtend(before, op, key, j);
      SubsetSize(OthersSince(before, key, j), OthersSince(ops, key, j));
      StaysWithin(maxSize, ttl, before, key, j, now);
      if op.key == key {
        OwnGetKeepsWithin(s, maxSize, ttl, op, c, OthersSince(before, key, j));
      } else if op.GetOp? {
        GetKeepsWithin(s, maxSize, ttl, op, c, OthersSince(before, key, j));
      } else {
        PutKeepsWithin(s, maxSize, ttl, op, c, OthersSince(before, key, j));
      }
    }
  }

  /** Whatever the time to live, under a clock that does not go back: a key that was stored, and after
      which fewer than maxSize other keys were used, is found exactly as long as the time to live
      lasts, with the response that was stored last. */
  lemma HitIffInTime(maxSize: nat, ttl: int, ops: seq<Op>, key: string, j: nat, now: int)
    requires maxSize > 0 && LatestPut(ops, key, j) && |OthersSince(ops, key, j)| < maxSize
    requires forall k | j < k < |ops| :: ops[k].now <= now
    ensures AfterGet(Run(maxSize, ttl, ops), ttl, key, now).1
            == if ttl > 0 && now - ops[j].now > ttl then None else Some(ops[j].resp)
  {
    if ttl > 0 && now - ops[j].now > ttl {
      HitsAreHonest(maxSize, ttl, ops, key, now);
    } else {
      StaysWithin(maxSize, ttl, ops, key, j, now);
      RunBounded(maxSize, ttl, ops);
      var cells := Run(maxSize, ttl, ops).cells;
      var p :| At(cells, p, Cell(key, ops[j].resp, Expiry(ttl, ops[j].now)), OthersSince(ops, key, j));
      FirstIsOnly(cells, p);
    }
  }

  // ---------------------------------------------------------------------------------
  // Least recently used.

  /** One request as the handler makes it: look up, and on a miss store the answer. */
  datatype Access = Access(key: string, resp: string, now: int)

  function Handle(s: State, maxSize: nat, ttl: int, a: Access): State {
    var (s', r) := AfterGet(s, ttl, a.key, a.now);
    if r.Some? then s' else AfterPut(s', maxSize, ttl, a.key, a.resp, a.now)
  }

  function Handled(maxSize: nat, ttl: int, trace: seq<Access>): State {
    if trace == [] then EMPTY
    else Handle(Handled(maxSize, ttl, trace[..|trace| - 1]), maxSize, ttl, trace[|trace| - 1])
  }

  /** The last position at which the key was asked for, or -1. */
  function LastUse(trace: seq<Access>, key: string): (i: int)
    ensures -1 <= i < |trace| && (i >= 0 ==> trace[i].key == key)
    ensures forall k | i < k < |trace| :: trace[k].key != key
  {
    if trace == [] then -1
    else if trace[|trace| - 1].key == key then |trace| - 1
    else LastUse(trace[..|trace| - 1], key)
  }

  ghost predicate Descends(ks: seq<string>, trace: seq<Access>) {
    forall i, j | 0 <= i < j < |ks| :: LastUse(trace, ks[i]) > LastUse(trace, ks[j])
  }

  /** ks lists the keys of a trace, each once, latest use first. */
  ghost predicate IsRecency(ks: seq<string>, trace: seq<Access>) {
    && Distinct(ks)
    && (forall k :: k in ks <==> LastUse(trace, k) >= 0)
    && Descends(ks, trace)
  }

  function Drop(ks: seq<string>, key: string): seq<string> {
    if ks == [] then []
    else if ks[0] == key then ks[1..]
    else [ks[0]] + Drop(ks[1..], key)
  }

  function Recency(trace: seq<Access>): seq<string> {
    if trace == [] then []
    else [trace[|trace| - 1].key] + Drop(Recency(trace[..|trace| - 1]), trace[|trace| - 1].key)
  }

  function Take(ks: seq<string>, n: nat): seq<string> {
    if n <= |ks| then ks[..n] else ks
  }

  lemma {:induction false} DropKeepsOrder(ks: seq<string>, key: string, trace: seq<Access>)
    requires Distinct(ks) && Descends(ks, trace)
    ensures var d := Drop(ks, key);
            Distinct(d) && Descends(d, trace) && forall k :: k in d <==> k in ks && k != key
  {
    if ks != [] {
      assert ks == [ks[0]] + ks[1..];
      assert ks[0] !in ks[1..];
      if ks[0] != key {
        DropKeepsOrder(ks[1..], key, trace);
        var d := Drop(ks[1..], key);
        DistinctCons(ks[0], d);
        forall i | 0 <= i < |d| ensures LastUse(trace, ks[0]) > LastUse(trace, d[i]) {
          assert d[i] in ks[1..];
        }
      }
    }
  }

  /** The latest use moves to the front; the others keep their order. */
  lemma FrontDescends(d: seq<string>, trace: seq<Access>, a: Access)
    requires Descends(d, trace) && a.key !in d
    ensures Descends([a.key] + d, trace + [a])
  {
    var t, ks := trace + [a], [a.key] + d;
    assert t[..|trace|] == trace;
    forall i, j | 0 <= i < j < |ks| ensures LastUse(t, ks[i]) > LastUse(t, ks[j]) {
      assert ks[j] == d[j - 1] && d[j - 1] in d;
      if i > 0 { assert ks[i] == d[i - 1] && d[i - 1] in d; }
    }
  }

  /** The recursive list is the list of distinct keys by latest use. */
  lemma {:induction false} RecencyIsRecency(trace: seq<Access>)
    ensures IsRecency(Recency(trace), trace)
  {
    if trace != [] {
      var before, a := trace[..|trace| - 1], trace[|trace| - 1];
      RecencyIsRecency(before);
      DropKeepsOrder(Recency(before), a.key, before);
      var d := Drop(Recency(before), a.key);
      DistinctCons(a.key, d);
      FrontDescends(d, before, a);
      assert trace == before + [a];
    }
  }

  lemma HeadIsIn(s: seq<string>)
    requires s != []
    ensures s[0] in s
  {
  }

  lemma {:induction false} DescendingUnique(a: seq<string>, b: seq<string>, trace: seq<Access>)
    requires Descends(a, trace) && Descends(b, trace)
    requires forall k :: k in a <==> k in b
    ensures a == b
  {
    if a == [] {
      if b != [] { HeadIsIn(b); }
    } else {
      assert a[0] in b && b[0] in a;
      assert a[0] == b[0];
      assert a == [a[0]] + a[1..] && b == [b[0]] + b[1..];
      forall k ensures k in a[1..] <==> k in b[1..] {
        if k in a[1..] { assert k in a && k != a[0]; }
        if k in b[1..] { assert k in b && k != b[0]; }
      }
      DescendingUnique(a[1..], b[1..], trace);
    }
  }

  /** There is only one such list. */
  lemma RecencyUnique(a: seq<string>, b: seq<string>, trace: seq<Access>)
    requires IsRecency(a, trace) && IsRecency(b, trace)
    ensures a == b
  {
    DescendingUnique(a, b, trace);
  }

  lemma {:induction false} DropIsWithout(ks: seq<string>, key: string, i: nat)
    requires i < |ks| && ks[i] == key && forall k | 0 <= k < i :: ks[k] != key
    ensures Drop(ks, key) == ks[..i] + ks[i + 1..]
  {
    if i > 0 {
      DropIsWithout(ks[1..], key, i - 1);
      assert ks[..i] + ks[i + 1..] == [ks[0]] + (ks[1..][..i - 1] + ks[1..][i..]);
    }
  }

  lemma {:induction false} DropMissing(ks: seq<string>, key: string)
    requires key !in ks
    ensures Drop(ks, key) == ks
  {
    if ks != [] { DropMissing(ks[1..], key); }
  }

  lemma HitIsFront(s: State, ttl: int, key: string, now: int)
    requires ttl <= 0 && Holds(s.cells, key) && Distinct(Keys(s.cells))
    ensures var s' := AfterGet(s, ttl, key, now).0;
            Keys(s'.cells) == [key] + Drop(Keys(s.cells), key) && |s'.cells| == |s.cells|
  {
    var i := Position(s.cells, key);
    KeysWithout(s.cells, i);
    DropIsWithout(Keys(s.cells), key, i);
  }

  lemma MissIsFront(s: State, maxSize: nat, ttl: int, key: string, resp: string, now: int)
    requires maxSize > 0 && !Holds(s.cells, key)
    ensures Keys(AfterPut(s, maxSize, ttl, key, resp, now).cells) == Take([key] + Drop(Keys(s.cells), key), maxSize)
  {
    HoldsIsKey(s.cells, key);
    DropMissing(Keys(s.cells), key);
    var all := [Cell(key, resp, Expiry(ttl, now))] + s.cells;
    assert Keys(all) == [key] + Keys(s.cells);
    assert maxSize <= |all| ==> Keys(all[..maxSize]) == Keys(all)[..maxSize];
  }

  /** One request without a time to live: its key to the front, the rest cut to size. */
  lemma HandleIsFront(s: State, maxSize: nat, ttl: int, a: Access)
    requires ttl <= 0 && maxSize > 0 && Bounded(s, maxSize)
    ensures Keys(Handle(s, maxSize, ttl, a).cells) == Take([a.key] + Drop(Keys(s.cells), a.key), maxSize)
    ensures Bounded(Handle(s, maxSize, ttl, a), maxSize)
    ensures Handle(s, maxSize, ttl, a).hits == s.hits + if a.key in Keys(s.cells) then 1 else 0
  {
    HoldsIsKey(s.cells, a.key);
    StepBounded(s, maxSize, ttl, GetOp(a.key, a.now));
    var s' := AfterGet(s, ttl, a.key, a.now).0;
    if Holds(s.cells, a.key) {
      HitIsFront(s, ttl, a.key, a.now);
    } else {
      StepBounded(s', maxSize, ttl, PutOp(a.key, a.resp, a.now));
      MissIsFront(s', maxSize, ttl, a.key, a.resp, a.now);
    }
  }

  /** Cutting before or after moving a key to the front makes no difference. */
  lemma {:induction false} DropTake(ks: seq<string>, key: string, n: nat)
    requires n > 0
    ensures Take(Drop(Take(ks, n), key), n - 1) == Take(Drop(ks, key), n - 1)
  {
    if ks != [] && ks[0] != key && n > 1 {
      DropTake(ks[1..], key, n - 1);
      assert Take(ks, n) == [ks[0]] + Take(ks[1..], n - 1);
      assert Take(Drop(ks, key), n - 1) == [ks[0]] + Take(Drop(ks[1..], key), n - 2);
      assert Take(Drop(Take(ks, n), key), n - 1) == [ks[0]] + Take(Drop(Take(ks[1..], n - 1), key), n - 2);
    } else if ks != [] && ks[0] == key {
      assert Take(ks, n)[1..] == Take(ks[1..], n - 1);
    }
  }

  /** The closed form: after any trace of requests, without a time to live, the cache holds
      exactly the maxSize most recently used distinct keys, in that order. */
  lemma {:induction false} LruClosedForm(maxSize: nat, ttl: int, trace: seq<Access>)
    requires ttl <= 0 && maxSize > 0
    ensures Keys(Handled(maxSize, ttl, trace).cells) == Take(Recency(trace), maxSize)
    ensures Bounded(Handled(maxSize, ttl, trace), maxSize)
  {
    if trace != [] {
      var before, a := trace[..|trace| - 1], trace[|trace| - 1];
      var s, ks := Handled(maxSize, ttl, before), Recency(before);
      LruClosedForm(maxSize, ttl, before);
      HandleIsFront(s, maxSize, ttl, a);
      DropTake(ks, a.key, maxSize);
      assert Take([a.key] + Drop(Take(ks, maxSize), a.key), maxSize)
          == [a.key] + Take(Drop(Take(ks, maxSize), a.key), maxSize - 1);
      assert Take([a.key] + Drop(ks, a.key), maxSize) == [a.key] + Take(Drop(ks, a.key), maxSize - 1);
    }
  }

  /** The distinct keys asked for since the last request for this one. */
  function Since(trace: seq<Access>, key: string): set<string> {
    set i | LastUse(trace, key) < i < |trace| :: trace[i].key
  }

  lemma {:induction false} DistinctSize(ks: seq<string>, keys: set<string>)
    requires Distinct(ks) && forall k :: k in ks <==> k in keys
    ensures |keys| == |ks|
  {
    if ks == [] {
      assert keys == {};
    } else {
      assert ks == [ks[0]] + ks[1..];
      assert ks[0] !in ks[1..];
      DistinctSize(ks[1..], keys - {ks[0]});
    }
  }

  /** A key's place in the recency list is the number of distinct keys asked for since. */
  lemma PlaceIsSince(trace: seq<Access>, p: nat)
    requires p < |Recency(trace)|
    ensures |Since(trace, Recency(trace)[p])| == p
  {
    var ks := Recency(trace);
    RecencyIsRecency(trace);
    forall k ensures k in ks[..p] <==> k in Since(trace, ks[p]) {
      if k in ks[..p] { FrontIsSince(trace, ks, p, k); }
      if k in Since(trace, ks[p]) { SinceIsFront(trace, ks, p, k); }
    }
    DistinctSize(ks[..p], Since(trace, ks[p]));
  }

  lemma FrontIsSince(trace: seq<Access>, ks: seq<string>, p: nat, k: string)
    requires IsRecency(ks, trace) && p < |ks| && k in ks[..p]
    ensures k in Since(trace, ks[p])
  {
    var q :| 0 <= q < p && ks[..p][q] == k;
    assert LastUse(trace, ks[q]) > LastUse(trace, ks[p]);
    assert trace[LastUse(trace, k)].key == k;
  }

  lemma SinceIsFront(trace: seq<Access>, ks: seq<string>, p: nat, k: string)
    requires IsRecency(ks, trace) && p < |ks| && k in Since(trace, ks[p])
    ensures k in ks[..p]
  {
    var i :| LastUse(trace, ks[p]) < i < |trace| && trace[i].key == k;
    assert LastUse(trace, k) >= i;
    var q :| 0 <= q < |ks| && ks[q] == k;
    assert q < p;
    assert ks[..p][q] == k;
  }

  /** A request hits exactly when its key is among the maxSize most recent: it was asked for
      before, and fewer than maxSize distinct keys came since. */
  lemma HitIffRecent(maxSize: nat, ttl: int, trace: seq<Access>, a: Access)
    requires ttl <= 0 && maxSize > 0
    ensures var hit := AfterGet(Handled(maxSize, ttl, trace), ttl, a.key, a.now).1.Some?;
            && (hit <==> a.key in Take(Recency(trace), maxSize))
            && (hit <==> LastUse(trace, a.key) >= 0 && |Since(trace, a.key)| < maxSize)
  {
    var s, ks := Handled(maxSize, ttl, trace), Recency(trace);
    LruClosedForm(maxSize, ttl, trace);
    HoldsIsKey(s.cells, a.key);
    RecencyIsRecency(trace);
    if a.key in ks {
      var p :| 0 <= p < |ks| && ks[p] == a.key;
      PlaceIsSince(trace, p);
      assert p < maxSize ==> Take(ks, maxSize)[p] == a.key;
    }
  }

  /** Stack inclusion: on one trace a larger cache's list extends a smaller one's, it hits
      whenever the smaller one does, and so never hits less often. */
  lemma {:induction false} LargerCacheIncludes(small: nat, large: nat, ttl: int, trace: seq<Access>)
    requires ttl <= 0 && 0 < small <= large
    ensures Keys(Handled(small, ttl, trace).cells) <= Keys(Handled(large, ttl, trace).cells)
    ensures forall a :: AfterGet(Handled(small, ttl, trace), ttl, a, 0).1.Some?
                        ==> AfterGet(Handled(large, ttl, trace), ttl, a, 0).1.Some?
    ensures Handled(small, ttl, trace).hits <= Handled(large, ttl, trace).hits
  {
    var s, l := Handled(small, ttl, trace), Handled(large, ttl, trace);
    LruClosedForm(small, ttl, trace);
    LruClosedForm(large, ttl, trace);
    forall k | AfterGet(s, ttl, k, 0).1.Some? ensures AfterGet(l, ttl, k, 0).1.Some? {
      HoldsIsKey(s.cells, k);
      HoldsIsKey(l.cells, k);
    }
    if trace != [] {
      var before, a := trace[..|trace| - 1], trace[|trace| - 1];
      LargerCacheIncludes(small, large, ttl, before);
      LruClosedForm(small, ttl, before);
      LruClosedForm(large, ttl, before);
      HandleIsFront(Handled(small, ttl, before), small, ttl, a);
      HandleIsFront(Handled(large, ttl, before), large, ttl, a);
    }
  }
}
