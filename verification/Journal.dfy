/** What a run of requests does to the ledger and to the prompt cache, request by request: when the
    gate refuses one, and when an answer given before is given again from the cache. */
module Journal {
  import opened Common
  import opened Dispatch
  import opened Handler
  import B = Budget
  import P = PromptCache
  import Lru

  /** The world that request n of a run finds. */
  function Before(h: Setup, w: World, qs: seq<Query>, n: nat): World
    requires n <= |qs|
  {
    RunAll(h, w, qs[..n]).0
  }

  function After(h: Setup, w: World, q: Query): (World, Reply) {
    Handled(h, w, q.req, q.decision, q.pins, q.env)
  }

  lemma NextWorld(h: Setup, w: World, qs: seq<Query>, n: nat)
    requires n < |qs|
    ensures Before(h, w, qs, n + 1) == After(h, Before(h, w, qs, n), qs[n]).0
  {
    assert qs[..n + 1][..n] == qs[..n];
  }

  /** Reply n of a run is what its request makes of the world it finds. */
  lemma {:induction false} ReplyAt(h: Setup, w: World, qs: seq<Query>, n: nat)
    requires n < |qs|
    ensures RunAll(h, w, qs).1[n] == After(h, Before(h, w, qs, n), qs[n]).1
  {
    var last := |qs| - 1;
    if n < last {
      ReplyAt(h, w, qs[..last], n);
      assert qs[..last][..n] == qs[..n];
    }
  }

  // ---------------------------------------------------------------------------------
  // The ledger.

  /** What a request has the ledger do: its gate, and if it was dispatched the booking of its cost. */
  function PayOps(h: Setup, w: World, q: Query): seq<B.Op> {
    if !h.budgets || q.req.messages == [] then []
    else
      var reply := After(h, w, q).1;
      [B.Gate(q.env.gateDay)]
      + if q.decision.Some? && (reply.Replied? || reply.Rejected?)
        then [B.Pay(q.env.payDay, CostOf(q.decision.value.model, DispatchOf(w, q), h.codec))]
        else []
  }

  /** How the dispatch of a request ends. */
  function DispatchOf(w: World, q: Query): Outcome
    requires q.decision.Some?
  {
    var chain := ChainOf(q.decision.value);
    Walk(Batch, w.books, chain, Visits(q.env, chain), 0, None).outcome
  }

  function LedgerOps(h: Setup, w: World, qs: seq<Query>, n: nat): seq<B.Op>
    requires n <= |qs|
  {
    if n == 0 then [] else LedgerOps(h, w, qs, n - 1) + PayOps(h, Before(h, w, qs, n - 1), qs[n - 1])
  }

  lemma RunSnoc(c: B.Config, month: B.Calendar, ops: seq<B.Op>, op: B.Op)
    ensures var (s, alerts) := B.Run(c, month, ops);
            B.Run(c, month, ops + [op]) == B.Stepped(c, month, s, alerts, op)
  {
    assert (ops + [op])[..|ops|] == ops;
  }

  /** The gate's rollover of the ledger that a request finds. */
  function RolledFor(h: Setup, w: World, q: Query): (B.State, seq<B.Alert>) {
    (B.Rolled(w.spend.0, h.month, q.env.gateDay), w.spend.1)
  }

  /** The ledger a request leaves, by its reply. */
  lemma LedgerByReply(h: Setup, w: World, q: Query)
    requires h.budgets
    ensures var (after, reply) := After(h, w, q);
            && (q.req.messages == [] ==> after.spend == w.spend)
            && (q.req.messages != [] && !reply.Replied? && !reply.Rejected? ==> after.spend == RolledFor(h, w, q))
            && (reply.Replied? || reply.Rejected? ==>
                  && q.req.messages != [] && q.decision.Some?
                  && after.spend
                     == Charged(h, RolledFor(h, w, q), q.decision.value.model, DispatchOf(w, q), q.env.payDay))
  {
    if q.decision.Some? {
      BatchEnds(w.books, ChainOf(q.decision.value), Visits(q.env, ChainOf(q.decision.value)), 0, None);
    }
  }

  /** A cost that is not positive leaves the ledger alone, whoever looks at it. */
  lemma ChargedIsPaid(h: Setup, spend: (B.State, seq<B.Alert>), model: string, outcome: Outcome, day: int)
    requires h.budgets
    ensures Charged(h, spend, model, outcome, day)
            == B.Stepped(h.limits, h.month, spend.0, spend.1, B.Pay(day, CostOf(model, outcome, h.codec)))
  {
  }

  lemma PaysAsBooked(h: Setup, w: World, q: Query, ops: seq<B.Op>)
    requires h.budgets && w.spend == B.Run(h.limits, h.month, ops)
    ensures After(h, w, q).0.spend == B.Run(h.limits, h.month, ops + PayOps(h, w, q))
  {
    var gate, reply := B.Gate(q.env.gateDay), After(h, w, q).1;
    LedgerByReply(h, w, q);
    RunSnoc(h.limits, h.month, ops, gate);
    assert ops + [] == ops && [gate] + [] == [gate];
    if reply.Replied? || reply.Rejected? {
      var model, outcome := q.decision.value.model, DispatchOf(w, q);
      var pay := B.Pay(q.env.payDay, CostOf(model, outcome, h.codec));
      ChargedIsPaid(h, RolledFor(h, w, q), model, outcome, q.env.payDay);
      RunSnoc(h.limits, h.month, ops + [gate], pay);
      Regroup(ops, [gate], [pay]);
    }
  }

  /** The ledger a run leaves is that of the gates and bookings of its requests. */
  lemma {:induction false} LedgerIsRun(h: Setup, w: World, qs: seq<Query>, n: nat)
    requires h.budgets && w.spend == (B.FRESH, []) && n <= |qs|
    ensures Before(h, w, qs, n).spend == B.Run(h.limits, h.month, LedgerOps(h, w, qs, n))
  {
    if n > 0 {
      LedgerIsRun(h, w, qs, n - 1);
      NextWorld(h, w, qs, n - 1);
      PaysAsBooked(h, Before(h, w, qs, n - 1), qs[n - 1], LedgerOps(h, w, qs, n - 1));
    }
  }

  /** End to end, over any run from a fresh ledger under a clock that does not go back: a request with
      messages is refused for its budget exactly when what the requests before it cost, that day or
      that month, has reached a limit that is set. */
  lemma RefusedIff(h: Setup, w: World, qs: seq<Query>, i: nat)
    requires h.budgets && w.spend == (B.FRESH, []) && i < |qs|
    requires B.Forward(h.month) && B.InOrder(LedgerOps(h, w, qs, i) + [B.Gate(qs[i].env.gateDay)])
    ensures RunAll(h, w, qs).1[i] == OverBudget <==>
            && qs[i].req.messages != []
            && !B.Room(h.limits, h.month, LedgerOps(h, w, qs, i), qs[i].env.gateDay)
  {
    ReplyAt(h, w, qs, i);
    LedgerIsRun(h, w, qs, i);
    var ops, now := LedgerOps(h, w, qs, i), qs[i].env.gateDay;
    RunSnoc(h.limits, h.month, ops, B.Gate(now));
    B.GateAdmitsIff(h.limits, h.month, ops, now);
    RefusedIsReached(h, Before(h, w, qs, i), qs[i]);
  }

  lemma RefusedIsReached(h: Setup, w: World, q: Query)
    ensures After(h, w, q).1 == OverBudget <==>
            q.req.messages != [] && Reached(h, Rolled(h, w.spend, q.env.gateDay))
  {
    if q.decision.Some? {
      BatchEnds(w.books, ChainOf(q.decision.value), Visits(q.env, ChainOf(q.decision.value)), 0, None);
    }
  }

  // ---------------------------------------------------------------------------------
  // The cache.

  /** What a request past the gate has the cache do: a lookup, and with an answer a store. */
  function CacheOps(h: Setup, w: World, q: Query): seq<Lru.Op> {
    var reply := After(h, w, q).1;
    if reply.Malformed? || reply.OverBudget? then []
    else
      [Lru.GetOp(KeyOf(h, q.req), q.env.getAt)]
      + if reply.Replied? then [Lru.PutOp(KeyOf(h, q.req), reply.text, q.env.putAt)] else []
  }

  function AllCacheOps(h: Setup, w: World, qs: seq<Query>, n: nat): seq<Lru.Op>
    requires n <= |qs|
  {
    if n == 0 then [] else AllCacheOps(h, w, qs, n - 1) + CacheOps(h, Before(h, w, qs, n - 1), qs[n - 1])
  }

  lemma LruSnoc(maxSize: nat, ttl: int, ops: seq<Lru.Op>, op: Lru.Op)
    ensures Lru.Run(maxSize, ttl, ops + [op]) == Lru.Step(Lru.Run(maxSize, ttl, ops), maxSize, ttl, op)
  {
    assert (ops + [op])[..|ops|] == ops;
  }

  /** The cache a request leaves, by its reply. */
  lemma CacheByReply(h: Setup, w: World, q: Query)
    requires h.caches
    ensures var (after, reply) := After(h, w, q);
            var looked := P.AfterGet(w.cache, h.ttl, KeyOf(h, q.req), q.env.getAt).0;
            && (reply.Malformed? || reply.OverBudget? ==> after.cache == w.cache)
            && (reply.Replied? ==>
                  after.cache == P.AfterPut(looked, h.maxSize, h.ttl, KeyOf(h, q.req), reply.text, q.env.putAt))
            && (!reply.Malformed? && !reply.OverBudget? && !reply.Replied? ==> after.cache == looked)
  {
    if q.decision.Some? {
      BatchEnds(w.books, ChainOf(q.decision.value), Visits(q.env, ChainOf(q.decision.value)), 0, None);
    }
  }

  lemma CachesAsDone(h: Setup, w: World, q: Query, ops: seq<Lru.Op>)
    requires h.caches && w.cache == Lru.Run(h.maxSize, h.ttl, ops)
    ensures After(h, w, q).0.cache == Lru.Run(h.maxSize, h.ttl, ops + CacheOps(h, w, q))
  {
    var reply := After(h, w, q).1;
    CacheByReply(h, w, q);
    CacheOpsRun(h, KeyOf(h, q.req), q.env, reply, ops);
  }

  /** A lookup and perhaps a store, after these operations. */
  lemma CacheOpsRun(h: Setup, key: string, env: Environment, reply: Reply, ops: seq<Lru.Op>)
    ensures var get := Lru.GetOp(key, env.getAt);
            var looked := P.AfterGet(Lru.Run(h.maxSize, h.ttl, ops), h.ttl, key, env.getAt).0;
            && ops + [] == ops
            && Lru.Run(h.maxSize, h.ttl, ops + ([get] + [])) == looked
            && (reply.Replied? ==>
                  Lru.Run(h.maxSize, h.ttl, ops + ([get] + [Lru.PutOp(key, reply.text, env.putAt)]))
                  == P.AfterPut(looked, h.maxSize, h.ttl, key, reply.text, env.putAt))
  {
    var get := Lru.GetOp(key, env.getAt);
    LruSnoc(h.maxSize, h.ttl, ops, get);
    assert [get] + [] == [get];
    if reply.Replied? {
      var put := Lru.PutOp(key, reply.text, env.putAt);
      LruSnoc(h.maxSize, h.ttl, ops + [get], put);
      Regroup(ops, [get], [put]);
    }
  }

  /** The cache a run leaves is that of the lookups and stores of its requests. */
  lemma {:induction false} CacheIsRun(h: Setup, w: World, qs: seq<Query>, n: nat)
    requires h.caches && w.cache == P.EMPTY && n <= |qs|
    ensures Before(h, w, qs, n).cache == Lru.Run(h.maxSize, h.ttl, AllCacheOps(h, w, qs, n))
  {
    if n > 0 {
      CacheIsRun(h, w, qs, n - 1);
      NextWorld(h, w, qs, n - 1);
      CachesAsDone(h, Before(h, w, qs, n - 1), qs[n - 1], AllCacheOps(h, w, qs, n - 1));
    }
  }

  /** The other keys that requests asked for between j and i. */
  function OthersBetween(h: Setup, qs: seq<Query>, j: nat, i: nat): set<string>
    requires j < i <= |qs|
  {
    set k | j < k < i && KeyOf(h, qs[k].req) != KeyOf(h, qs[j].req) :: KeyOf(h, qs[k].req)
  }

  /** From request j up to request i no cache clock goes back. */
  ghost predicate Orderly(qs: seq<Query>, j: nat, i: nat)
    requires j <= i < |qs|
  {
    forall k, l | j <= k < l <= i :: qs[k].env.getAt <= qs[l].env.getAt && qs[k].env.putAt <= qs[l].env.getAt
  }

  /** The operation stems from one of the requests between j and i, and stores no answer under the key of j. */
  ghost predicate From(h: Setup, qs: seq<Query>, op: Lru.Op, j: nat, i: nat)
    requires j < i <= |qs|
  {
    && (op.PutOp? ==> op.key != KeyOf(h, qs[j].req))
    && exists k :: j < k < i && op.key == KeyOf(h, qs[k].req)
                   && (op.now == qs[k].env.getAt || op.now == qs[k].env.putAt)
  }

  /** The answer to request j is stored at position p, and what follows stems from the requests between. */
  ghost predicate StoredAt(h: Setup, qs: seq<Query>, ops: seq<Lru.Op>, p: nat, text: string, j: nat, i: nat)
    requires j < i <= |qs|
  {
    && p < |ops| && ops[p] == Lru.PutOp(KeyOf(h, qs[j].req), text, qs[j].env.putAt)
    && forall x | p < x < |ops| :: From(h, qs, ops[x], j, i)
  }

  ghost predicate Stored(h: Setup, qs: seq<Query>, ops: seq<Lru.Op>, text: string, j: nat, i: nat)
    requires j < i <= |qs|
  {
    exists p: nat :: StoredAt(h, qs, ops, p, text, j, i)
  }

  /** The answer to request j is still stored when request i comes. */
  ghost predicate StoredBy(h: Setup, w: World, qs: seq<Query>, text: string, j: nat, i: nat)
    requires j < i <= |qs|
  {
    Stored(h, qs, AllCacheOps(h, w, qs, i), text, j, i)
  }

  lemma OthersAreBetween(h: Setup, qs: seq<Query>, ops: seq<Lru.Op>, p: nat, text: string, j: nat, i: nat)
    requires j < i <= |qs| && StoredAt(h, qs, ops, p, text, j, i)
    ensures Lru.OthersSince(ops, KeyOf(h, qs[j].req), p) <= OthersBetween(h, qs, j, i)
  {
    forall key | key in Lru.OthersSince(ops, KeyOf(h, qs[j].req), p) ensures key in OthersBetween(h, qs, j, i) {
      var x :| p < x < |ops| && ops[x].key != KeyOf(h, qs[j].req) && ops[x].key == key;
      assert From(h, qs, ops[x], j, i);
    }
  }

  /** A stored answer is found in time, while few other keys were asked for. */
  lemma StoredIsFound(h: Setup, qs: seq<Query>, ops: seq<Lru.Op>, text: string, j: nat, i: nat)
    requires j < i < |qs| && Stored(h, qs, ops, text, j, i) && Fits(h, qs, j, i)
    ensures P.AfterGet(Lru.Run(h.maxSize, h.ttl, ops), h.ttl, KeyOf(h, qs[j].req), qs[i].env.getAt).1 == Some(text)
  {
    var p: nat :| StoredAt(h, qs, ops, p, text, j, i);
    OthersAreBetween(h, qs, ops, p, text, j, i);
    Lru.SubsetSize(Lru.OthersSince(ops, KeyOf(h, qs[j].req), p), OthersBetween(h, qs, j, i));
    forall x | p < x < |ops| ensures ops[x].now <= qs[i].env.getAt {
      assert From(h, qs, ops[x], j, i);
    }
    Lru.HitIffInTime(h.maxSize, h.ttl, ops, KeyOf(h, qs[j].req), p, qs[i].env.getAt);
  }

  /** Request i asks what request j asked, past the gate: the answer comes from the cache. */
  lemma FoundIsCached(h: Setup, w: World, qs: seq<Query>, text: string, j: nat, i: nat)
    requires j < i < |qs| && h.caches && w.cache == P.EMPTY && Fits(h, qs, j, i)
    requires StoredBy(h, w, qs, text, j, i)
    requires KeyOf(h, qs[i].req) == KeyOf(h, qs[j].req)
    ensures var (after, reply) := After(h, Before(h, w, qs, i), qs[i]);
            var before := Before(h, w, qs, i);
            !reply.Malformed? && !reply.OverBudget? ==>
              && reply == Cached(text)
              && after.trace == before.trace && after.books == before.books && after.pins == before.pins
              && after.spend.0.total == before.spend.0.total
  {
    CacheIsRun(h, w, qs, i);
    StoredIsFound(h, qs, AllCacheOps(h, w, qs, i), text, j, i);
  }

  lemma JustStored(h: Setup, w: World, qs: seq<Query>, j: nat)
    requires j < |qs| && After(h, Before(h, w, qs, j), qs[j]).1.Replied?
    ensures StoredBy(h, w, qs, After(h, Before(h, w, qs, j), qs[j]).1.text, j, j + 1)
  {
    var ops, text := AllCacheOps(h, w, qs, j + 1), After(h, Before(h, w, qs, j), qs[j]).1.text;
    assert StoredAt(h, qs, ops, |ops| - 1, text, j, j + 1);
  }

  /** One more request, other than a new answer under the same key, leaves the answer stored. */
  lemma StoredLater(h: Setup, w: World, qs: seq<Query>, ops: seq<Lru.Op>, text: string, j: nat, i: nat)
    requires j < i < |qs| && Stored(h, qs, ops, text, j, i)
    requires KeyOf(h, qs[i].req) == KeyOf(h, qs[j].req) ==> !After(h, w, qs[i]).1.Replied?
    ensures Stored(h, qs, ops + CacheOps(h, w, qs[i]), text, j, i + 1)
  {
    var p: nat :| StoredAt(h, qs, ops, p, text, j, i);
    var more := CacheOps(h, w, qs[i]);
    var all := ops + more;
    forall x | p < x < |all| ensures From(h, qs, all[x], j, i + 1) {
      if x < |ops| {
        assert all[x] == ops[x] && From(h, qs, ops[x], j, i);
      } else {
        assert all[x] == more[x - |ops|];
      }
    }
    assert StoredAt(h, qs, all, p, text, j, i + 1);
  }

  /** What AnswersAreKept asks of the requests from j to i. */
  ghost predicate Fits(h: Setup, qs: seq<Query>, j: nat, i: nat)
    requires j < i < |qs|
  {
    && Orderly(qs, j, i) && |OthersBetween(h, qs, j, i)| < h.maxSize
    && (h.ttl > 0 ==> qs[i].env.getAt - qs[j].env.putAt <= h.ttl)
  }

  lemma FitsBefore(h: Setup, qs: seq<Query>, j: nat, i: nat)
    requires j + 1 < i < |qs| && Fits(h, qs, j, i)
    ensures Fits(h, qs, j, i - 1)
  {
    assert OthersBetween(h, qs, j, i - 1) <= OthersBetween(h, qs, j, i);
    Lru.SubsetSize(OthersBetween(h, qs, j, i - 1), OthersBetween(h, qs, j, i));
    assert qs[i - 1].env.getAt <= qs[i].env.getAt;
  }

  lemma StaysNext(h: Setup, w: World, qs: seq<Query>, text: string, j: nat, i: nat)
    requires j < i < |qs| && h.caches && w.cache == P.EMPTY && Fits(h, qs, j, i)
    requires StoredBy(h, w, qs, text, j, i)
    ensures StoredBy(h, w, qs, text, j, i + 1)
  {
    if KeyOf(h, qs[i].req) == KeyOf(h, qs[j].req) { FoundIsCached(h, w, qs, text, j, i); }
    StoredLater(h, Before(h, w, qs, i), qs, AllCacheOps(h, w, qs, i), text, j, i);
  }

  lemma {:induction false} StaysStored(h: Setup, w: World, qs: seq<Query>, text: string, j: nat, i: nat)
    requires j < i < |qs| && h.caches && w.cache == P.EMPTY && Fits(h, qs, j, i)
    requires StoredBy(h, w, qs, text, j, j + 1)
    ensures StoredBy(h, w, qs, text, j, i)
    decreases i
  {
    if i > j + 1 {
      FitsBefore(h, qs, j, i);
      StaysStored(h, w, qs, text, j, i - 1);
      StaysNext(h, w, qs, text, j, i - 1);
    }
  }

  /** End to end, over any run that starts with an empty cache: once a request was answered, the same
      request gets the same answer from the cache, with no model called, nothing booked and no pin
      moved, as long as it is no older than the time to live and fewer other requests than the cache
      has room for were made since. */
  lemma AnswersAreKept(h: Setup, w: World, qs: seq<Query>, j: nat, i: nat)
    requires j < i < |qs| && h.caches && h.maxSize > 0 && w.cache == P.EMPTY
    requires RunAll(h, w, qs).1[j].Replied?
    requires RunAll(h, w, qs).1[i] != Malformed && RunAll(h, w, qs).1[i] != OverBudget
    requires qs[i].req.model == qs[j].req.model
    requires h.codec.bodyOf(qs[i].req.messages) == h.codec.bodyOf(qs[j].req.messages)
    requires Orderly(qs, j, i) && |OthersBetween(h, qs, j, i)| < h.maxSize
    requires h.ttl > 0 ==> qs[i].env.getAt - qs[j].env.putAt <= h.ttl
    ensures RunAll(h, w, qs).1[i] == Cached(RunAll(h, w, qs).1[j].text)
    ensures var before, after := RunAll(h, w, qs[..i]).0, RunAll(h, w, qs[..i + 1]).0;
            && after.trace == before.trace && after.books == before.books && after.pins == before.pins
            && after.spend.0.total == before.spend.0.total
  {
    var text := RunAll(h, w, qs).1[j].text;
    ReplyAt(h, w, qs, j);
    ReplyAt(h, w, qs, i);
    JustStored(h, w, qs, j);
    StaysStored(h, w, qs, text, j, i);
    FoundIsCached(h, w, qs, text, j, i);
    NextWorld(h, w, qs, i);
  }
}
