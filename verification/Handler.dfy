/** One chat completion request from the gate to the books: budget, prompt cache, routing,
    dispatch, and what is recorded afterwards. */
module Handler {
  import opened Common
  import opened Errors
  import opened Dispatch
  import R = Router
  import B = Budget
  import P = PromptCache
  import V = Server
  import Session
  import H = Health
  import S = StreamShape

  datatype Reply =
    | Malformed
    | OverBudget
    | Unrouted
    | Cached(text: string)
    | Replied(text: string)
    | Rejected(status: int, err: Error)
    | Streamed

  /** The clock readings of one request, and what the providers do at each chain position. */
  datatype Environment = Environment(
    gateDay: int, getAt: int, routeAt: int, putAt: int, payDay: int, visit: nat -> Visit)

  /** Encodings and prices, as given functions. */
  datatype Codec = Codec(
    bodyOf: seq<Session.Message> -> string, encode: Response -> string,
    usage: Response -> (nat, nat), estimate: (string, nat, nat) -> real)

  function Visits(env: Environment, chain: seq<string>): (r: seq<Visit>)
    ensures |r| == |chain|
  {
    seq(|chain|, i requires 0 <= i < |chain| => env.visit(i))
  }

  /** The status a failed dispatch is reported with. */
  function StatusOf(e: Error): int {
    if e.Plain? then 502
    else match e.kind
      case Auth => 401
      case BadRequest => 400
      case Validation => 400
      case RateLimit => 429
      case _ => 502
  }

  function ReplyTo(outcome: Outcome, codec: Codec): Reply {
    match outcome
    case Answer(resp) => Replied(codec.encode(resp))
    case Fail(err) => Rejected(StatusOf(err), err)
    case _ => Streamed
  }

  /** The cost booked for an outcome: without a usage report, that of no tokens. */
  function CostOf(model: string, outcome: Outcome, codec: Codec): real {
    var (p, c) := if outcome.Answer? then codec.usage(outcome.resp) else (0, 0);
    codec.estimate(model, p, c)
  }

  /** The shared state a request reads and leaves behind. */
  datatype World = World(
    spend: (B.State, seq<B.Alert>), cache: P.State, pins: Session.Pins, books: Books, trace: seq<Event>)

  function Walked(w: World, run: Run): World {
    w.(books := run.after, trace := w.trace + run.events)
  }

  /** An answer goes into the cache, if there is one. */
  function Kept(h: Setup, cache: P.State, r: R.Request, outcome: Outcome, now: int): P.State {
    if h.caches && outcome.Answer?
    then P.AfterPut(cache, h.maxSize, h.ttl, KeyOf(h, r), h.codec.encode(outcome.resp), now)
    else cache
  }

  /** The cost goes onto the ledger, if there is one. */
  function Charged(
      h: Setup, spend: (B.State, seq<B.Alert>), model: string, outcome: Outcome,
      day: int): (B.State, seq<B.Alert>) {
    var cost := CostOf(model, outcome, h.codec);
    if h.budgets && cost > 0.0 then B.AfterRecord(h.limits, h.month, spend.0, spend.1, day, cost) else spend
  }

  function Settled(h: Setup, w: World, r: R.Request, model: string, outcome: Outcome, env: Environment): World {
    w.(cache := Kept(h, w.cache, r, outcome, env.putAt), spend := Charged(h, w.spend, model, outcome, env.payDay))
  }

  datatype Setup = Setup(
    codec: Codec, budgets: bool, limits: B.Config, month: B.Calendar, caches: bool, maxSize: nat, ttl: int)

  class Handler {
    const codec: Codec
    const budget: B.Tracker?
    const cache: P.Prompt?
    const router: R.Router
    const server: V.Server

    constructor (codec: Codec, budget: B.Tracker?, cache: P.Prompt?, router: R.Router, server: V.Server)
      ensures this.codec == codec && this.budget == budget && this.cache == cache
      ensures this.router == router && this.server == server
    {
      this.codec, this.budget, this.cache := codec, budget, cache;
      this.router, this.server := router, server;
    }

    ghost function CacheRepr(): set<object>
      reads if cache == null then {} else {cache, cache.order}
    {
      if cache == null then {}
      else {cache, cache.order, cache.order.root} + (set e | e in cache.order.nodes) + cache.Values()
    }

    ghost predicate Valid()
      reads budget, if cache == null then {} else {cache, cache.order}
      reads CacheRepr()
    {
      (cache == null || cache.Valid()) && (budget == null || budget.Valid())
    }

    ghost function Spend(): (B.State, seq<B.Alert>)
      reads budget
    {
      if budget == null then (B.FRESH, []) else (budget.state, budget.alerts)
    }

    ghost function CacheState(): P.State
      reads cache
    {
      if cache == null then P.EMPTY else cache.Abs()
    }

    ghost function Now(): World
      reads budget, cache, router.session, server.Repr()
    {
      World(Spend(), CacheState(), router.Pins(), server.Now(), server.trace)
    }

    ghost function Conf(): Setup {
      Setup(codec, budget != null, if budget == null then B.Config(0.0, 0.0, []) else budget.cfg,
            if budget == null then ((x: int) => x) else budget.month,
            cache != null, if cache == null then 1 else cache.maxSize, if cache == null then 0 else cache.ttl)
    }

    /** The router's decision on a request, if it comes to one, and the pins it leaves. */
    ghost predicate Routed(
        before: Session.Pins, after: Session.Pins, records: H.Records, r: R.Request, d: Option<R.Decision>,
        now: int) {
      if R.Unroutable(router.cfg, r) then d == None && after == before
      else
        && d.Some?
        && R.KeepsPin(router.cfg, router.session != null, before, after, r, d.value)
        && R.Chained(router.cfg, router.health != null, records, d.value, now)
    }

    /** The dispatcher, the cache and the ledger have no object in common. */
    lemma Apart()
      ensures server.Repr() !! CacheRepr() && budget !in server.Repr() && budget !in CacheRepr()
      ensures router.session !in server.Repr() && router.session !in CacheRepr() && router.health !in CacheRepr()
    {
    }

    /** Lets a request through unless a limit is reached. */
    method Gate(day: int) returns (ok: bool)
      requires Valid()
      modifies budget
      ensures Valid() && CacheRepr() == old(CacheRepr())
      ensures Now() == old(Now()).(spend := Rolled(Conf(), old(Spend()), day))
      ensures ok == !Reached(Conf(), Spend()) && router.Records() == old(router.Records())
      ensures budget != null && B.Forward(budget.month) && B.InOrder(budget.ops) ==>
                (ok <==> B.Room(budget.cfg, budget.month, old(budget.ops), day))
      ensures budget == null ==> ok
    {
      if budget == null {
        return true;
      }
      ok := budget.Allowed(day);
    }

    method Lookup(r: R.Request, now: int) returns (hit: Option<string>)
      requires Valid()
      modifies CacheRepr()
      ensures Valid() && CacheRepr() <= old(CacheRepr())
      ensures Now() == old(Now()).(cache := CacheState())
      ensures (CacheState(), hit) == Looked(Conf(), old(CacheState()), r, now)
    {
      Apart();
      hit := AskCache(r, now);
    }

    method AskCache(r: R.Request, now: int) returns (hit: Option<string>)
      requires Valid()
      modifies CacheRepr()
      ensures Valid() && CacheRepr() <= old(CacheRepr())
      ensures (CacheState(), hit) == Looked(Conf(), old(CacheState()), r, now)
    {
      if cache == null {
        return None;
      }
      hit := cache.Get(r.model, codec.bodyOf(r.messages), now);
    }

    method Remember(r: R.Request, outcome: Outcome, now: int)
      requires Valid()
      modifies CacheRepr()
      ensures Valid()
      ensures Now() == old(Now()).(cache := Kept(Conf(), old(CacheState()), r, outcome, now))
    {
      Apart();
      if cache != null && outcome.Answer? {
        cache.Put(r.model, codec.bodyOf(r.messages), Some(codec.encode(outcome.resp)), now);
      }
    }

    method Charge(model: string, outcome: Outcome, day: int)
      requires Valid()
      modifies budget
      ensures Valid()
      ensures Now() == old(Now()).(spend := Charged(Conf(), old(Spend()), model, outcome, day))
    {
      var promptTok, completionTok := 0, 0;
      if outcome.Answer? {
        var u := codec.usage(outcome.resp);
        promptTok, completionTok := u.0, u.1;
      }
      if budget != null {
        var cost := codec.estimate(model, promptTok, completionTok);
        if cost > 0.0 {
          budget.Record(day, cost);
        }
      }
    }

    method Choose(r: R.Request, now: int) returns (d: Option<R.Decision>)
      requires Valid()
      modifies router.session
      ensures Valid() && CacheRepr() == old(CacheRepr())
      ensures Now() == old(Now()).(pins := router.Pins())
      ensures Routed(old(router.Pins()), router.Pins(), old(router.Records()), r, d, now)
    {
      d := router.Route(r, now);
    }

    method Ask(chain: seq<string>, env: Environment) returns (outcome: Outcome)
      requires Valid()
      modifies server.Repr()
      ensures Valid() && CacheRepr() == old(CacheRepr())
      ensures var run := Walk(Batch, old(server.Now()), chain, Visits(env, chain), 0, None);
              outcome == run.outcome && Now() == Walked(old(Now()), run)
    {
      Apart();
      outcome := server.CompleteWithFallback(chain, Visits(env, chain));
    }

    /** An answer goes into the cache, its cost onto the ledger. */
    method Settle(r: R.Request, model: string, outcome: Outcome, env: Environment) returns (reply: Reply)
      requires Valid()
      modifies budget, CacheRepr()
      ensures Valid() && reply == ReplyTo(outcome, codec)
      ensures Now() == Settled(Conf(), old(Now()), r, model, outcome, env)
    {
      Remember(r, outcome, env.putAt);
      Charge(model, outcome, env.payDay);
      match outcome {
        case Answer(resp) => reply := Replied(codec.encode(resp));
        case Fail(err) => reply := Rejected(StatusOf(err), err);
        case _ => reply := Streamed;
      }
    }

    /** A request past the gate and the cache: routed, dispatched as a batch, settled. */
    method Dispatched(r: R.Request, env: Environment) returns (reply: Reply, ghost d: Option<R.Decision>)
      requires Valid()
      modifies budget, CacheRepr(), router.session, server.Repr()
      ensures Valid()
      ensures Routed(old(router.Pins()), router.Pins(), old(router.Records()), r, d, env.routeAt)
      ensures (Now(), reply) == AfterRoute(Conf(), old(Now()), r, d, router.Pins(), env)
    {
      var decision := Choose(r, env.routeAt);
      d := decision;
      if decision.None? {
        return Unrouted, d;
      }
      var outcome := Ask(ChainOf(decision.value), env);
      reply := Settle(r, decision.value.model, outcome, env);
    }

    /** The batch request, from the gate to the books. */
    method Handle(r: R.Request, env: Environment) returns (reply: Reply, ghost d: Option<R.Decision>)
      requires Valid()
      modifies budget, CacheRepr(), router.session, server.Repr()
      ensures Valid()
      ensures PastGate(Conf(), old(Now()), r, env) && Looked(Conf(), old(CacheState()), r, env.getAt).1.None? ==>
                Routed(old(router.Pins()), router.Pins(), old(router.Records()), r, d, env.routeAt)
      ensures (Now(), reply) == Handled(Conf(), old(Now()), r, d, router.Pins(), env)
    {
      d := None;
      if |r.messages| == 0 {
        return Malformed, d;
      }
      var ok := Gate(env.gateDay);
      if !ok {
        return OverBudget, d;
      }
      reply, d := Serve(r, env);
    }

    /** A request past the gate: from the cache, or dispatched. */
    method Serve(r: R.Request, env: Environment) returns (reply: Reply, ghost d: Option<R.Decision>)
      requires Valid()
      modifies budget, CacheRepr(), router.session, server.Repr()
      ensures Valid()
      ensures Looked(Conf(), old(CacheState()), r, env.getAt).1.None? ==>
                Routed(old(router.Pins()), router.Pins(), old(router.Records()), r, d, env.routeAt)
      ensures (Now(), reply) == Served(Conf(), old(Now()), r, d, router.Pins(), env)
    {
      d := None;
      Apart();
      var hit := Lookup(r, env.getAt);
      if hit.Some? {
        return Cached(hit.value), d;
      }
      reply, d := Dispatched(r, env);
    }

    /** The streaming request: gated and routed alike, but past the cache. */
    method HandleStream(r: R.Request, env: Environment, w: V.ResponseWriter)
      returns (reply: Reply, ghost d: Option<R.Decision>)
      requires Valid()
      modifies budget, router.session, server.Repr(), w
      ensures Valid()
      ensures PastGate(Conf(), old(Now()), r, env) ==>
                Routed(old(router.Pins()), router.Pins(), old(router.Records()), r, d, env.routeAt)
      ensures var (world, frames, answer) := HandledStream(Conf(), old(Now()), w.canFlush, r, d, router.Pins(), env);
              Now() == world && w.out == old(w.out) + frames && reply == answer
    {
      d := None;
      if |r.messages| == 0 {
        return Malformed, d;
      }
      var ok := Gate(env.gateDay);
      if !ok {
        return OverBudget, d;
      }
      reply, d := StreamOut(r, env, w);
    }

    /** A request past the gate: routed, streamed, booked. */
    method StreamOut(r: R.Request, env: Environment, w: V.ResponseWriter)
      returns (reply: Reply, ghost d: Option<R.Decision>)
      requires Valid()
      modifies budget, router.session, server.Repr(), w
      ensures Valid()
      ensures Routed(old(router.Pins()), router.Pins(), old(router.Records()), r, d, env.routeAt)
      ensures var (world, frames, answer) := StreamServed(Conf(), old(Now()), w.canFlush, r, d, router.Pins(), env);
              Now() == world && w.out == old(w.out) + frames && reply == answer
    {
      var decision := Choose(r, env.routeAt);
      d := decision;
      if decision.None? {
        return Unrouted, d;
      }
      Relay(ChainOf(decision.value), env, w);
      Charge(decision.value.model, NO_USAGE, env.payDay);
      reply := Streamed;
    }

    method Relay(chain: seq<string>, env: Environment, w: V.ResponseWriter)
      requires Valid()
      modifies server.Repr(), w
      ensures Valid() && CacheRepr() == old(CacheRepr())
      ensures var run := Walk(Streaming, old(server.Now()), chain, Visits(env, chain), 0, None);
              if w.canFlush
              then Now() == Walked(old(Now()), run) && w.out == old(w.out) + S.Look(run.events).frames
              else Now() == old(Now()) && w.out == old(w.out) + [HttpError(500)]
    {
      Apart();
      server.StreamWithFallback(w, chain, Visits(env, chain));
    }
  }

  /** A stream reports no usage: it is booked as a reply of no tokens. */
  const NO_USAGE := Delivered(0)

  // ---------------------------------------------------------------------------------
  // One request as a function of the world it finds, and runs of them.

  function Rolled(h: Setup, spend: (B.State, seq<B.Alert>), day: int): (B.State, seq<B.Alert>) {
    if h.budgets then (B.Rolled(spend.0, h.month, day), spend.1) else spend
  }

  predicate Reached(h: Setup, spend: (B.State, seq<B.Alert>)) {
    h.budgets && (B.Over(h.limits, spend.0, B.Daily) || B.Over(h.limits, spend.0, B.Monthly))
  }

  predicate PastGate(h: Setup, w: World, r: R.Request, env: Environment) {
    r.messages != [] && !Reached(h, Rolled(h, w.spend, env.gateDay))
  }

  function KeyOf(h: Setup, r: R.Request): string {
    P.HashKey(r.model, h.codec.bodyOf(r.messages))
  }

  function Looked(h: Setup, cache: P.State, r: R.Request, now: int): (P.State, Option<string>) {
    if h.caches then P.AfterGet(cache, h.ttl, KeyOf(h, r), now) else (cache, None)
  }

  /** What is dispatched: the decided model, then its fallbacks. */
  function ChainOf(d: R.Decision): seq<string> {
    [d.model] + d.fallbackChain
  }

  function Handled(
      h: Setup, w: World, r: R.Request, d: Option<R.Decision>, pins: Session.Pins,
      env: Environment): (World, Reply) {
    var gated := w.(spend := Rolled(h, w.spend, env.gateDay));
    if r.messages == [] then (w, Malformed)
    else if Reached(h, gated.spend) then (gated, OverBudget)
    else Served(h, gated, r, d, pins, env)
  }

  function Served(
      h: Setup, w: World, r: R.Request, d: Option<R.Decision>, pins: Session.Pins,
      env: Environment): (World, Reply) {
    var (c, hit) := Looked(h, w.cache, r, env.getAt);
    var looked := w.(cache := c);
    if hit.Some? then (looked, Cached(hit.value)) else AfterRoute(h, looked, r, d, pins, env)
  }

  function AfterRoute(
      h: Setup, w: World, r: R.Request, d: Option<R.Decision>, pins: Session.Pins,
      env: Environment): (World, Reply) {
    if d.None? then (w, Unrouted)
    else
      var run := Walk(Batch, w.books, ChainOf(d.value), Visits(env, ChainOf(d.value)), 0, None);
      (Settled(h, Walked(w, run), r, d.value.model, run.outcome, env).(pins := pins), ReplyTo(run.outcome, h.codec))
  }

  function HandledStream(
      h: Setup, w: World, canFlush: bool, r: R.Request, d: Option<R.Decision>, pins: Session.Pins,
      env: Environment)
    : (World, seq<Frame>, Reply)
  {
    var gated := w.(spend := Rolled(h, w.spend, env.gateDay));
    if r.messages == [] then (w, [], Malformed)
    else if Reached(h, gated.spend) then (gated, [], OverBudget)
    else StreamServed(h, gated, canFlush, r, d, pins, env)
  }

  function StreamServed(
      h: Setup, w: World, canFlush: bool, r: R.Request, d: Option<R.Decision>, pins: Session.Pins,
      env: Environment)
    : (World, seq<Frame>, Reply)
  {
    if d.None? then (w, [], Unrouted)
    else
      var run := Walk(Streaming, w.books, ChainOf(d.value), Visits(env, ChainOf(d.value)), 0, None);
      var after := if canFlush then Walked(w, run) else w;
      (Settled(h, after, r, d.value.model, NO_USAGE, env).(pins := pins),
       if canFlush then S.Look(run.events).frames else [HttpError(500)], Streamed)
  }

  /** What happened since w is the scan of this chain, with this outcome. */
  ghost predicate Scanned(w: World, after: World, chain: seq<string>, env: Environment, outcome: Outcome) {
    exists events ::
      after.trace == w.trace + events
      && IsScan(Batch, EntryTurns(Batch, w.books, chain, Visits(env, chain)), events, outcome)
  }

  lemma DispatchScans(w: World, after: World, chain: seq<string>, env: Environment, run: Run)
    requires Distinct(chain) && run == Walk(Batch, w.books, chain, Visits(env, chain), 0, None)
    requires after.trace == w.trace + run.events
    ensures Scanned(w, after, chain, env, run.outcome) && (run.outcome.Answer? || run.outcome.Fail?)
  {
    WalkIsScan(Batch, w.books, chain, Visits(env, chain));
    BatchEnds(w.books, chain, Visits(env, chain), 0, None);
  }

  /** A request turned away or answered from the cache leaves the models alone; any other does
      and gets what the scan over the books it found says. */
  lemma HandledIsScan(h: Setup, w: World, r: R.Request, d: Option<R.Decision>, pins: Session.Pins, env: Environment)
    requires d.Some? ==> Distinct(ChainOf(d.value))
    ensures var (after, reply) := Handled(h, w, r, d, pins, env);
            match reply
            case Replied(text) =>
              d.Some? && exists resp ::
                text == h.codec.encode(resp) && Scanned(w, after, ChainOf(d.value), env, Answer(resp))
            case Rejected(status, err) =>
              && d.Some? && status == StatusOf(err) && Scanned(w, after, ChainOf(d.value), env, Fail(err))
              && after.cache == Looked(h, w.cache, r, env.getAt).0
            case _ => after.trace == w.trace && after.books == w.books && after.pins == w.pins
  {
    if PastGate(h, w, r, env) && Looked(h, w.cache, r, env.getAt).1.None? && d.Some? {
      var after := Handled(h, w, r, d, pins, env).0;
      var chain := ChainOf(d.value);
      DispatchScans(w, after, chain, env, Walk(Batch, w.books, chain, Visits(env, chain), 0, None));
    }
  }

  /** The status tells an authentication error, a bad request and a rate limit from everything else. */
  predicate Reports(status: int, err: Error) {
    && status in [400, 401, 429, 502]
    && (status == 401 <==> err.Provider? && err.kind == Auth)
    && (status == 400 <==> err.Provider? && err.kind in [BadRequest, Validation])
    && (status == 429 <==> err.Provider? && err.kind == RateLimit)
  }

  lemma RejectionsReport(
      h: Setup, w: World, r: R.Request, d: Option<R.Decision>, pins: Session.Pins, env: Environment)
    ensures var reply := Handled(h, w, r, d, pins, env).1;
            reply.Rejected? ==> Reports(reply.status, reply.err)
  {
    if d.Some? { BatchEnds(w.books, ChainOf(d.value), Visits(env, ChainOf(d.value)), 0, None); }
  }

  lemma {:induction false} BatchEnds(b: Books, chain: seq<string>, visits: seq<Visit>, pos: nat, lastErr: Option<Error>)
    requires |chain| == |visits| && pos <= |chain|
    ensures var o := Walk(Batch, b, chain, visits, pos, lastErr).outcome; o.Answer? || o.Fail?
    decreases |chain| - pos
  {
    if pos < |chain| {
      var t := TurnOf(Batch, b, pos, chain[pos], visits[pos]);
      if t.verdict.Pass? {
        BatchEnds(Apply(AfterChecks(b, chain[pos], visits[pos]), t.events), chain, visits, pos + 1,
                  if t.verdict.why.Some? then t.verdict.why else lastErr);
      }
    }
  }

  /** One request of a run, with the decision the router came to, if any, and the pins it left. */
  datatype Query = Query(req: R.Request, decision: Option<R.Decision>, pins: Session.Pins, env: Environment)

  function RunAll(h: Setup, w: World, qs: seq<Query>): (r: (World, seq<Reply>))
    ensures |r.1| == |qs|
  {
    if qs == [] then (w, [])
    else
      var (before, replies) := RunAll(h, w, qs[..|qs| - 1]);
      var q := qs[|qs| - 1];
      var (after, reply) := Handled(h, before, q.req, q.decision, q.pins, q.env);
      (after, replies + [reply])
  }

  /** Request j of the run was answered with this text and has this cache key. */
  predicate AnsweredWith(h: Setup, qs: seq<Query>, replies: seq<Reply>, j: nat, key: string, text: string) {
    j < |qs| && j < |replies| && KeyOf(h, qs[j].req) == key && replies[j] == Replied(text)
  }

  ghost predicate Sourced(h: Setup, qs: seq<Query>, replies: seq<Reply>, cells: seq<P.Cell>) {
    forall c | c in cells :: exists j: nat :: AnsweredWith(h, qs, replies, j, c.key, c.resp)
  }

  ghost predicate CachedAreSourced(h: Setup, qs: seq<Query>, replies: seq<Reply>) {
    forall i | 0 <= i < |replies| && i < |qs| && replies[i].Cached? ::
      exists j: nat :: j < i && AnsweredWith(h, qs, replies, j, KeyOf(h, qs[i].req), replies[i].text)
  }

  /** A lookup only drops and moves entries, and a hit is one of them. */
  lemma LookedKeeps(h: Setup, cache: P.State, r: R.Request, now: int)
    ensures var (c, hit) := Looked(h, cache, r, now);
            && (forall x | x in c.cells :: x in cache.cells)
            && (hit.Some? ==> exists x :: x in cache.cells && x.key == KeyOf(h, r) && x.resp == hit.value)
  {
  }

  lemma KeptAdds(h: Setup, cache: P.State, r: R.Request, outcome: Outcome, now: int)
    ensures forall x | x in Kept(h, cache, r, outcome, now).cells ::
              x in cache.cells || (outcome.Answer? && x.key == KeyOf(h, r) && x.resp == h.codec.encode(outcome.resp))
  {
  }

  lemma SourcedLater(h: Setup, qs: seq<Query>, replies: seq<Reply>, cells: seq<P.Cell>, q: Query, reply: Reply)
    requires Sourced(h, qs, replies, cells) && |qs| == |replies|
    ensures Sourced(h, qs + [q], replies + [reply], cells)
  {
    forall c | c in cells ensures exists j: nat :: AnsweredWith(h, qs + [q], replies + [reply], j, c.key, c.resp) {
      var j: nat :| AnsweredWith(h, qs, replies, j, c.key, c.resp);
      assert AnsweredWith(h, qs + [q], replies + [reply], j, c.key, c.resp);
    }
  }

  lemma OneMoreSourced(h: Setup, w: World, qs: seq<Query>, replies: seq<Reply>, q: Query)
    requires |qs| == |replies| && Sourced(h, qs, replies, w.cache.cells)
    ensures var (after, reply) := Handled(h, w, q.req, q.decision, q.pins, q.env);
            Sourced(h, qs + [q], replies + [reply], after.cache.cells)
  {
    var (after, reply) := Handled(h, w, q.req, q.decision, q.pins, q.env);
    var qs', replies' := qs + [q], replies + [reply];
    var (c, hit) := Looked(h, w.cache, q.req, q.env.getAt);
    LookedKeeps(h, w.cache, q.req, q.env.getAt);
    if q.decision.Some? {
      var chain := ChainOf(q.decision.value);
      KeptAdds(h, c, q.req, Walk(Batch, w.books, chain, Visits(q.env, chain), 0, None).outcome, q.env.putAt);
    }
    SourcedLater(h, qs, replies, w.cache.cells, q, reply);
    forall x | x in after.cache.cells ensures exists j: nat :: AnsweredWith(h, qs', replies', j, x.key, x.resp) {
      if x !in w.cache.cells { assert AnsweredWith(h, qs', replies', |qs|, x.key, x.resp); }
    }
  }

  lemma OneMoreCached(h: Setup, w: World, qs: seq<Query>, replies: seq<Reply>, q: Query)
    requires |qs| == |replies| && Sourced(h, qs, replies, w.cache.cells) && CachedAreSourced(h, qs, replies)
    ensures CachedAreSourced(h, qs + [q], replies + [Handled(h, w, q.req, q.decision, q.pins, q.env).1])
  {
    var reply := Handled(h, w, q.req, q.decision, q.pins, q.env).1;
    var qs', replies' := qs + [q], replies + [reply];
    LookedKeeps(h, w.cache, q.req, q.env.getAt);
    forall i | 0 <= i < |qs'| && replies'[i].Cached?
      ensures exists j: nat :: j < i && AnsweredWith(h, qs', replies', j, KeyOf(h, qs'[i].req), replies'[i].text)
    {
      var j: nat;
      if i < |qs| {
        j :| j < i && AnsweredWith(h, qs, replies, j, KeyOf(h, qs[i].req), replies[i].text);
      } else {
        var x :| x in w.cache.cells && x.key == KeyOf(h, q.req) && x.resp == reply.text;
        j :| AnsweredWith(h, qs, replies, j, x.key, x.resp);
      }
      assert AnsweredWith(h, qs', replies', j, KeyOf(h, qs'[i].req), replies'[i].text);
    }
  }

  lemma {:induction false} RunIsSourced(h: Setup, w: World, qs: seq<Query>)
    requires w.cache.cells == []
    ensures var (after, replies) := RunAll(h, w, qs);
            |replies| == |qs| && Sourced(h, qs, replies, after.cache.cells) && CachedAreSourced(h, qs, replies)
  {
    if qs != [] {
      var n := |qs| - 1;
      RunIsSourced(h, w, qs[..n]);
      var (before, replies) := RunAll(h, w, qs[..n]);
      OneMoreSourced(h, before, qs[..n], replies, qs[n]);
      OneMoreCached(h, before, qs[..n], replies, qs[n]);
      assert qs[..n] + [qs[n]] == qs;
    }
  }

  /** End to end, over any run that starts with an empty cache: a reply from the cache is the
      text an earlier request for the same model and messages was answered with. */
  lemma CachedRepliesAreAnswers(h: Setup, w: World, qs: seq<Query>, i: nat)
    requires w.cache.cells == [] && i < |qs| && RunAll(h, w, qs).1[i].Cached?
    requires forall q | q in qs :: '\0' !in h.codec.bodyOf(q.req.messages)
    ensures var replies := RunAll(h, w, qs).1;
            exists j: nat :: j < i && replies[j] == Replied(replies[i].text)
              && qs[j].req.model == qs[i].req.model
              && h.codec.bodyOf(qs[j].req.messages) == h.codec.bodyOf(qs[i].req.messages)
  {
    RunIsSourced(h, w, qs);
    var replies := RunAll(h, w, qs).1;
    var j: nat :| j < i && AnsweredWith(h, qs, replies, j, KeyOf(h, qs[i].req), replies[i].text);
    assert qs[j] in qs && qs[i] in qs;
    P.HashKeySeparates(qs[j].req.model, h.codec.bodyOf(qs[j].req.messages),
                       qs[i].req.model, h.codec.bodyOf(qs[i].req.messages));
  }

  // ---------------------------------------------------------------------------------
  // What reaches the ledger.

  /** No tokens cost nothing, as in the price table, which charges by the token. */
  ghost predicate ChargesByToken(codec: Codec) {
    forall m: string :: codec.estimate(m, 0, 0) == 0.0
  }

  function RunStreams(h: Setup, w: World, canFlush: bool, qs: seq<Query>): (r: (World, seq<Reply>))
    ensures |r.1| == |qs|
  {
    if qs == [] then (w, [])
    else
      var (before, replies) := RunStreams(h, w, canFlush, qs[..|qs| - 1]);
      var q := qs[|qs| - 1];
      var (after, _, reply) := HandledStream(h, before, canFlush, q.req, q.decision, q.pins, q.env);
      (after, replies + [reply])
  }

  predicate Unspent(w: World) {
    w.spend.0.daily == 0.0 && w.spend.0.monthly == 0.0
  }

  lemma StreamIsFree(h: Setup, w: World, canFlush: bool, q: Query)
    requires ChargesByToken(h.codec)
    ensures var (after, _, reply) := HandledStream(h, w, canFlush, q.req, q.decision, q.pins, q.env);
            && after.spend.0.total == w.spend.0.total
            && (Unspent(w) ==> Unspent(after) && reply != OverBudget)
  {
  }

  /** Streamed requests never reach the ledger: over any run of them the total stays what it
      was, and if nothing else was spent no limit ever stops one, however low. */
  lemma {:induction false} StreamsAreFree(h: Setup, w: World, canFlush: bool, qs: seq<Query>)
    requires ChargesByToken(h.codec)
    ensures var (after, replies) := RunStreams(h, w, canFlush, qs);
            && after.spend.0.total == w.spend.0.total
            && (Unspent(w) ==> Unspent(after) && OverBudget !in replies)
  {
    if qs != [] {
      var n := |qs| - 1;
      StreamsAreFree(h, w, canFlush, qs[..n]);
      StreamIsFree(h, RunStreams(h, w, canFlush, qs[..n]).0, canFlush, qs[n]);
    }
  }

  lemma RecordedTotal(h: Setup, spend: (B.State, seq<B.Alert>), day: int, cost: real)
    ensures B.AfterRecord(h.limits, h.month, spend.0, spend.1, day, cost).0.total
            == spend.0.total + if cost > 0.0 then cost else 0.0
  {
    if cost > 0.0 {
      B.AlertKeepsBooks(h.limits, B.Charged(B.Rolled(spend.0, h.month, day), cost), spend.1, 0);
    }
  }

  /** An answer is paid for at the price of the model that was decided on, also where a fallback
      gave it: the total grows by that price, whoever answered. */
  lemma AnswersArePricedAsDecided(
      h: Setup, w: World, r: R.Request, d: Option<R.Decision>, pins: Session.Pins, env: Environment)
    ensures var (after, reply) := Handled(h, w, r, d, pins, env);
            match reply
            case Replied(text) =>
              d.Some? && exists resp ::
                var cost := h.codec.estimate(d.value.model, h.codec.usage(resp).0, h.codec.usage(resp).1);
                && text == h.codec.encode(resp)
                && after.spend.0.total == w.spend.0.total + if h.budgets && cost > 0.0 then cost else 0.0
            case Rejected(_, _) => true
            case _ => after.spend.0.total == w.spend.0.total
  {
    if PastGate(h, w, r, env) && Looked(h, w.cache, r, env.getAt).1.None? && d.Some? {
      var outcome := Walk(Batch, w.books, ChainOf(d.value), Visits(env, ChainOf(d.value)), 0, None).outcome;
      BatchEnds(w.books, ChainOf(d.value), Visits(env, ChainOf(d.value)), 0, None);
      RecordedTotal(h, Rolled(h, w.spend, env.gateDay), env.payDay, CostOf(d.value.model, outcome, h.codec));
      assert outcome.Answer? ==> ReplyTo(outcome, h.codec) == Replied(h.codec.encode(outcome.resp));
    }
  }
}
