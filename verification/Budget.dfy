/** The spend tracker: day and month rollover, threshold alerts, and the gate. Money is real;
    a moment is a day number, and months are given by a calendar that never goes back. */
module Budget {
  import opened Common

  datatype Period = Daily | Monthly

  datatype Config = Config(dailyLimit: real, monthlyLimit: real, thresholds: seq<real>)

  /** Which month a day is in; later days are in the same month or a later one. */
  type Calendar = int -> int

  ghost predicate Forward(month: Calendar) {
    forall a, b | a <= b :: month(a) <= month(b)
  }

  datatype State = State(
    day: Option<int>, month: Option<int>, daily: real, monthly: real, total: real,
    fired: set<(Period, real)>)

  const FRESH := State(None, None, 0.0, 0.0, 0.0, {})

  datatype Alert = Alert(period: Period, threshold: real, index: int, limit: real, spent: real)

  function Limit(c: Config, p: Period): real {
    if p == Daily then c.dailyLimit else c.monthlyLimit
  }

  function Spent(s: State, p: Period): real {
    if p == Daily then s.daily else s.monthly
  }

  function Rolled(s: State, month: Calendar, day: int): State {
    var s' := if s.day == Some(day) then s
              else s.(daily := 0.0, day := Some(day), fired := set f | f in s.fired && f.0 != Daily);
    if s'.month == Some(month(day)) then s'
    else s'.(monthly := 0.0, month := Some(month(day)), fired := set f | f in s'.fired && f.0 != Monthly)
  }

  function Charged(s: State, cost: real): State {
    s.(daily := s.daily + cost, monthly := s.monthly + cost, total := s.total + cost)
  }

  predicate Over(c: Config, s: State, p: Period) {
    Limit(c, p) > 0.0 && Spent(s, p) >= Limit(c, p)
  }

  /** The period's spend has reached this configured fraction of its limit. */
  predicate Crossed(c: Config, s: State, f: (Period, real)) {
    f.1 in c.thresholds && Limit(c, f.0) > 0.0 && Spent(s, f.0) >= Limit(c, f.0) * f.1
  }

  function AllCrossed(c: Config, s: State): set<(Period, real)> {
    (set t | t in c.thresholds && Crossed(c, s, (Daily, t)) :: (Daily, t))
    + (set t | t in c.thresholds && Crossed(c, s, (Monthly, t)) :: (Monthly, t))
  }

  lemma AllCrossedIs(c: Config, s: State)
    ensures forall f :: f in AllCrossed(c, s) <==> Crossed(c, s, f)
  {
  }

  class Tracker {
    const cfg: Config
    const month: Calendar
    var state: State
    var alerts: seq<Alert>
    /** What the tracker was called for so far. */
    ghost var ops: seq<Op>

    ghost predicate Valid()
      reads this
    {
      (state, alerts) == Run(cfg, month, ops)
    }

    constructor (cfg: Config, month: Calendar)
      ensures this.cfg == (if cfg.thresholds == [] then cfg.(thresholds := [0.5, 0.8, 1.0]) else cfg)
      ensures this.month == month && state == FRESH && alerts == []
      ensures Valid() && ops == []
    {
      this.cfg := if cfg.thresholds == [] then cfg.(thresholds := [0.5, 0.8, 1.0]) else cfg;
      this.month := month;
      state, alerts, ops := FRESH, [], [];
    }

    method RollIfStale(day: int)
      modifies this`state
      ensures state == Rolled(old(state), month, day)
    {
      if state.day != Some(day) {
        state := state.(daily := 0.0);
        state := state.(day := Some(day));
        state := state.(fired := set f | f in state.fired && f.0 != Daily);
      }
      if state.month != Some(month(day)) {
        state := state.(monthly := 0.0);
        state := state.(month := Some(month(day)));
        state := state.(fired := set f | f in state.fired && f.0 != Monthly);
      }
    }

    method Allowed(day: int) returns (ok: bool)
      requires Valid()
      modifies this`state, this`ops
      ensures Valid() && ops == old(ops) + [Gate(day)]
      ensures state == Rolled(old(state), month, day)
      ensures ok == (!Over(cfg, state, Daily) && !Over(cfg, state, Monthly))
      ensures Forward(month) && InOrder(ops) ==> (ok <==> Room(cfg, month, old(ops), day))
    {
      RollIfStale(day);
      RoomOrNot(cfg, month, ops, day);
      ops := ops + [Gate(day)];
      if cfg.dailyLimit > 0.0 && state.daily >= cfg.dailyLimit {
        return false;
      }
      if cfg.monthlyLimit > 0.0 && state.monthly >= cfg.monthlyLimit {
        return false;
      }
      return true;
    }

    method MaybeAlert()
      requires state.day.Some? && state.month.Some?
      modifies this`state, this`alerts
      ensures (state, alerts) == AlertFrom(cfg, old(state), old(alerts), 0)
    {
      for n := 0 to |cfg.thresholds|
        invariant state.day.Some? && state.month.Some?
        invariant AlertFrom(cfg, state, alerts, n) == AlertFrom(cfg, old(state), old(alerts), 0)
      {
        var t := cfg.thresholds[n];
        if cfg.dailyLimit > 0.0 {
          var key := (Daily, t);
          if key !in state.fired && state.daily >= cfg.dailyLimit * t {
            state := state.(fired := state.fired + {key});
            alerts := alerts + [Alert(Daily, t, state.day.value, cfg.dailyLimit, state.daily)];
          }
        }
        if cfg.monthlyLimit > 0.0 {
          var key := (Monthly, t);
          if key !in state.fired && state.monthly >= cfg.monthlyLimit * t {
            state := state.(fired := state.fired + {key});
            alerts := alerts + [Alert(Monthly, t, state.month.value, cfg.monthlyLimit, state.monthly)];
          }
        }
      }
    }

    method Record(day: int, cost: real)
      requires Valid()
      modifies this
      ensures Valid() && ops == old(ops) + [Pay(day, cost)]
      ensures (state, alerts) == AfterRecord(cfg, month, old(state), old(alerts), day, cost)
    {
      ops := ops + [Pay(day, cost)];
      if cost <= 0.0 {
        return;
      }
      RollIfStale(day);
      state := state.(daily := state.daily + cost);
      state := state.(monthly := state.monthly + cost);
      state := state.(total := state.total + cost);
      MaybeAlert();
    }
  }

  function Index(s: State, p: Period): int
    requires s.day.Some? && s.month.Some?
  {
    if p == Daily then s.day.value else s.month.value
  }

  function AlertOne(c: Config, s: State, alerts: seq<Alert>, p: Period, t: real): (State, seq<Alert>)
    requires s.day.Some? && s.month.Some?
  {
    if Limit(c, p) > 0.0 && (p, t) !in s.fired && Spent(s, p) >= Limit(c, p) * t
    then (s.(fired := s.fired + {(p, t)}), alerts + [Alert(p, t, Index(s, p), Limit(c, p), Spent(s, p))])
    else (s, alerts)
  }

  function AlertFrom(c: Config, s: State, alerts: seq<Alert>, n: nat): (State, seq<Alert>)
    requires s.day.Some? && s.month.Some? && n <= |c.thresholds|
    decreases |c.thresholds| - n
  {
    if n == |c.thresholds| then (s, alerts)
    else
      var (s1, a1) := AlertOne(c, s, alerts, Daily, c.thresholds[n]);
      var (s2, a2) := AlertOne(c, s1, a1, Monthly, c.thresholds[n]);
      AlertFrom(c, s2, a2, n + 1)
  }

  function AfterRecord(
      c: Config, month: Calendar, s: State, alerts: seq<Alert>, day: int, cost: real): (State, seq<Alert>) {
    if cost <= 0.0 then (s, alerts) else AlertFrom(c, Charged(Rolled(s, month, day), cost), alerts, 0)
  }

  // ---------------------------------------------------------------------------------
  // The ledger over whole runs.

  /** What the proxy does with the tracker: pass the gate, or record a request's cost. */
  datatype Op = Gate(day: int) | Pay(day: int, cost: real)

  function Run(c: Config, month: Calendar, ops: seq<Op>): (State, seq<Alert>) {
    if ops == [] then (FRESH, [])
    else
      var (s, alerts) := Run(c, month, ops[..|ops| - 1]);
      Stepped(c, month, s, alerts, ops[|ops| - 1])
  }

  function Stepped(c: Config, month: Calendar, s: State, alerts: seq<Alert>, op: Op): (State, seq<Alert>) {
    match op
    case Gate(day) => (Rolled(s, month, day), alerts)
    case Pay(day, cost) => AfterRecord(c, month, s, alerts, day, cost)
  }

  /** The sum of the positive costs paid at moments that satisfy p. */
  function Paid(ops: seq<Op>, p: int -> bool): real {
    if ops == [] then 0.0
    else
      var op := ops[|ops| - 1];
      Paid(ops[..|ops| - 1], p) + if op.Pay? && op.cost > 0.0 && p(op.day) then op.cost else 0.0
  }

  ghost predicate InOrder(ops: seq<Op>) {
    forall i, j | 0 <= i < j < |ops| :: ops[i].day <= ops[j].day
  }

  function OnDay(d: int): int -> bool { (x: int) => x == d }
  function InMonth(month: Calendar, m: int): int -> bool { (x: int) => month(x) == m }
  function Ever(): int -> bool { (x: int) => true }

  lemma {:induction false} PaidNone(ops: seq<Op>, p: int -> bool)
    requires forall i | 0 <= i < |ops| && ops[i].Pay? && ops[i].cost > 0.0 :: !p(ops[i].day)
    ensures Paid(ops, p) == 0.0
  {
    if ops != [] { PaidNone(ops[..|ops| - 1], p); }
  }

  lemma {:induction false} PaidMonotone(ops: seq<Op>, p: int -> bool, q: int -> bool)
    requires forall x :: p(x) ==> q(x)
    ensures 0.0 <= Paid(ops, p) <= Paid(ops, q)
  {
    if ops != [] { PaidMonotone(ops[..|ops| - 1], p, q); }
  }

  /** The state's own books: spend of its current day and month, nothing paid after it. */
  ghost predicate Kept(s: State, month: Calendar, ops: seq<Op>) {
    && s.total == Paid(ops, Ever())
    && (s.day.None? <==> s.month.None?)
    && (forall i | 0 <= i < |ops| && ops[i].Pay? && ops[i].cost > 0.0 :: s.day.Some? && ops[i].day <= s.day.value)
    && (s.day.Some? ==>
          && s.month == Some(month(s.day.value))
          && s.daily == Paid(ops, OnDay(s.day.value))
          && s.monthly == Paid(ops, InMonth(month, s.month.value)))
  }

  /** Rolling to a moment that is not in the past gives that moment's spend. */
  lemma RollKeeps(s: State, month: Calendar, ops: seq<Op>, day: int)
    requires Forward(month) && Kept(s, month, ops) && (s.day.Some? ==> s.day.value <= day)
    ensures Kept(Rolled(s, month, day), month, ops) && Rolled(s, month, day).day == Some(day)
  {
    if s.day != Some(day) {
      PaidNone(ops, OnDay(day));
      if s.month != Some(month(day)) { PaidNone(ops, InMonth(month, month(day))); }
    }
  }

  lemma {:induction false} AlertKeepsBooks(c: Config, s: State, alerts: seq<Alert>, n: nat)
    requires s.day.Some? && s.month.Some? && n <= |c.thresholds|
    ensures AlertFrom(c, s, alerts, n).0 == s.(fired := AlertFrom(c, s, alerts, n).0.fired)
    decreases |c.thresholds| - n
  {
    if n < |c.thresholds| {
      var (s1, a1) := AlertOne(c, s, alerts, Daily, c.thresholds[n]);
      var (s2, a2) := AlertOne(c, s1, a1, Monthly, c.thresholds[n]);
      AlertKeepsBooks(c, s2, a2, n + 1);
    }
  }

  ghost predicate NotBefore(s: State, ops: seq<Op>) {
    s.day.Some? ==> exists i :: 0 <= i < |ops| && ops[i].day == s.day.value
  }

  lemma {:induction false} RunKept(c: Config, month: Calendar, ops: seq<Op>)
    requires Forward(month) && InOrder(ops)
    ensures var (s, _) := Run(c, month, ops); Kept(s, month, ops) && NotBefore(s, ops)
  {
    if ops != [] {
      var before, op := ops[..|ops| - 1], ops[|ops| - 1];
      RunKept(c, month, before);
      var (s, alerts) := Run(c, month, before);
      DayNotBefore(s, before, op);
      assert ops == before + [op];
      StepKept(c, month, s, alerts, before, op);
    }
  }

  lemma DayNotBefore(s: State, ops: seq<Op>, op: Op)
    requires NotBefore(s, ops) && InOrder(ops + [op])
    ensures s.day.Some? ==> s.day.value <= op.day
    ensures NotBefore(s, ops + [op])
  {
    var all := ops + [op];
    assert all[|ops|] == op;
    if s.day.Some? {
      var i :| 0 <= i < |ops| && ops[i].day == s.day.value;
      assert all[i] == ops[i];
    }
  }

  lemma StepKept(c: Config, month: Calendar, s: State, alerts: seq<Alert>, ops: seq<Op>, op: Op)
    requires Forward(month) && Kept(s, month, ops) && (s.day.Some? ==> s.day.value <= op.day)
    requires NotBefore(s, ops + [op])
    ensures var s' := Stepped(c, month, s, alerts, op).0; Kept(s', month, ops + [op]) && NotBefore(s', ops + [op])
  {
    assert (ops + [op])[|ops|] == op;
    RollKeeps(s, month, ops, op.day);
    var r := Rolled(s, month, op.day);
    if op.Pay? && op.cost > 0.0 {
      PaidKept(r, month, ops, op);
      AlertKeepsBooks(c, Charged(r, op.cost), alerts, 0);
    } else {
      UnpaidKept(if op.Gate? then r else s, month, ops, op);
    }
  }

  lemma PaidSnoc(ops: seq<Op>, op: Op, p: int -> bool)
    ensures Paid(ops + [op], p) == Paid(ops, p) + if op.Pay? && op.cost > 0.0 && p(op.day) then op.cost else 0.0
  {
    assert (ops + [op])[..|ops|] == ops;
  }

  lemma PaidKept(s: State, month: Calendar, ops: seq<Op>, op: Op)
    requires Kept(s, month, ops) && s.day == Some(op.day) && op.Pay? && op.cost > 0.0
    ensures Kept(Charged(s, op.cost), month, ops + [op])
  {
    PaidSnoc(ops, op, Ever());
    PaidSnoc(ops, op, OnDay(op.day));
    PaidSnoc(ops, op, InMonth(month, month(op.day)));
  }

  lemma UnpaidKept(s: State, month: Calendar, ops: seq<Op>, op: Op)
    requires Kept(s, month, ops) && !(op.Pay? && op.cost > 0.0)
    ensures Kept(s, month, ops + [op])
  {
    PaidSnoc(ops, op, Ever());
    if s.day.Some? {
      PaidSnoc(ops, op, OnDay(s.day.value));
      PaidSnoc(ops, op, InMonth(month, s.month.value));
    }
  }

  /** The ledger: seen from any moment that is not in the past, the daily figure is what was
      paid that day, the monthly figure what was paid that month, the total what was ever
      paid; so daily <= monthly <= total. */
  lemma LedgerIsSums(c: Config, month: Calendar, ops: seq<Op>, now: int)
    requires Forward(month) && InOrder(ops + [Gate(now)])
    ensures var s := Rolled(Run(c, month, ops).0, month, now);
            && s.daily == Paid(ops, OnDay(now))
            && s.monthly == Paid(ops, InMonth(month, month(now)))
            && s.total == Paid(ops, Ever())
            && 0.0 <= s.daily <= s.monthly <= s.total
  {
    var (s, _) := Run(c, month, ops);
    var all := ops + [Gate(now)];
    assert forall i | 0 <= i < |ops| :: all[i] == ops[i];
    assert all[|ops|].day == now;
    RunKept(c, month, ops);
    RollKeeps(s, month, ops, now);
    PaidMonotone(ops, OnDay(now), InMonth(month, month(now)));
    PaidMonotone(ops, InMonth(month, month(now)), Ever());
  }

  /** What was paid this day, and this month, leaves room under either limit that is set. */
  predicate Room(c: Config, month: Calendar, ops: seq<Op>, now: int) {
    && (c.dailyLimit <= 0.0 || Paid(ops, OnDay(now)) < c.dailyLimit)
    && (c.monthlyLimit <= 0.0 || Paid(ops, InMonth(month, month(now))) < c.monthlyLimit)
  }

  /** Over any run under a clock that does not go back, the gate lets a request through exactly when
      there is room. */
  lemma GateAdmitsIff(c: Config, month: Calendar, ops: seq<Op>, now: int)
    requires Forward(month) && InOrder(ops + [Gate(now)])
    ensures Admits(c, Run(c, month, ops + [Gate(now)]).0) <==> Room(c, month, ops, now)
  {
    assert (ops + [Gate(now)])[..|ops|] == ops;
    LedgerIsSums(c, month, ops, now);
  }

  lemma RoomOrNot(c: Config, month: Calendar, ops: seq<Op>, now: int)
    ensures (ops + [Gate(now)])[..|ops|] == ops
    ensures Forward(month) && InOrder(ops + [Gate(now)]) ==>
              (Admits(c, Rolled(Run(c, month, ops).0, month, now)) <==> Room(c, month, ops, now))
  {
    if Forward(month) && InOrder(ops + [Gate(now)]) { GateAdmitsIff(c, month, ops, now); }
  }

  // ---------------------------------------------------------------------------------
  // Alerts.

  /** Everything alerted about in the current period is marked, and no alert is from later. */
  ghost predicate Marked(s: State, alerts: seq<Alert>) {
    forall i | 0 <= i < |alerts| ::
      && s.day.Some? && s.month.Some?
      && alerts[i].index <= Index(s, alerts[i].period)
      && (alerts[i].index == Index(s, alerts[i].period) ==> (alerts[i].period, alerts[i].threshold) in s.fired)
  }

  /** No two alerts are for the same threshold in the same day, or the same month. */
  ghost predicate OncePerPeriod(alerts: seq<Alert>) {
    forall i, j | 0 <= i < j < |alerts| ::
      (alerts[i].period, alerts[i].threshold, alerts[i].index)
      != (alerts[j].period, alerts[j].threshold, alerts[j].index)
  }

  /** Every mark of the current period comes with its alert. */
  ghost predicate Announced(s: State, alerts: seq<Alert>) {
    forall f | f in s.fired ::
      s.day.Some? && s.month.Some? &&
      exists i :: 0 <= i < |alerts| && (alerts[i].period, alerts[i].threshold) == f && alerts[i].index == Index(s, f.0)
  }

  ghost predicate AlertInv(c: Config, s: State, alerts: seq<Alert>) {
    Marked(s, alerts) && OncePerPeriod(alerts) && Announced(s, alerts) && forall f | f in s.fired :: Crossed(c, s, f)
  }

  lemma AlertOneKeeps(c: Config, s: State, alerts: seq<Alert>, p: Period, t: real)
    requires s.day.Some? && s.month.Some? && AlertInv(c, s, alerts) && t in c.thresholds
    ensures var (s', a') := AlertOne(c, s, alerts, p, t);
            AlertInv(c, s', a') && s' == s.(fired := s.fired + if Crossed(c, s, (p, t)) then {(p, t)} else {})
  {
    var (s', a') := AlertOne(c, s, alerts, p, t);
    forall f | f in s'.fired
      ensures exists i :: 0 <= i < |a'| && (a'[i].period, a'[i].threshold) == f && a'[i].index == Index(s', f.0)
    {
      if f in s.fired {
        var i :| 0 <= i < |alerts| && (alerts[i].period, alerts[i].threshold) == f && alerts[i].index == Index(s, f.0);
        assert a'[i] == alerts[i];
      } else {
        assert a'[|alerts|] == Alert(p, t, Index(s, p), Limit(c, p), Spent(s, p));
      }
    }
  }

  lemma {:induction false} AlertFromKeeps(c: Config, s: State, alerts: seq<Alert>, n: nat)
    requires s.day.Some? && s.month.Some? && n <= |c.thresholds| && AlertInv(c, s, alerts)
    requires forall f | Crossed(c, s, f) :: f in s.fired || f.1 in c.thresholds[n..]
    ensures var (s', a') := AlertFrom(c, s, alerts, n);
            AlertInv(c, s', a') && s'.fired == AllCrossed(c, s')
    decreases |c.thresholds| - n
  {
    if n == |c.thresholds| {
      AllCrossedIs(c, s);
    } else {
      var t := c.thresholds[n];
      assert c.thresholds[n..] == [t] + c.thresholds[n + 1..];
      AlertOneKeeps(c, s, alerts, Daily, t);
      var (s1, a1) := AlertOne(c, s, alerts, Daily, t);
      AlertOneKeeps(c, s1, a1, Monthly, t);
      var (s2, a2) := AlertOne(c, s1, a1, Monthly, t);
      forall f | Crossed(c, s2, f) ensures f in s2.fired || f.1 in c.thresholds[n + 1..] {
        assert Crossed(c, s, f);
        if f.1 == t { assert f == (Daily, t) || f == (Monthly, t); }
      }
      AlertFromKeeps(c, s2, a2, n + 1);
    }
  }

  lemma RollKeepsAlerts(c: Config, s: State, alerts: seq<Alert>, month: Calendar, day: int)
    requires Forward(month) && AlertInv(c, s, alerts)
    requires (s.day.Some? <==> s.month.Some?)
        && (s.day.Some? ==> s.day.value <= day && s.month.value == month(s.day.value))
    ensures AlertInv(c, Rolled(s, month, day), alerts)
  {
    var r := Rolled(s, month, day);
    forall f | f in r.fired
      ensures exists i ::
                0 <= i < |alerts| && (alerts[i].period, alerts[i].threshold) == f && alerts[i].index == Index(r, f.0)
    {
      var i :| 0 <= i < |alerts| && (alerts[i].period, alerts[i].threshold) == f && alerts[i].index == Index(s, f.0);
    }
  }

  lemma {:induction false} RunAlerts(c: Config, month: Calendar, ops: seq<Op>)
    requires Forward(month) && InOrder(ops)
    ensures var (s, alerts) := Run(c, month, ops);
            && AlertInv(c, s, alerts)
            && (ops != [] && ops[|ops| - 1].Pay? && ops[|ops| - 1].cost > 0.0 ==> s.fired == AllCrossed(c, s))
  {
    if ops != [] {
      var before, op := ops[..|ops| - 1], ops[|ops| - 1];
      RunAlerts(c, month, before);
      RunKept(c, month, before);
      var (s, alerts) := Run(c, month, before);
      if s.day.Some? {
        var i :| 0 <= i < |before| && before[i].day == s.day.value;
        assert ops[i] == before[i];
      }
      RollKeepsAlerts(c, s, alerts, month, op.day);
      if op.Pay? && op.cost > 0.0 {
        var r := Charged(Rolled(s, month, op.day), op.cost);
        assert forall f | Crossed(c, Rolled(s, month, op.day), f) :: Crossed(c, r, f);
        assert c.thresholds[0..] == c.thresholds;
        AlertFromKeeps(c, r, alerts, 0);
      }
    }
  }

  /** Over any run under a clock that does not go back: after each payment the marks are
      exactly the configured thresholds now crossed; every mark was announced, and nothing was
      announced twice in one day or one month. */
  lemma AlertsOnce(c: Config, month: Calendar, ops: seq<Op>, day: int, cost: real)
    requires Forward(month) && InOrder(ops + [Pay(day, cost)]) && cost > 0.0
    ensures var (s, alerts) := Run(c, month, ops + [Pay(day, cost)]);
            && (forall f :: f in s.fired <==> Crossed(c, s, f))
            && OncePerPeriod(alerts)
            && Announced(s, alerts)
  {
    RunAlerts(c, month, ops + [Pay(day, cost)]);
    AllCrossedIs(c, Run(c, month, ops + [Pay(day, cost)]).0);
  }

  /** An alert names a configured threshold and the limit of its period, and tells a spend that reaches
      that fraction of it. */
  predicate Truthful(c: Config, a: Alert) {
    && a.threshold in c.thresholds
    && a.limit == (if a.period == Daily then c.dailyLimit else c.monthlyLimit) && a.limit > 0.0
    && a.spent >= a.limit * a.threshold
  }

  predicate AllTruthful(c: Config, alerts: seq<Alert>) {
    forall i | 0 <= i < |alerts| :: Truthful(c, alerts[i])
  }

  lemma OneTruthful(c: Config, s: State, alerts: seq<Alert>, p: Period, t: real)
    requires s.day.Some? && s.month.Some? && AllTruthful(c, alerts) && t in c.thresholds
    ensures AllTruthful(c, AlertOne(c, s, alerts, p, t).1)
  {
    var limit := Limit(c, p);
    if limit > 0.0 && Spent(s, p) >= limit * t { assert Truthful(c, Alert(p, t, Index(s, p), limit, Spent(s, p))); }
  }

  lemma {:induction false} FromTruthful(c: Config, s: State, alerts: seq<Alert>, n: nat)
    requires s.day.Some? && s.month.Some? && n <= |c.thresholds| && AllTruthful(c, alerts)
    ensures AllTruthful(c, AlertFrom(c, s, alerts, n).1)
    decreases |c.thresholds| - n
  {
    if n < |c.thresholds| {
      var t := c.thresholds[n];
      var (s1, a1) := AlertOne(c, s, alerts, Daily, t);
      OneTruthful(c, s, alerts, Daily, t);
      var (s2, a2) := AlertOne(c, s1, a1, Monthly, t);
      OneTruthful(c, s1, a1, Monthly, t);
      FromTruthful(c, s2, a2, n + 1);
    }
  }

  /** Every alert of any run is truthful. */
  lemma {:induction false} AlertsAreTruthful(c: Config, month: Calendar, ops: seq<Op>)
    ensures AllTruthful(c, Run(c, month, ops).1)
  {
    if ops != [] {
      var before, op := ops[..|ops| - 1], ops[|ops| - 1];
      AlertsAreTruthful(c, month, before);
      var (s, alerts) := Run(c, month, before);
      if op.Pay? && op.cost > 0.0 {
        FromTruthful(c, Charged(Rolled(s, month, op.day), op.cost), alerts, 0);
      }
    }
  }

  /** What was paid in the period of a day reaches this fraction of the limit, if there is one. */
  predicate Reaches(c: Config, month: Calendar, ops: seq<Op>, day: int, f: (Period, real)) {
    if f.0 == Daily then c.dailyLimit > 0.0 && Paid(ops, OnDay(day)) >= c.dailyLimit * f.1
    else c.monthlyLimit > 0.0 && Paid(ops, InMonth(month, month(day))) >= c.monthlyLimit * f.1
  }

  /** After a payment the figures are those of its day. */
  lemma FiguresAfterPay(c: Config, month: Calendar, ops: seq<Op>, day: int, cost: real)
    requires Forward(month) && InOrder(ops + [Pay(day, cost)]) && cost > 0.0
    ensures var all := ops + [Pay(day, cost)];
            var s := Run(c, month, all).0;
            s.daily == Paid(all, OnDay(day)) && s.monthly == Paid(all, InMonth(month, month(day)))
  {
    var all := ops + [Pay(day, cost)];
    var (before, alerts) := Run(c, month, ops);
    assert all[..|ops|] == ops;
    RunKept(c, month, all);
    AlertKeepsBooks(c, Charged(Rolled(before, month, day), cost), alerts, 0);
    assert Run(c, month, all).0.day == Some(day);
  }

  lemma CrossedIsReached(c: Config, month: Calendar, ops: seq<Op>, day: int, s: State, f: (Period, real))
    requires s.daily == Paid(ops, OnDay(day)) && s.monthly == Paid(ops, InMonth(month, month(day)))
    ensures Crossed(c, s, f) <==> f.1 in c.thresholds && Reaches(c, month, ops, day, f)
  {
    assert Limit(c, f.0) == if f.0 == Daily then c.dailyLimit else c.monthlyLimit;
  }

  /** After a payment the marks are the configured thresholds that the sums paid have reached. */
  lemma MarksAreSums(c: Config, month: Calendar, ops: seq<Op>, day: int, cost: real, f: (Period, real))
    requires Forward(month) && InOrder(ops + [Pay(day, cost)]) && cost > 0.0
    ensures var all := ops + [Pay(day, cost)];
            f in Run(c, month, all).0.fired <==> f.1 in c.thresholds && Reaches(c, month, all, day, f)
  {
    AlertsOnce(c, month, ops, day, cost);
    FiguresAfterPay(c, month, ops, day, cost);
    CrossedIsReached(c, month, ops + [Pay(day, cost)], day, Run(c, month, ops + [Pay(day, cost)]).0, f);
  }

  // ---------------------------------------------------------------------------------
  // The overshoot of gate-then-record with requests in flight.

  /** A request passes the gate, or is turned away; or one in flight finishes and is charged. */
  datatype Act = Enter(day: int) | Finish(day: int, cost: real)

  datatype Flight = Flight(s: State, inFlight: nat)

  predicate Admits(c: Config, s: State) {
    !Over(c, s, Daily) && !Over(c, s, Monthly)
  }

  function Do(c: Config, month: Calendar, f: Flight, a: Act): Flight
    requires a.Finish? ==> f.inFlight > 0
  {
    match a
    case Enter(day) =>
      var s := Rolled(f.s, month, day);
      Flight(s, if Admits(c, s) then f.inFlight + 1 else f.inFlight)
    case Finish(day, cost) =>
      Flight(AfterRecord(c, month, f.s, [], day, cost).0, f.inFlight - 1)
  }

  /** A run: requests finish only after they entered, cost at most `most`, and no more than k
      are in flight at any time. */
  ghost predicate Flies(c: Config, month: Calendar, fs: seq<Flight>, acts: seq<Act>, k: nat, most: real) {
    && |fs| == |acts| + 1 && fs[0] == Flight(FRESH, 0)
    && (forall i | 0 <= i < |fs| :: fs[i].inFlight <= k)
    && forall i | 0 <= i < |acts| ::
         && (acts[i].Finish? ==> fs[i].inFlight > 0 && acts[i].cost <= most)
         && fs[i + 1] == Do(c, month, fs[i], acts[i])
  }

  /** What n requests may cost at most. */
  function Worth(n: nat, most: real): real {
    n as real * most
  }

  lemma WorthGrows(a: nat, b: nat, most: real)
    requires a <= b && most >= 0.0
    ensures 0.0 <= Worth(a, most) <= Worth(b, most)
  {
    assert Worth(b, most) - Worth(a, most) == (b - a) as real * most;
  }

  /** Spend so far, and what the requests in flight may still add, stay below the limit plus
      k requests' worth. */
  ghost predicate Exposed(c: Config, f: Flight, p: Period, k: nat, most: real) {
    Limit(c, p) > 0.0 ==> Spent(f.s, p) + Worth(f.inFlight, most) < Limit(c, p) + Worth(k, most)
  }

  lemma DoKeepsExposure(c: Config, month: Calendar, f: Flight, a: Act, p: Period, k: nat, most: real)
    requires most >= 0.0 && Exposed(c, f, p, k, most) && Spent(f.s, p) >= 0.0
    requires a.Finish? ==> f.inFlight > 0 && a.cost <= most
    requires Do(c, month, f, a).inFlight <= k
    ensures Exposed(c, Do(c, month, f, a), p, k, most) && Spent(Do(c, month, f, a).s, p) >= 0.0
  {
    var g := Do(c, month, f, a);
    match a
    case Enter(day) =>
      WorthGrows(g.inFlight, k, most);
      assert Spent(g.s, p) <= Spent(f.s, p);
      assert Admits(c, g.s) && Limit(c, p) > 0.0 ==> Spent(g.s, p) < Limit(c, p);
    case Finish(day, cost) =>
      assert Worth(f.inFlight, most) == Worth(g.inFlight, most) + most;
      if cost > 0.0 { AlertKeepsBooks(c, Charged(Rolled(f.s, month, day), cost), [], 0); }
  }

  /** In every reachable state, across rollovers, spend stays below the limit plus k requests'
      worth, for the daily and for the monthly limit. */
  lemma {:induction false} OvershootBounded(
      c: Config, month: Calendar, fs: seq<Flight>, acts: seq<Act>, k: nat, most: real, n: nat, p: Period)
    requires Flies(c, month, fs, acts, k, most) && most >= 0.0 && n < |fs|
    ensures Exposed(c, fs[n], p, k, most) && Spent(fs[n].s, p) >= 0.0
    ensures Limit(c, p) > 0.0 ==> Spent(fs[n].s, p) < Limit(c, p) + Worth(k, most)
  {
    if n > 0 {
      OvershootBounded(c, month, fs, acts, k, most, n - 1, p);
      assert fs[n - 1 + 1] == Do(c, month, fs[n - 1], acts[n - 1]);
      DoKeepsExposure(c, month, fs[n - 1], acts[n - 1], p, k, most);
    }
    WorthGrows(0, k, most);
    WorthGrows(0, fs[n].inFlight, most);
  }
}
