/** Per-model cooldowns, set after a rate-limit failure and dropped once over. */
module ModelLimit {
  import opened Common

  const DEFAULT_COOLDOWN: int := 30 * SECOND

  type Cooldowns = map<string, int>

  predicate IsCooling(cs: Cooldowns, m: string, now: int) {
    m in cs && now < cs[m]
  }

  function AfterCheck(cs: Cooldowns, m: string, now: int): Cooldowns {
    if m in cs && cs[m] <= now then cs - {m} else cs
  }

  function AfterRecord(cs: Cooldowns, m: string, retryAfter: int, now: int): Cooldowns {
    cs[m := now + if retryAfter <= 0 then DEFAULT_COOLDOWN else retryAfter]
  }

  class Model {
    var cooldowns: Cooldowns

    constructor ()
      ensures cooldowns == map[]
    {
      cooldowns := map[];
    }

    method Check(model: string, now: int) returns (retryAfter: int, ok: bool)
      modifies this
      ensures ok == !IsCooling(old(cooldowns), model, now)
      ensures retryAfter == if ok then 0 else old(cooldowns)[model] - now
      ensures !ok ==> retryAfter > 0
      ensures cooldowns == AfterCheck(old(cooldowns), model, now)
    {
      if model !in cooldowns {
        return 0, true;
      }
      var until := cooldowns[model];
      if !(now < until) {
        cooldowns := cooldowns - {model};
        return 0, true;
      }
      return until - now, false;
    }

    method Record(model: string, retryAfter: int, now: int)
      modifies this
      ensures cooldowns == AfterRecord(old(cooldowns), model, retryAfter, now)
    {
      var wait := retryAfter;
      if wait <= 0 {
        wait := DEFAULT_COOLDOWN;
      }
      cooldowns := cooldowns[model := now + wait];
    }
  }

  datatype Op = CheckOp(model: string, at: int) | RecordOp(model: string, retryAfter: int, at: int)

  function Run(ops: seq<Op>): Cooldowns {
    if ops == [] then map[]
    else
      var before := Run(ops[..|ops| - 1]);
      match ops[|ops| - 1]
      case CheckOp(m, at) => AfterCheck(before, m, at)
      case RecordOp(m, retryAfter, at) => AfterRecord(before, m, retryAfter, at)
  }

  /** The end of the cooldown that the latest record for m set. */
  function Until(ops: seq<Op>, m: string): Option<int> {
    if ops == [] then None
    else
      var op := ops[|ops| - 1];
      if op.RecordOp? && op.model == m
      then Some(op.at + if op.retryAfter <= 0 then DEFAULT_COOLDOWN else op.retryAfter)
      else Until(ops[..|ops| - 1], m)
  }

  /** Dropping entries lazily is unobservable: over any run under a clock that does not go back,
      a model cools down exactly as long as its latest record said. */
  lemma {:induction false} CoolingIsLatestRecord(ops: seq<Op>, m: string, now: int)
    requires forall i | 0 <= i < |ops| :: ops[i].at <= now
    ensures IsCooling(Run(ops), m, now) <==> Until(ops, m).Some? && now < Until(ops, m).value
  {
    if ops != [] {
      CoolingIsLatestRecord(ops[..|ops| - 1], m, now);
    }
  }
}
