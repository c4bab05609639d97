/** The per-model health records: a circuit breaker, and a stable reordering of a chain. */
module Health {
  import opened Common
  import opened Errors
  import opened StableSort

  const COOLDOWN: int := 30 * SECOND
  const MAX_FAILURES: nat := 5

  datatype Record = Record(failures: nat, lastKind: Kind, lastFailureAt: int, lastSuccessAt: int)
  type Records = map<string, Record>

  /** The record a model has before anything happened to it; 0 stands for Go's zero time. */
  const FRESH := Record(0, Unknown, 0, 0)

  function Lookup(rs: Records, m: string): Record {
    if m in rs then rs[m] else FRESH
  }

  function AfterSuccess(rs: Records, m: string, now: int): Records {
    rs[m := Lookup(rs, m).(failures := 0, lastSuccessAt := now)]
  }

  function AfterFailure(rs: Records, m: string, kind: Kind, now: int): Records {
    var r := Lookup(rs, m);
    rs[m := r.(failures := r.failures + 1, lastKind := kind, lastFailureAt := now)]
  }

  predicate IsAvailable(rs: Records, m: string, now: int) {
    m !in rs || rs[m].failures < MAX_FAILURES || now - rs[m].lastFailureAt > COOLDOWN
  }

  function Score(rs: Records, m: string, now: int): nat {
    if m !in rs || now - rs[m].lastFailureAt > COOLDOWN then 0 else rs[m].failures
  }

  /** The sort key of Order: one clock reading serves the whole sort. */
  function ScoreKey(rs: Records, now: int): string -> real {
    (m: string) => Score(rs, m, now) as real
  }

  class Tracker {
    var records: Records

    constructor ()
      ensures records == map[]
    {
      records := map[];
    }

    method RecordSuccess(model: string, now: int)
      modifies this
      ensures records == AfterSuccess(old(records), model, now)
    {
      var r := Lookup(records, model);
      r := r.(failures := 0);
      r := r.(lastSuccessAt := now);
      records := records[model := r];
    }

    method RecordFailure(model: string, kind: Kind, now: int)
      modifies this
      ensures records == AfterFailure(old(records), model, kind, now)
    {
      var r := Lookup(records, model);
      r := r.(failures := r.failures + 1);
      r := r.(lastKind := kind);
      r := r.(lastFailureAt := now);
      records := records[model := r];
    }

    method Available(model: string, now: int) returns (ok: bool)
      ensures ok == IsAvailable(records, model, now)
      ensures ok <==> Lookup(records, model).failures < 5 || now > records[model].lastFailureAt + 30 * SECOND
    {
      if model !in records {
        return true;
      }
      var r := records[model];
      if r.failures < MAX_FAILURES {
        return true;
      }
      return now - r.lastFailureAt > COOLDOWN;
    }

    /** A copy of the candidates, stably sorted by score. */
    method Order(candidates: seq<string>, now: int) returns (out: seq<string>)
      ensures StableSorted(out, candidates, ScoreKey(records, now))
    {
      var copy := new string[|candidates|](i requires 0 <= i < |candidates| => candidates[i]);
      assert copy[..] == candidates;
      SortInPlace(copy, ScoreKey(records, now));
      out := copy[..];
    }
  }

  /** A model is held back while it has failed since its last success, the last time at most 30 s ago. */
  predicate Penalised(rs: Records, m: string, now: int) {
    m in rs && rs[m].failures > 0 && now - rs[m].lastFailureAt <= 30 * SECOND
  }

  /** The healthy part of a chain, in order. */
  function Healthy(chain: seq<string>, rs: Records, now: int): seq<string> {
    Filter(chain, m => !Penalised(rs, m, now))
  }

  lemma {:induction false} HealthyIsKeyZero(chain: seq<string>, rs: Records, now: int)
    ensures Healthy(chain, rs, now) == WithKey(chain, ScoreKey(rs, now), 0.0)
  {
    if chain != [] { HealthyIsKeyZero(chain[1..], rs, now); }
  }

  /** What ordering promises: nothing lost, nothing repeated, healthy models keep their places relative
      to each other and come before every penalised one, and those go by their failures. */
  lemma OrderKeepsChain(out: seq<string>, input: seq<string>, rs: Records, now: int)
    requires StableSorted(out, input, ScoreKey(rs, now))
    ensures multiset(out) == multiset(input)
    ensures Distinct(input) ==> Distinct(out)
    ensures Healthy(out, rs, now) == Healthy(input, rs, now)
    ensures forall i, j | 0 <= i < |out| && 0 <= j < |out|
              && !Penalised(rs, out[i], now) && Penalised(rs, out[j], now) :: i < j
    ensures forall i, j | 0 <= i < j < |out| && Penalised(rs, out[i], now) ::
              rs[out[i]].failures <= Lookup(rs, out[j]).failures
  {
    var key := ScoreKey(rs, now);
    SortedIsPermutation(out, input, key);
    if Distinct(input) { PermutationKeepsDistinct(input, out); }
    HealthyIsKeyZero(out, rs, now);
    HealthyIsKeyZero(input, rs, now);
  }
}
