/** What the dispatch loops decide, said without them: which position of the chain ends a
    dispatch, and with what, from the records on entry and the providers' behaviour alone. */
module Scan {
  import opened Common
  import opened Errors
  import opened Dispatch
  import H = Health
  import L = ModelLimit

  /** Neither the health record nor the cooldown keeps the model from being called. */
  predicate Ready(b: Books, m: string, v: Visit) {
    H.IsAvailable(b.records, m, v.healthAt) && !(b.limited && L.IsCooling(b.cooldowns, m, v.limitAt))
  }

  predicate HasClient(b: Books, m: string) {
    ProviderName(b, m) in b.providers
  }

  /** The position ends a dispatch once it is reached: it is ready, and lacks a client, answers,
      starts a stream, or fails for good. */
  predicate Ends(mode: Mode, b: Books, m: string, v: Visit) {
    Ready(b, m, v) && (!HasClient(b, m) || match mode
      case Batch => v.batch.Answered? || !IsTransient(v.batch.err)
      case Streaming =>
        match v.stream
        case NotOpened(e) => !IsTransient(e)
        case Stream(items, end) => items != [] || (end.Cut? && !IsTransient(end.err)))
  }

  /** What the dispatch then comes to. */
  function Result(mode: Mode, b: Books, m: string, v: Visit, pos: nat): Outcome
    requires Ends(mode, b, m, v)
  {
    if !HasClient(b, m) then Fail(NoClient(b, m))
    else match mode
      case Batch =>
        (match v.batch
         case Answered(resp) => Answer(if pos == 0 then resp else resp.(model := m))
         case Refused(e) => Fail(e))
      case Streaming =>
        match v.stream
        case NotOpened(e) => Fail(e)
        case Stream(items, end) =>
          if items == [] then Fail(end.err) else if end.Eof? then Delivered(pos) else Broken(pos, end.err)
  }

  /** The error a position leaves behind when it does not end the dispatch; an empty stream
      leaves none. */
  function Leaves(mode: Mode, b: Books, m: string, v: Visit): Option<Error>
    requires !Ends(mode, b, m, v)
  {
    if !H.IsAvailable(b.records, m, v.healthAt) then Some(InCooldown("health", m))
    else if !Ready(b, m, v) then Some(InCooldown("ratelimit", m))
    else match mode
      case Batch => Some(v.batch.err)
      case Streaming =>
        match v.stream
        case NotOpened(e) => Some(e)
        case Stream(_, end) => if end.Eof? then None else Some(end.err)
  }

  predicate FirstEnd(mode: Mode, b: Books, chain: seq<string>, visits: seq<Visit>, n: nat)
    requires |chain| == |visits|
  {
    n < |chain| && Ends(mode, b, chain[n], visits[n])
    && forall i | 0 <= i < n :: !Ends(mode, b, chain[i], visits[i])
  }

  /** The last position that left an error left this one. */
  ghost predicate LastLeft(mode: Mode, b: Books, chain: seq<string>, visits: seq<Visit>, e: Error)
    requires |chain| == |visits| && forall i | 0 <= i < |chain| :: !Ends(mode, b, chain[i], visits[i])
  {
    exists n | 0 <= n < |chain| ::
      Leaves(mode, b, chain[n], visits[n]) == Some(e)
      && forall i | n < i < |chain| :: Leaves(mode, b, chain[i], visits[i]) == None
  }

  lemma TurnEnds(mode: Mode, b: Books, pos: nat, m: string, v: Visit)
    ensures var t := TurnOf(mode, b, pos, m, v);
            if Ends(mode, b, m, v) then t.verdict == Stop(Result(mode, b, m, v, pos))
            else t.verdict == Pass(Leaves(mode, b, m, v))
  {
  }

  /** The provider fails the call with this error, at once or after some output. */
  predicate FailsWith(mode: Mode, v: Visit, e: Error) {
    match mode
    case Batch => v.batch == Refused(e)
    case Streaming => v.stream == NotOpened(e) || (v.stream.Stream? && v.stream.end == Cut(e))
  }

  /** The client has been sent some of the answer. */
  predicate Started(mode: Mode, v: Visit) {
    mode == Streaming && v.stream.Stream? && v.stream.items != []
  }

  /** What a failed call leads to: it is recorded under the kind the provider gave it, and the next model
      is tried exactly if that is one of four kinds and nothing was sent yet. */
  lemma FailureIsRecorded(mode: Mode, b: Books, pos: nat, m: string, v: Visit, e: Error)
    requires Ready(b, m, v) && HasClient(b, m) && FailsWith(mode, v, e)
    ensures var t := TurnOf(mode, b, pos, m, v);
            && Failed(m, if e.Provider? then e.kind else Unknown, v.settledAt, v.cooledAt) in t.events
            && (t.verdict.Pass? <==>
                  e.Provider? && e.kind in [RateLimit, ServerError, Timeout, Network] && !Started(mode, v))
            && (t.verdict.Pass? ==> t.verdict == Pass(Some(e)))
  {
    var failed := Failed(m, if e.Provider? then e.kind else Unknown, v.settledAt, v.cooledAt);
    var t := TurnOf(mode, b, pos, m, v);
    TurnEnds(mode, b, pos, m, v);
    if mode == Batch {
      assert t.events[1] == failed;
    } else if Started(mode, v) {
      assert t.events[|t.events| - 1] == failed;
    } else {
      assert t.events[1] == failed || t.events[3] == failed;
    }
  }

  /** The dispatch over a chain without repeats, in full: the first position that ends it
      decides; if none does, the last error left behind is reported, or that there were no
      models if none was left. */
  lemma FirstEndDecides(mode: Mode, b: Books, chain: seq<string>, visits: seq<Visit>)
    requires |chain| == |visits| && Distinct(chain)
    ensures var o := Walk(mode, b, chain, visits, 0, None).outcome;
            && (forall n: nat | FirstEnd(mode, b, chain, visits, n) :: o == Result(mode, b, chain[n], visits[n], n))
            && ((forall i | 0 <= i < |chain| :: !Ends(mode, b, chain[i], visits[i])) ==>
                  o.Fail? && (LastLeft(mode, b, chain, visits, o.err)
                              || (o.err == NO_MODELS && forall i | 0 <= i < |chain| ::
                                   Leaves(mode, b, chain[i], visits[i]) == None)))
  {
    WalkIsScan(mode, b, chain, visits);
    var turns := EntryTurns(mode, b, chain, visits);
    forall i | 0 <= i < |chain|
      ensures if Ends(mode, b, chain[i], visits[i])
              then turns[i].verdict == Stop(Result(mode, b, chain[i], visits[i], i))
              else turns[i].verdict == Pass(Leaves(mode, b, chain[i], visits[i]))
    {
      TurnEnds(mode, b, i, chain[i], visits[i]);
    }
  }

  lemma {:induction false} FirstEndOrNone(mode: Mode, b: Books, chain: seq<string>, visits: seq<Visit>, i: nat)
    returns (n: nat)
    requires i <= |chain| == |visits| && forall k | 0 <= k < i :: !Ends(mode, b, chain[k], visits[k])
    ensures i <= n <= |chain| && (forall k | 0 <= k < n :: !Ends(mode, b, chain[k], visits[k]))
    ensures n < |chain| ==> FirstEnd(mode, b, chain, visits, n)
    decreases |chain| - i
  {
    n := i;
    if i < |chain| && !Ends(mode, b, chain[i], visits[i]) {
      n := FirstEndOrNone(mode, b, chain, visits, i + 1);
    }
  }

  /** A stream that is opened, ends at once, and says nothing. */
  predicate RunsDry(mode: Mode, b: Books, m: string, v: Visit) {
    mode == Streaming && Ready(b, m, v) && HasClient(b, m) && v.stream == Stream([], Eof)
  }

  /** No provider fails with the very error that stands for an empty chain. */
  predicate Distinguishable(visits: seq<Visit>) {
    forall i | 0 <= i < |visits| ::
      && visits[i].batch != Refused(NO_MODELS) && visits[i].stream != NotOpened(NO_MODELS)
      && (visits[i].stream.Stream? ==> visits[i].stream.end != Cut(NO_MODELS))
  }

  lemma LeavesNothing(mode: Mode, b: Books, m: string, v: Visit)
    requires !Ends(mode, b, m, v)
    ensures Leaves(mode, b, m, v) == None <==> RunsDry(mode, b, m, v)
  {
  }

  /** "No models" is reported exactly if every position of the chain is called and its stream
      runs dry, which says nothing about what was wrong; an empty chain is the least case. */
  lemma NoModelsIff(mode: Mode, b: Books, chain: seq<string>, visits: seq<Visit>)
    requires |chain| == |visits| && Distinct(chain) && Distinguishable(visits)
    ensures Walk(mode, b, chain, visits, 0, None).outcome == Fail(NO_MODELS)
            <==> forall i | 0 <= i < |chain| :: RunsDry(mode, b, chain[i], visits[i])
  {
    FirstEndDecides(mode, b, chain, visits);
    var n := FirstEndOrNone(mode, b, chain, visits, 0);
    if n == |chain| {
      forall i | 0 <= i < n
        ensures Leaves(mode, b, chain[i], visits[i]) == None <==> RunsDry(mode, b, chain[i], visits[i]) {
        LeavesNothing(mode, b, chain[i], visits[i]);
      }
    } else {
      assert !RunsDry(mode, b, chain[n], visits[n]);
    }
  }

  /** And that happens with models there: one healthy model with a client, whose stream is empty. */
  lemma DryStreamHasNoModels() returns (b: Books, v: Visit)
    ensures b.records == map[] && b.cooldowns == map[] && HasClient(b, "m")
    ensures Walk(Streaming, b, ["m"], [v], 0, None).outcome == Fail(NO_MODELS)
  {
    b := Books(map[], map[], true, map[], {"openai"});
    v := Visit(0, 0, 0, 0, 0, Answered(Response("m", "")), Stream([], Eof));
    NoModelsIff(Streaming, b, ["m"], [v]);
  }
}
