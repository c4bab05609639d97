/** The per-user sliding window: pruned buckets that decide as the full admission history. */
module UserLimit {
  import opened Common

  predicate Sorted(h: seq<int>) {
    forall i, j | 0 <= i < j < |h| :: h[i] <= h[j]
  }

  predicate UpTo(h: seq<int>, now: int) {
    forall k | 0 <= k < |h| :: h[k] <= now
  }

  /** How many of the instants in h lie in the closed interval [lo, hi]. */
  function Count(h: seq<int>, lo: int, hi: int): (n: nat)
    ensures n <= |h|
  {
    if h == [] then 0 else Count(h[..|h| - 1], lo, hi) + if lo <= h[|h| - 1] <= hi then 1 else 0
  }

  /** The window is full: another admission at `now` would be one too many. */
  predicate Full(h: seq<int>, window: int, limit: nat, now: int) {
    Count(h, now - window, now) >= limit
  }

  /** How long until the oldest admission in a full window is out of it. */
  function RetryAfter(h: seq<int>, window: int, now: int): int
    requires Count(h, now - window, now) > 0
  {
    h[|h| - Count(h, now - window, now)] + window - now
  }

  /** One user's admissions after a check at `now`. */
  function AfterCheck(h: seq<int>, window: int, limit: nat, now: int): seq<int> {
    if Full(h, window, limit, now) then h else h + [now]
  }

  lemma {:induction false} CountSorted(h: seq<int>, lo: int, hi: int, i: nat)
    requires Sorted(h) && i <= |h|
    requires forall k | 0 <= k < i :: h[k] < lo
    requires forall k | i <= k < |h| :: lo <= h[k] <= hi
    ensures Count(h, lo, hi) == |h| - i
  {
    if h != [] {
      CountSorted(h[..|h| - 1], lo, hi, if i == |h| then i - 1 else i);
    }
  }

  /** A bucket is the history without a prefix that is already out of the window. */
  ghost predicate Prunes(bucket: seq<int>, h: seq<int>, cutoff: int) {
    && |bucket| <= |h|
    && bucket == h[|h| - |bucket|..]
    && forall k | 0 <= k < |h| - |bucket| :: h[k] < cutoff
  }

  ghost predicate BucketOf(bucket: seq<int>, h: seq<int>, window: int, clock: int) {
    Sorted(h) && Prunes(bucket, h, clock - window) && UpTo(h, clock)
  }

  lemma BucketLater(bucket: seq<int>, h: seq<int>, window: int, clock: int, now: int)
    requires BucketOf(bucket, h, window, clock) && clock <= now
    ensures BucketOf(bucket, h, window, now)
  {
  }

  /** A bucket that stands for its history, which never overfilled a window. */
  ghost predicate Tracks(bucket: seq<int>, h: seq<int>, window: int, limit: nat, clock: int) {
    BucketOf(bucket, h, window, clock) && Spread(h, window, limit)
  }

  /** One check of one user. */
  lemma CheckTracks(hits: seq<int>, h: seq<int>, window: int, limit: nat, clock: int, i: nat, now: int)
    requires Tracks(hits, h, window, limit, clock) && clock <= now && window > 0 && limit > 0
    requires i <= |hits| && (forall k | 0 <= k < i :: hits[k] < now - window)
    requires i < |hits| ==> now - window <= hits[i]
    ensures Full(h, window, limit, now) <==> |hits| - i >= limit
    ensures Full(h, window, limit, now) ==> RetryAfter(h, window, now) == hits[i] + window - now
    ensures !Full(h, window, limit, now) ==> Tracks(hits[i..] + [now], h + [now], window, limit, now)
  {
    PruneMore(hits, h, window, clock, i, now);
    CheckKeepsSpread(h, window, limit, now);
  }

  class User {
    const window: int
    const limit: nat
    var buckets: map<string, seq<int>>
    ghost var admitted: map<string, seq<int>>
    ghost var clock: int

    ghost function History(user: string): seq<int>
      reads this
    {
      if user in admitted then admitted[user] else []
    }

    ghost predicate Valid()
      reads this
    {
      && 0 < window && 0 < limit
      && buckets.Keys == admitted.Keys
      && forall u | u in buckets :: Tracks(buckets[u], admitted[u], window, limit, clock)
    }

    constructor (window: int, limit: int, now: int)
      ensures Valid() && admitted == map[] && clock == now
      ensures this.window == (if window <= 0 then 60 * SECOND else window)
      ensures this.limit == (if limit <= 0 then 120 else limit)
    {
      this.window := if window <= 0 then 60 * SECOND else window;
      this.limit := if limit <= 0 then 120 else limit;
      buckets, admitted, clock := map[], map[], now;
    }

    /** Any user's history is spread, so what is proved of spread histories holds of it. */
    lemma HistoryIsSpread(user: string)
      requires Valid()
      ensures limit > 0 && Spread(History(user), window, limit) && UpTo(History(user), clock)
    {
    }

    /** Denies exactly when the full history has `limit` admissions in [now - window, now]. */
    method Check(user: string, now: int) returns (retryAfter: int, ok: bool)
      requires Valid() && clock <= now
      modifies this
      ensures Valid() && clock == now
      ensures ok == !Full(old(History(user)), window, limit, now)
      ensures admitted == if ok then old(admitted)[user := old(History(user)) + [now]] else old(admitted)
      ensures ok ==> retryAfter == 0
      ensures !ok ==> retryAfter == RetryAfter(old(History(user)), window, now)
    {
      var cutoff := now - window;
      var hits := if user in buckets then buckets[user] else [];
      var i := FirstInWindow(hits, cutoff);
      ghost var h := History(user);
      CheckTracks(hits, h, window, limit, clock, i, now);
      hits := hits[i..];
      Advance(now);
      if |hits| >= limit {
        return hits[0] + window - now, false;
      }
      hits := hits + [now];
      buckets := buckets[user := hits];
      admitted := admitted[user := h + [now]];
      return 0, true;
    }

    method FirstInWindow(hits: seq<int>, cutoff: int) returns (i: nat)
      ensures i <= |hits| && (forall k | 0 <= k < i :: hits[k] < cutoff)
      ensures i < |hits| ==> cutoff <= hits[i]
    {
      i := 0;
      while i < |hits| && hits[i] < cutoff
        invariant 0 <= i <= |hits|
        invariant forall k | 0 <= k < i :: hits[k] < cutoff
      {
        i := i + 1;
      }
    }

    ghost method Advance(now: int)
      requires Valid() && clock <= now
      modifies this`clock
      ensures Valid() && clock == now
    {
      forall u | u in buckets ensures Tracks(buckets[u], admitted[u], window, limit, now) {
        BucketLater(buckets[u], admitted[u], window, clock, now);
      }
      clock := now;
    }
  }

  /** Pruning a pruned bucket up to the cutoff leaves exactly the window. */
  lemma PruneMore(hits: seq<int>, h: seq<int>, window: int, clock: int, i: nat, now: int)
    requires BucketOf(hits, h, window, clock) && clock <= now && window > 0
    requires i <= |hits| && (forall k | 0 <= k < i :: hits[k] < now - window)
    requires i < |hits| ==> now - window <= hits[i]
    ensures BucketOf(hits[i..] + [now], h + [now], window, now)
    ensures Count(h, now - window, now) == |hits| - i
    ensures i < |hits| ==> RetryAfter(h, window, now) == hits[i] + window - now
  {
    PrunedWindow(hits, h, window, clock, i, now);
    PrunedBucket(hits, h, window, clock, i, now);
  }

  lemma PrunedWindow(hits: seq<int>, h: seq<int>, window: int, clock: int, i: nat, now: int)
    requires BucketOf(hits, h, window, clock) && clock <= now && window > 0
    requires i <= |hits| && (forall k | 0 <= k < i :: hits[k] < now - window)
    requires i < |hits| ==> now - window <= hits[i]
    ensures Count(h, now - window, now) == |hits| - i
    ensures i < |hits| ==> RetryAfter(h, window, now) == hits[i] + window - now
  {
    FirstIn(hits, h, i, now - window);
    CountSorted(h, now - window, now, |h| - |hits| + i);
  }

  lemma PrunedBucket(hits: seq<int>, h: seq<int>, window: int, clock: int, i: nat, now: int)
    requires BucketOf(hits, h, window, clock) && clock <= now && window > 0
    requires i <= |hits| && (forall k | 0 <= k < i :: hits[k] < now - window)
    requires i < |hits| ==> now - window <= hits[i]
    ensures BucketOf(hits[i..] + [now], h + [now], window, now)
  {
    var first := |h| - |hits| + i;
    FirstIn(hits, h, i, now - window);
    assert h[first..] == hits[i..];
    AppendedBucket(hits[i..], h, window, now, first);
  }

  lemma AppendedBucket(bucket: seq<int>, h: seq<int>, window: int, now: int, first: nat)
    requires first <= |h| && bucket == h[first..] && Sorted(h) && UpTo(h, now)
    requires forall k | 0 <= k < first :: h[k] < now - window
    ensures BucketOf(bucket + [now], h + [now], window, now)
  {
    Appended(bucket, h, now, first);
    Rebucketed(bucket + [now], h + [now], window, now, first);
  }

  lemma Rebucketed(bucket: seq<int>, h: seq<int>, window: int, clock: int, first: nat)
    requires first <= |h| && bucket == h[first..] && Sorted(h) && UpTo(h, clock)
    requires forall k | 0 <= k < first :: h[k] < clock - window
    ensures BucketOf(bucket, h, window, clock)
  {
  }

  /** The window begins in the history where it begins in the bucket. */
  lemma FirstIn(hits: seq<int>, h: seq<int>, i: nat, cutoff: int)
    requires Sorted(h) && |hits| <= |h| && hits == h[|h| - |hits|..] && i <= |hits|
    requires (forall k | 0 <= k < |h| - |hits| :: h[k] < cutoff) && (forall k | 0 <= k < i :: hits[k] < cutoff)
    requires i < |hits| ==> cutoff <= hits[i]
    ensures var first := |h| - |hits| + i;
            (forall k | 0 <= k < first :: h[k] < cutoff) && forall k | first <= k < |h| :: cutoff <= h[k]
  {
    var n := |h| - |hits|;
    forall k | n <= k < |h| ensures h[k] == hits[k - n] {}
  }

  lemma Appended(bucket: seq<int>, h: seq<int>, now: int, first: nat)
    requires first <= |h| && bucket == h[first..] && Sorted(h) && UpTo(h, now)
    ensures bucket + [now] == (h + [now])[first..] && Sorted(h + [now])
    ensures forall k | 0 <= k < first :: (h + [now])[k] == h[k]
  {
  }

  // ---------------------------------------------------------------------------------
  // What the window promises over whole runs of one user.

  /** All checks of one user, at the given instants. */
  function Admissions(window: int, limit: nat, checks: seq<int>): seq<int> {
    if checks == [] then []
    else AfterCheck(Admissions(window, limit, checks[..|checks| - 1]), window, limit, checks[|checks| - 1])
  }

  predicate FarApart(h: seq<int>, window: int, limit: nat, i: nat) {
    i + limit < |h| ==> h[i + limit] - h[i] > window
  }

  /** Any limit + 1 consecutive admissions span more than a window. */
  ghost predicate Spread(h: seq<int>, window: int, limit: nat) {
    Sorted(h) && forall i: nat | i < |h| :: FarApart(h, window, limit, i)
  }

  lemma {:induction false} CountAtLeast(h: seq<int>, lo: int, hi: int, i: nat)
    requires i <= |h| && forall k | i <= k < |h| :: lo <= h[k] <= hi
    ensures Count(h, lo, hi) >= |h| - i
  {
    if i < |h| { CountAtLeast(h[..|h| - 1], lo, hi, i); }
  }

  lemma CheckKeepsSpread(h: seq<int>, window: int, limit: nat, now: int)
    requires limit > 0 && Spread(h, window, limit) && UpTo(h, now)
    ensures Spread(AfterCheck(h, window, limit, now), window, limit)
  {
    if !Full(h, window, limit, now) {
      var all := h + [now];
      forall i: nat | i < |all| ensures FarApart(all, window, limit, i) {
        if i + limit < |h| {
          assert FarApart(h, window, limit, i);
        } else if i + limit == |h| && now - h[i] <= window {
          CountAtLeast(h, now - window, now, i);
        }
      }
    }
  }

  lemma {:induction false} AdmissionsSpread(window: int, limit: nat, checks: seq<int>, now: int)
    requires limit > 0 && Sorted(checks) && UpTo(checks, now)
    ensures var h := Admissions(window, limit, checks);
            Spread(h, window, limit) && UpTo(h, now)
  {
    if checks != [] {
      var before, last := checks[..|checks| - 1], checks[|checks| - 1];
      AdmissionsSpread(window, limit, before, last);
      CheckKeepsSpread(Admissions(window, limit, before), window, limit, last);
    }
  }

  /** The admission `limit` places back is at most a window old. */
  predicate Crowded(h: seq<int>, window: int, limit: nat, now: int) {
    |h| >= limit > 0 && now - h[|h| - limit] <= window
  }

  /** Who is let in, and that nobody is turned away without need: over any run of checks, the next one
      is denied exactly when the admission `limit` places back is at most a window old. */
  lemma DeniedIff(window: int, limit: nat, checks: seq<int>, now: int)
    requires limit > 0 && Sorted(checks) && UpTo(checks, now)
    ensures var h := Admissions(window, limit, checks);
            Admissions(window, limit, checks + [now]) == if Crowded(h, window, limit, now) then h else h + [now]
  {
    var h := Admissions(window, limit, checks);
    assert Full(h, window, limit, now) <==> Crowded(h, window, limit, now) by {
      AdmissionsSpread(window, limit, checks, now);
      FullIff(h, window, limit, now);
    }
    AdmissionsSnoc(window, limit, checks, now);
  }

  lemma AdmissionsSnoc(window: int, limit: nat, checks: seq<int>, now: int)
    ensures Admissions(window, limit, checks + [now])
            == AfterCheck(Admissions(window, limit, checks), window, limit, now)
  {
    assert (checks + [now])[..|checks|] == checks;
  }

  lemma FullIff(h: seq<int>, window: int, limit: nat, now: int)
    requires limit > 0 && Sorted(h) && UpTo(h, now)
    ensures Full(h, window, limit, now) <==> Crowded(h, window, limit, now)
  {
    if |h| >= limit {
      if now - h[|h| - limit] <= window {
        CountAtLeast(h, now - window, now, |h| - limit);
      } else {
        CountBelow(h, now - window, now, |h| - limit + 1);
      }
    }
  }

  lemma SpreadPrefix(h: seq<int>, window: int, limit: nat, n: nat)
    requires Spread(h, window, limit) && n <= |h|
    ensures Spread(h[..n], window, limit)
  {
    forall i: nat | i < n ensures FarApart(h[..n], window, limit, i) {
      assert FarApart(h, window, limit, i);
    }
  }

  lemma {:induction false} CountInSpread(h: seq<int>, window: int, limit: nat, lo: int)
    requires Spread(h, window, limit) && limit > 0
    ensures Count(h, lo, lo + window) <= limit
  {
    if |h| > limit {
      var n := |h| - 1;
      SpreadPrefix(h, window, limit, n);
      CountInSpread(h[..n], window, limit, lo);
      if lo <= h[n] <= lo + window {
        assert FarApart(h, window, limit, n - limit);
        CountBelow(h[..n], lo, lo + window, n - limit + 1);
      }
    } else {
      CountBelow(h, lo, lo + window, 0);
    }
  }

  lemma {:induction false} CountBelow(h: seq<int>, lo: int, hi: int, i: nat)
    requires i <= |h| && forall k | 0 <= k < i :: h[k] < lo
    ensures Count(h, lo, hi) <= |h| - i
  {
    if h != [] { CountBelow(h[..|h| - 1], lo, hi, if i == |h| then i - 1 else i); }
  }

  /** Every closed interval as long as the window holds at most `limit` admissions. */
  lemma WindowNeverOverfull(window: int, limit: nat, checks: seq<int>, lo: int)
    requires limit > 0 && Sorted(checks)
    ensures Count(Admissions(window, limit, checks), lo, lo + window) <= limit
  {
    if checks != [] { AdmissionsSpread(window, limit, checks, checks[|checks| - 1]); }
    CountInSpread(Admissions(window, limit, checks), window, limit, lo);
  }

  /** retryAfter is exact: with nothing admitted meanwhile, the user stays denied up to and
      including now + retryAfter and is let in at every instant after that. It is never more
      than a window, and zero exactly when the oldest hit is as old as the window. */
  lemma RetryIsExact(h: seq<int>, window: int, limit: nat, now: int, later: int)
    requires limit > 0 && Spread(h, window, limit) && UpTo(h, now)
    requires Full(h, window, limit, now) && now <= later
    ensures var retry := RetryAfter(h, window, now);
            && (Full(h, window, limit, later) <==> later <= now + retry)
            && 0 <= retry <= window
            && (retry == 0 <==> (now - window) in h)
  {
    var k := OldestIn(h, now - window, now);
    CountSorted(h, now - window, now, k);
    AtMostLimit(h, window, limit, k);
    if later <= h[k] + window {
      CountAtLeast(h, later - window, later, k);
    } else {
      CountBelow(h, later - window, later, k + 1);
    }
  }

  lemma AtMostLimit(h: seq<int>, window: int, limit: nat, k: nat)
    requires limit > 0 && Spread(h, window, limit) && k < |h| && h[|h| - 1] - h[k] <= window
    ensures |h| - k <= limit
  {
    if |h| > limit { assert FarApart(h, window, limit, |h| - 1 - limit); }
  }

  /** In a sorted list the instants from a cutoff on are a suffix. */
  lemma {:induction false} OldestIn(h: seq<int>, lo: int, hi: int) returns (k: nat)
    requires Sorted(h) && UpTo(h, hi)
    ensures k <= |h| && (forall j | 0 <= j < k :: h[j] < lo) && forall j | k <= j < |h| :: lo <= h[j] <= hi
  {
    if h == [] || h[|h| - 1] < lo {
      k := |h|;
    } else {
      k := OldestIn(h[..|h| - 1], lo, hi);
    }
  }

  /** The whole seconds the proxy sends with a denial (RFC 9110, section 10.2.3). */
  function RetryAfterSeconds(retry: int): int {
    retry / SECOND + 1
  }

  /** Waiting the seconds that were sent is enough, if nothing is admitted meanwhile, and a second less
      is not. */
  lemma HeaderSuffices(h: seq<int>, window: int, limit: nat, now: int)
    requires limit > 0 && Spread(h, window, limit) && UpTo(h, now)
    requires Full(h, window, limit, now)
    ensures var seconds := RetryAfterSeconds(RetryAfter(h, window, now));
            && !Full(h, window, limit, now + seconds * SECOND)
            && Full(h, window, limit, now + (seconds - 1) * SECOND)
  {
    var retry := RetryAfter(h, window, now);
    RetryIsExact(h, window, limit, now, now);
    RetryIsExact(h, window, limit, now, now + RetryAfterSeconds(retry) * SECOND);
    RetryIsExact(h, window, limit, now, now + (RetryAfterSeconds(retry) - 1) * SECOND);
  }
}
