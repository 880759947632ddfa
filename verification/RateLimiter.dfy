/** The login throttle: a sliding window of failures for each key, against the whole history. */
module RateLimiter {

  function FailuresOf(failures: map<string, seq<real>>, key: string): seq<real> {
    if key in failures then failures[key] else []
  }

  function Kept(times: seq<real>, cutoff: real): seq<real> {
    if |times| == 0 then []
    else Kept(times[..|times| - 1], cutoff) + if times[|times| - 1] > cutoff then [times[|times| - 1]] else []
  }

  function Pruned(failures: map<string, seq<real>>, key: string, cutoff: real): map<string, seq<real>> {
    var recent := Kept(FailuresOf(failures, key), cutoff);
    if recent == [] then failures - {key} else failures[key := recent]
  }

  /** What callers ask of the limiter.  Recording reads the clock twice, to prune and to note the failure. */
  datatype Call = Ask(key: string, now: real) | Record(key: string, pruned: real, now: real) | Reset(key: string)

  function Next(window: real, failures: map<string, seq<real>>, call: Call): map<string, seq<real>> {
    match call
    case Ask(key, now) => Pruned(failures, key, now - window)
    case Record(key, pruned, now) =>
      failures[key := Kept(FailuresOf(failures, key), pruned - window) + [now]]
    case Reset(key) => failures - {key}
  }

  class LoginRateLimiter {
    const maxAttempts: int
    const window: real
    var failures: map<string, seq<real>>

    constructor (maxAttempts: int, window: real)
      ensures this.maxAttempts == maxAttempts && this.window == window && failures == map[]
    {
      this.maxAttempts, this.window, failures := maxAttempts, window, map[];
    }

    method Prune(key: string, now: real) returns (recent: seq<real>)
      modifies this
      ensures failures == Pruned(old(failures), key, now - window)
      ensures recent == FailuresOf(failures, key)
    {
      var cutoff := now - window;
      var all := FailuresOf(failures, key);
      recent := [];
      for i := 0 to |all|
        invariant recent == Kept(all[..i], cutoff)
      {
        assert all[..i + 1][..i] == all[..i];
        if all[i] > cutoff {
          recent := recent + [all[i]];
        }
      }
      assert all[..|all|] == all;
      if recent != [] {
        failures := failures[key := recent];
      } else {
        failures := failures - {key};
      }
    }

    method Allowed(key: string, now: real) returns (ok: bool)
      modifies this
      ensures failures == Next(window, old(failures), Ask(key, now))
      ensures ok == (|Kept(FailuresOf(old(failures), key), now - window)| < maxAttempts)
    {
      var recent := Prune(key, now);
      ok := |recent| < maxAttempts;
    }

    method RecordFailure(key: string, pruned: real, now: real)
      modifies this
      ensures failures == Next(window, old(failures), Call.Record(key, pruned, now))
    {
      var recent := Prune(key, pruned);
      failures := failures[key := recent + [now]];
    }

    method Reset(key: string)
      modifies this
      ensures failures == Next(window, old(failures), Call.Reset(key))
    {
      failures := failures - {key};
    }
  }

  // ---- against the whole history ----------------------------------------------------------

  function After(window: real, calls: seq<Call>): map<string, seq<real>> {
    if |calls| == 0 then map[] else Next(window, After(window, calls[..|calls| - 1]), calls[|calls| - 1])
  }

  /** Every failure of a key since its last reset. */
  function History(calls: seq<Call>, key: string): seq<real> {
    if |calls| == 0 then []
    else
      var before, call := History(calls[..|calls| - 1], key), calls[|calls| - 1];
      if call.key != key then before
      else Extended(before, call)
  }

  function Extended(history: seq<real>, call: Call): seq<real> {
    match call
    case Ask(_, _) => history
    case Record(_, _, now) => history + [now]
    case Reset(_) => []
  }

  predicate NotBefore(calls: seq<Call>, now: real) {
    forall call :: call in calls ==> call.Reset? || call.now <= now
  }

  /** The clock never goes back. */
  ghost predicate Monotone(calls: seq<Call>) {
    |calls| > 0 ==>
      var before, call := calls[..|calls| - 1], calls[|calls| - 1];
      && Monotone(before)
      && (call.Ask? ==> NotBefore(before, call.now))
      && (call.Record? ==> NotBefore(before, call.pruned) && call.pruned <= call.now)
  }

  lemma {:induction false} KeptTwice(times: seq<real>, early: real, late: real)
    requires early <= late
    ensures Kept(Kept(times, early), late) == Kept(times, late)
  {
    if |times| > 0 {
      var front, last := times[..|times| - 1], times[|times| - 1];
      KeptTwice(front, early, late);
      if last > early {
        assert (Kept(front, early) + [last])[..|Kept(front, early)|] == Kept(front, early);
      } else {
        assert Kept(times, early) == Kept(front, early);
      }
    }
  }

  lemma {:induction false} KeptSnoc(times: seq<real>, now: real, cutoff: real)
    ensures Kept(times + [now], cutoff) == Kept(times, cutoff) + if now > cutoff then [now] else []
  {
    assert (times + [now])[..|times|] == times;
  }

  lemma {:induction false} CallAgrees(window: real, failures: map<string, seq<real>>, call: Call, history: seq<real>, now: real)
    requires call.Ask? ==> call.now <= now
    requires call.Record? ==> call.pruned <= call.now <= now
    requires Kept(FailuresOf(failures, call.key), now - window) == Kept(history, now - window)
    ensures Kept(FailuresOf(Next(window, failures, call), call.key), now - window) == Kept(Extended(history, call), now - window)
  {
    var were := FailuresOf(failures, call.key);
    match call
    case Ask(_, at) => KeptTwice(were, at - window, now - window);
    case Record(_, pruned, at) =>
      KeptTwice(were, pruned - window, now - window);
      KeptSnoc(Kept(were, pruned - window), at, now - window);
      KeptSnoc(history, at, now - window);
    case Reset(_) =>
  }

  lemma {:induction false} OtherKeysStay(window: real, failures: map<string, seq<real>>, call: Call, key: string)
    requires call.key != key
    ensures FailuresOf(Next(window, failures, call), key) == FailuresOf(failures, key)
  {
  }

  /** Pruning never shows: at any later time what counts is what counts in the whole history. */
  lemma {:induction false} PruningAgrees(window: real, calls: seq<Call>, key: string, now: real)
    requires Monotone(calls) && NotBefore(calls, now)
    ensures Kept(FailuresOf(After(window, calls), key), now - window) == Kept(History(calls, key), now - window)
  {
    if |calls| > 0 {
      var before, call := calls[..|calls| - 1], calls[|calls| - 1];
      assert call in calls;
      assert NotBefore(before, now);
      PruningAgrees(window, before, key, now);
      if call.key == key {
        CallAgrees(window, After(window, before), call, History(before, key), now);
      } else {
        OtherKeysStay(window, After(window, before), call, key);
      }
    }
  }

  /** The answer that `allowed` gives after these calls. */
  function Answer(maxAttempts: int, window: real, calls: seq<Call>, key: string, now: real): bool {
    |Kept(FailuresOf(After(window, calls), key), now - window)| < maxAttempts
  }

  function CallsOf(calls: seq<Call>, key: string): seq<Call> {
    if |calls| == 0 then []
    else CallsOf(calls[..|calls| - 1], key) + if calls[|calls| - 1].key == key then [calls[|calls| - 1]] else []
  }

  lemma {:induction false} HistoryOfOwnCalls(calls: seq<Call>, key: string)
    ensures History(CallsOf(calls, key), key) == History(calls, key)
    ensures forall call :: call in CallsOf(calls, key) ==> call in calls
  {
    if |calls| > 0 {
      var before, call := calls[..|calls| - 1], calls[|calls| - 1];
      HistoryOfOwnCalls(before, key);
      assert call.key == key ==> CallsOf(calls, key)[..|CallsOf(before, key)|] == CallsOf(before, key);
      assert call.key != key ==> CallsOf(calls, key) == CallsOf(before, key);
    }
  }

  lemma {:induction false} OwnCallsMonotone(calls: seq<Call>, key: string)
    requires Monotone(calls)
    ensures Monotone(CallsOf(calls, key))
  {
    if |calls| > 0 {
      var before, call := calls[..|calls| - 1], calls[|calls| - 1];
      OwnCallsMonotone(before, key);
      HistoryOfOwnCalls(before, key);
      assert call.key == key ==> CallsOf(calls, key)[..|CallsOf(before, key)|] == CallsOf(before, key);
      assert call.key != key ==> CallsOf(calls, key) == CallsOf(before, key);
    }
  }

  /** With a monotone clock the answer is that of the whole history, and no other key counts. */
  lemma {:induction false} AnswerAgrees(maxAttempts: int, window: real, calls: seq<Call>, key: string, now: real)
    requires Monotone(calls) && NotBefore(calls, now)
    ensures Answer(maxAttempts, window, calls, key, now) <==> |Kept(History(calls, key), now - window)| < maxAttempts
    ensures Answer(maxAttempts, window, calls, key, now) == Answer(maxAttempts, window, CallsOf(calls, key), key, now)
  {
    PruningAgrees(window, calls, key, now);
    OwnCallsMonotone(calls, key);
    HistoryOfOwnCalls(calls, key);
    PruningAgrees(window, CallsOf(calls, key), key, now);
  }

  /** The dictionary never holds an empty list: a key is forgotten once nothing of it counts. */
  lemma {:induction false} NoEmptyEntries(window: real, calls: seq<Call>, key: string)
    requires key in After(window, calls)
    ensures After(window, calls)[key] != []
  {
    if |calls| > 0 {
      var before := After(window, calls[..|calls| - 1]);
      if key in before {
        NoEmptyEntries(window, calls[..|calls| - 1], key);
      }
    }
  }

  lemma {:induction false} KeptAreLater(times: seq<real>, cutoff: real)
    ensures forall t :: t in Kept(times, cutoff) ==> t > cutoff && t in times
  {
    if |times| > 0 {
      KeptAreLater(times[..|times| - 1], cutoff);
    }
  }

  /** After a question or a record nothing is stored of the key but what was inside the window then, and the
      failure just recorded. */
  lemma {:induction false} StoredAreRecent(window: real, calls: seq<Call>)
    requires |calls| > 0 && !calls[|calls| - 1].Reset?
    ensures var call := calls[|calls| - 1];
            var asked := if call.Ask? then call.now else call.pruned;
            forall t :: t in FailuresOf(After(window, calls), call.key) ==> t > asked - window || (call.Record? && t == call.now)
  {
    var call := calls[|calls| - 1];
    var were := FailuresOf(After(window, calls[..|calls| - 1]), call.key);
    KeptAreLater(were, (if call.Ask? then call.now else call.pruned) - window);
  }

  // ---- a caller that records only what was allowed ------------------------------------------

  /** Every failure of the key is recorded right after the limiter allowed it, and never reset. */
  ghost predicate Guarded(maxAttempts: int, window: real, calls: seq<Call>, key: string) {
    forall i: nat :: i < |calls| ==> GuardedAt(maxAttempts, window, calls, key, i)
  }

  predicate GuardedAt(maxAttempts: int, window: real, calls: seq<Call>, key: string, i: nat)
    requires i < |calls|
  {
    calls[i].key == key ==>
      && !calls[i].Reset?
      && (calls[i].Record? ==>
            && i > 0 && calls[i - 1].Ask? && calls[i - 1].key == key
            && Answer(maxAttempts, window, calls[..i - 1], key, calls[i - 1].now))
  }

  lemma {:induction false} KeptTail(times: seq<real>, cutoff: real, from: nat)
    requires from <= |times| && forall k :: from <= k < |times| ==> times[k] > cutoff
    ensures |Kept(times, cutoff)| >= |times| - from
  {
    if from < |times| {
      KeptTail(times[..|times| - 1], cutoff, from);
    }
  }

  lemma {:induction false} FewKept(times: seq<real>, cutoff: real, limit: int)
    requires forall i, j :: 0 <= i <= j < |times| ==> times[i] <= times[j]
    requires |Kept(times, cutoff)| < limit
    ensures forall i :: 0 <= i && i + limit <= |times| ==> times[i] <= cutoff
  {
    forall i | 0 <= i && i + limit <= |times| ensures times[i] <= cutoff {
      if times[i] > cutoff {
        KeptTail(times, cutoff, i);
      }
    }
  }

  lemma {:induction false} HistoryAscends(calls: seq<Call>, key: string)
    requires Monotone(calls)
    ensures forall i, j :: 0 <= i <= j < |History(calls, key)| ==> History(calls, key)[i] <= History(calls, key)[j]
    ensures forall now :: NotBefore(calls, now) ==> forall i :: 0 <= i < |History(calls, key)| ==> History(calls, key)[i] <= now
  {
    if |calls| > 0 {
      var before, call := calls[..|calls| - 1], calls[|calls| - 1];
      HistoryAscends(before, key);
      assert call.Record? ==> NotBefore(before, call.now);
      forall now | NotBefore(calls, now)
        ensures forall i :: 0 <= i < |History(calls, key)| ==> History(calls, key)[i] <= now
      {
        assert NotBefore(before, now);
        assert calls[|calls| - 1].Reset? || calls[|calls| - 1].now <= now;
      }
    }
  }

  /** All but the last few of these times are a whole window ago. */
  ghost predicate LongAgo(times: seq<real>, few: int, window: real, now: real) {
    forall i :: 0 <= i < |times| && i + few <= |times| ==> times[i] + window <= now
  }

  /** Such a caller records at most `maxAttempts` times in any window: the record that many places later
      comes a whole window later, and with no attempts allowed none is made. */
  lemma {:induction false} AtMostMaxAttempts(maxAttempts: int, window: real, calls: seq<Call>, key: string)
    requires Monotone(calls) && Guarded(maxAttempts, window, calls, key)
    ensures maxAttempts <= 0 ==> History(calls, key) == []
    ensures forall i, j :: 0 <= i <= j < |History(calls, key)| && i + maxAttempts <= j ==>
              History(calls, key)[i] + window <= History(calls, key)[j]
  {
    if |calls| > 0 {
      var before, call := calls[..|calls| - 1], calls[|calls| - 1];
      GuardedBefore(maxAttempts, window, calls, key);
      AtMostMaxAttempts(maxAttempts, window, before, key);
      if call.key == key && call.Record? {
        RecordIsSpaced(maxAttempts, window, calls, key);
        var times, more := History(before, key), History(calls, key);
        assert more == times + [call.now];
        forall i, j | 0 <= i <= j < |more| && i + maxAttempts <= j ensures more[i] + window <= more[j] {
          if j < |times| {
            assert times[i] + window <= times[j];
          } else {
            assert LongAgo(times, maxAttempts, window, call.now);
          }
        }
      }
    }
  }

  /** One more call of the handler that was allowed: it asks and records at one time. */
  function Attempt(calls: seq<Call>, key: string, now: real): seq<Call> {
    calls + [Ask(key, now)] + [Call.Record(key, now, now)]
  }

  lemma {:induction false} AttemptTimes(calls: seq<Call>, key: string, now: real)
    requires Monotone(calls) && NotBefore(calls, now)
    ensures Monotone(Attempt(calls, key, now)) && NotBefore(Attempt(calls, key, now), now)
    ensures History(Attempt(calls, key, now), key) == History(calls, key) + [now]
  {
    var asked := calls + [Ask(key, now)];
    assert asked[..|asked| - 1] == calls;
    assert Attempt(calls, key, now)[..|asked|] == asked;
  }

  lemma {:induction false} AttemptGuarded(maxAttempts: int, window: real, calls: seq<Call>, key: string, now: real)
    requires Guarded(maxAttempts, window, calls, key) && Answer(maxAttempts, window, calls, key, now)
    ensures Guarded(maxAttempts, window, Attempt(calls, key, now), key)
  {
    var more, n := Attempt(calls, key, now), |calls|;
    forall i: nat | i < |more| ensures GuardedAt(maxAttempts, window, more, key, i) {
      if i < n {
        assert GuardedAt(maxAttempts, window, calls, key, i);
        assert more[i] == calls[i] && (i > 0 ==> more[i - 1] == calls[i - 1] && more[..i - 1] == calls[..i - 1]);
      } else {
        assert more[..n] == calls && more[n] == Ask(key, now);
      }
    }
  }

  /** The window is half-open: with one attempt allowed, a second failure exactly one window after the first
      is allowed and recorded, so the closed window between them holds two. */
  lemma {:induction false} ClosedWindowHoldsOneMore(window: real, key: string) returns (calls: seq<Call>)
    requires window >= 0.0
    ensures Monotone(calls) && Guarded(1, window, calls, key) && History(calls, key) == [0.0, window]
  {
    var first := Attempt([], key, 0.0);
    AttemptTimes([], key, 0.0);
    AnswerAgrees(1, window, [], key, 0.0);
    AttemptGuarded(1, window, [], key, 0.0);
    KeptSnoc([], 0.0, window - window);
    assert [] + [0.0] == [0.0];
    AnswerAgrees(1, window, first, key, window);
    calls := Attempt(first, key, window);
    AttemptTimes(first, key, window);
    AttemptGuarded(1, window, first, key, window);
  }

  lemma {:induction false} GuardedBefore(maxAttempts: int, window: real, calls: seq<Call>, key: string)
    requires |calls| > 0 && Guarded(maxAttempts, window, calls, key)
    ensures Guarded(maxAttempts, window, calls[..|calls| - 1], key)
  {
    var before := calls[..|calls| - 1];
    forall i: nat | i < |before| ensures GuardedAt(maxAttempts, window, before, key, i) {
      assert GuardedAt(maxAttempts, window, calls, key, i);
      assert i > 0 ==> before[..i - 1] == calls[..i - 1];
    }
  }

  lemma {:induction false} RecordIsSpaced(maxAttempts: int, window: real, calls: seq<Call>, key: string)
    requires Monotone(calls) && Guarded(maxAttempts, window, calls, key)
    requires |calls| > 0 && calls[|calls| - 1].Record? && calls[|calls| - 1].key == key
    ensures var times := History(calls[..|calls| - 1], key);
            maxAttempts > 0 && LongAgo(times, maxAttempts, window, calls[|calls| - 1].now)
  {
    var n := |calls| - 1;
    var before := calls[..n];
    assert GuardedAt(maxAttempts, window, calls, key, n);
    var ask := calls[n - 1];
    assert before[..n - 1] == calls[..n - 1] && before[n - 1] == ask;
    var times := History(before, key);
    PruningAgrees(window, calls[..n - 1], key, ask.now);
    HistoryAscends(before, key);
    FewKept(times, ask.now - window, maxAttempts);
  }
}
