/** The retry budget: a key whose callback keeps failing with an ordinary error is invoked once per
    attempt up to the limit, and then dead-lettered. */
module Retry {
  import opened Wrappers
  import opened Text
  import opened Timestamp
  import opened Workqueue
  import opened Bucket
  import opened Dispatcher
  import opened Refinement
  import Gcs
  import Inmem

  /** A round that finds the key eligible launches it and its callback fails. */
  function FailingRound(s: Inmem.State, key: string, maxRetry: int, now: Time): (Inmem.State, Option<int>) {
    if key in s.queue && !(now < s.queue[key].notBefore) then
      AfterProcess(s, Inmem.Handle(Inmem.Candidate(key, s.queue[key])), Failed, maxRetry, now)
    else (s, None)
  }

  /** Rounds at the given times, and the attempts their callbacks were invoked with. */
  function FailingRun(s: Inmem.State, key: string, maxRetry: int, times: seq<Time>): (Inmem.State, seq<int>) {
    if times == [] then (s, [])
    else
      var (before, log) := FailingRun(s, key, maxRetry, times[..|times| - 1]);
      var (after, invoked) := FailingRound(before, key, maxRetry, times[|times| - 1]);
      (after, if invoked.Some? then log + [invoked.value] else log)
  }

  predicate Waiting(s: Inmem.State, key: string, attempts: int) {
    key in s.queue && key !in s.wip && s.queue[key].attempts == attempts
  }

  predicate Gone(s: Inmem.State, key: string) {
    key !in s.queue && key !in s.wip
  }

  /** The numbers 1 to n. */
  function UpTo(n: nat): (r: seq<int>)
    ensures |r| == n && forall i | 0 <= i < n :: r[i] == i + 1
  {
    seq(n, i => i + 1)
  }

  /** One effective round: the attempt goes up by one; below the limit the key waits for its backoff,
      at the limit it is gone. */
  lemma RoundCountsAttempt(s: Inmem.State, key: string, maxRetry: int, now: Time, attempts: nat)
    requires maxRetry > attempts && Waiting(s, key, attempts) && now >= s.queue[key].notBefore
    ensures FailingRound(s, key, maxRetry, now).1 == Some(attempts + 1)
    ensures var (after, priority) := (FailingRound(s, key, maxRetry, now).0, s.queue[key].priority);
            if attempts + 1 == maxRetry then Gone(after, key)
            else
              && Waiting(after, key, attempts + 1)
              && after.queue[key] == Inmem.QueueItem(priority, if priority > 0 then now + Backoff(attempts + 1) else 0,
                                                     attempts + 1, now)
  {
    hide Backoff;
  }

  /** Whatever the times of the rounds: the i-th invocation carries attempt i, there are never more
      than `maxRetry`, and the key is gone exactly when that many have happened. */
  lemma {:induction false} RetryBudget(s: Inmem.State, key: string, maxRetry: int, times: seq<Time>)
    requires maxRetry > 0 && Waiting(s, key, 0)
    ensures var (after, log) := FailingRun(s, key, maxRetry, times);
            && |log| <= maxRetry && log == UpTo(|log|)
            && if |log| == maxRetry then Gone(after, key) else Waiting(after, key, |log|)
  {
    hide FailingRound;
    if times != [] {
      var (before, log) := FailingRun(s, key, maxRetry, times[..|times| - 1]);
      var now := times[|times| - 1];
      RetryBudget(s, key, maxRetry, times[..|times| - 1]);
      if |log| < maxRetry && now >= before.queue[key].notBefore {
        RoundCountsAttempt(before, key, maxRetry, now, |log|);
      } else {
        IdleRound(before, key, maxRetry, now);
      }
    }
  }

  lemma IdleRound(s: Inmem.State, key: string, maxRetry: int, now: Time)
    requires key in s.queue ==> now < s.queue[key].notBefore
    ensures FailingRound(s, key, maxRetry, now) == (s, None)
  {
  }

  /** Rounds far enough apart that every backoff is over at the next one. */
  predicate Spaced(s: Inmem.State, key: string, times: seq<Time>)
    requires key in s.queue
  {
    && (|times| > 0 ==> 0 <= times[0] && s.queue[key].notBefore <= times[0])
    && (forall i | 0 < i < |times| :: times[i - 1] + MAXIMUM_BACKOFF_PERIOD <= times[i])
  }

  /** Then every round invokes the callback until the budget is used up: exactly `maxRetry` times, if
      there are that many rounds. */
  lemma {:induction false} BudgetIsUsed(s: Inmem.State, key: string, maxRetry: int, times: seq<Time>)
    requires maxRetry > 0 && Waiting(s, key, 0) && Spaced(s, key, times)
    ensures var (after, log) := FailingRun(s, key, maxRetry, times);
            && log == UpTo(if |times| < maxRetry then |times| else maxRetry)
            && (|times| >= maxRetry ==> Gone(after, key))
            && (0 < |times| < maxRetry ==>
                  key in after.queue && after.queue[key].notBefore <= times[|times| - 1] + MAXIMUM_BACKOFF_PERIOD)
    ensures forall i | 0 <= i < |times| :: 0 <= times[i]
  {
    hide FailingRound;
    RetryBudget(s, key, maxRetry, times);
    if times != [] {
      var n := |times| - 1;
      var (before, log) := FailingRun(s, key, maxRetry, times[..n]);
      BudgetIsUsed(s, key, maxRetry, times[..n]);
      RetryBudget(s, key, maxRetry, times[..n]);
      if n > 0 {
        assert times[..n][n - 1] == times[n - 1];
        assert times[n - 1] + MAXIMUM_BACKOFF_PERIOD <= times[n];
      } else {
        assert times[..n] == [];
      }
      if |log| < maxRetry {
        assert times[n] >= before.queue[key].notBefore;
        RoundCountsAttempt(before, key, maxRetry, times[n], |log|);
        BackoffCapped(|log| + 1);
      } else {
        IdleRound(before, key, maxRetry, times[n]);
      }
    }
  }

  lemma BackoffCapped(attempts: int)
    ensures Backoff(attempts) <= MAXIMUM_BACKOFF_PERIOD
  {
  }

  // The same budget on the bucket

  function GcsFailingRound(s: Store, key: string, maxRetry: int, now: Time): (Store, Option<int>) {
    if Queued(key) in s.objects && !Gcs.Delayed(s.objects[Queued(key)].meta, now) then
      AfterGcsProcess(s, Gcs.Listed(key, s.objects[Queued(key)]), Failed, maxRetry, now)
    else (s, None)
  }

  function GcsFailingRun(s: Store, key: string, maxRetry: int, times: seq<Time>): (Store, seq<int>) {
    if times == [] then (s, [])
    else
      var (before, log) := GcsFailingRun(s, key, maxRetry, times[..|times| - 1]);
      var (after, invoked) := GcsFailingRound(before, key, maxRetry, times[|times| - 1]);
      (after, if invoked.Some? then log + [invoked.value] else log)
  }

  /** Whole seconds early enough that the longest backoff is still printable. */
  predicate RoundTime(now: Time) {
    WholeSecond(now) && InRange(now + MAXIMUM_BACKOFF_PERIOD)
  }

  lemma AttemptsShown(o: Obj, k: Inmem.OwnedKey)
    requires ShowsOwnedKey(o, k)
    ensures Gcs.AttemptsOf(o.meta) == k.attempts
  {
    hide Itoa, Atoi, PadInt, FormatTime;
    AtoiInvertsItoa(k.attempts);
  }

  /** A failing round does the same on both queues, and at the limit leaves a dead letter. */
  lemma FailingRoundRefines(s: Store, m: Inmem.State, key: string, maxRetry: int, now: Time)
    requires Represents(s, m) && RoundTime(now)
    requires key in m.queue ==> (m.queue[key].attempts + 1) * BACKOFF_PERIOD < TWO_63
    ensures var ((s', i), (m', i')) := (GcsFailingRound(s, key, maxRetry, now), FailingRound(m, key, maxRetry, now));
            && i == i' && Represents(s', m')
            && (i.Some? && 0 < maxRetry <= i.value ==> DeadLetter(key) in s'.objects)
            && (DeadLetter(key) in s.objects ==> DeadLetter(key) in s'.objects)
  {
    hide Gcs.Delayed, Gcs.PriorityOf, Gcs.AttemptsOf, Gcs.AfterStart, Gcs.AfterRequeue, Gcs.AfterDeadletter, Shows,
      ShowsItem, Inmem.AfterRequeue, WholeSecond, Represents;
    if key in m.queue {
      ItemShown(s, m, key, now);
      var c := Gcs.Listed(key, s.objects[Queued(key)]);
      var k := Inmem.Handle(Inmem.Candidate(key, m.queue[key]));
      StartRefines(s, m, c.attrs, k, now);
      if Inmem.AfterStart(m, k).Some? && !(now < m.queue[key].notBefore) {
        var (store, attrs) := Gcs.AfterStart(s, key, c.attrs, now).value;
        var (started, owned) := Inmem.AfterStart(m, k).value;
        AttemptsShown(attrs, owned);
        FinishRefines(store, started, attrs, owned, now);
        PlainRequeueHolds(owned, now);
        PlainRequeueAgrees(started, owned, now);
        RequeueRefines(store, started, attrs, owned, NO_OPTIONS, now);
        DeadLettersStay(s, key, c.attrs, now);
        DeadLettersStayOnRequeue(store, key, attrs, now);
      }
    } else {
      NotQueued(s, m, key);
    }
  }

  lemma PlainRequeueHolds(k: Inmem.OwnedKey, now: Time)
    requires RoundTime(now) && k.attempts * BACKOFF_PERIOD < TWO_63
    ensures PrintableRequeue(k, NO_OPTIONS, now)
  {
  }

  /** A requeue without options is one the two queues agree on. */
  lemma PlainRequeueAgrees(m: Inmem.State, k: Inmem.OwnedKey, now: Time)
    ensures !RequeuesDiffer(m, k, NO_OPTIONS, now)
  {
    hide Backoff, PadInt, Itoa, StrLess;
  }

  lemma ItemShown(s: Store, m: Inmem.State, key: string, now: Time)
    requires Represents(s, m) && key in m.queue
    ensures Queued(key) in s.objects
            && ShowsQueuedKey(s.objects[Queued(key)], Inmem.Handle(Inmem.Candidate(key, m.queue[key])))
    ensures Gcs.Delayed(s.objects[Queued(key)].meta, now) <==> now < m.queue[key].notBefore
    ensures Gcs.PriorityOf(s.objects[Queued(key)].meta) == m.queue[key].priority
  {
    hide Gcs.Delayed, Gcs.PriorityOf, Shows;
    DelayedRefines(s.objects[Queued(key)], m.queue[key], now);
  }

  lemma NotQueued(s: Store, m: Inmem.State, key: string)
    requires Represents(s, m) && key !in m.queue
    ensures Queued(key) !in s.objects
  {
    hide Shows;
  }

  lemma DeadLettersStay(s: Store, key: string, attrs: Obj, now: Time)
    requires Gcs.AfterStart(s, key, attrs, now).Some?
    ensures var (store, o) := Gcs.AfterStart(s, key, attrs, now).value;
            && (DeadLetter(key) in s.objects ==> DeadLetter(key) in store.objects)
            && InProgress(key) in store.objects
            && DeadLetter(key) in Gcs.AfterDeadletter(store, key, o, now).value.objects
  {
    hide Gcs.StartMeta, Gcs.DeadMeta;
  }

  lemma DeadLettersStayOnRequeue(s: Store, key: string, attrs: Obj, now: Time)
    requires Gcs.AfterRequeue(s, key, attrs, NO_OPTIONS, now).Some?
    ensures DeadLetter(key) in s.objects ==>
              DeadLetter(key) in Gcs.AfterRequeue(s, key, attrs, NO_OPTIONS, now).value.objects
  {
    hide Gcs.RequeueMeta, Gcs.HasOptions, Gcs.Updates, Gcs.Merge;
  }

  /** The runs agree, so the budget is the same, and it ends in `dead-letter/`. */
  lemma {:induction false} GcsRetryBudget(s: Store, m: Inmem.State, key: string, maxRetry: int, times: seq<Time>)
    requires Represents(s, m) && maxRetry > 0 && Waiting(m, key, 0) && maxRetry * BACKOFF_PERIOD < TWO_63
    requires forall i | 0 <= i < |times| :: RoundTime(times[i])
    ensures var ((s', log), (m', log')) := (GcsFailingRun(s, key, maxRetry, times),
                                            FailingRun(m, key, maxRetry, times));
            && log == log' == UpTo(|log|) && |log| <= maxRetry
            && Represents(s', m')
            && (|log| == maxRetry ==>
                  DeadLetter(key) in s'.objects && Queued(key) !in s'.objects && InProgress(key) !in s'.objects)
            && (|log| < maxRetry ==> Queued(key) in s'.objects && InProgress(key) !in s'.objects)
  {
    hide FailingRound, GcsFailingRound, Represents, RoundTime;
    RetryBudget(m, key, maxRetry, times);
    if times != [] {
      var n := |times| - 1;
      GcsRetryBudget(s, m, key, maxRetry, times[..n]);
      RetryBudget(m, key, maxRetry, times[..n]);
      var before, before' := GcsFailingRun(s, key, maxRetry, times[..n]).0, FailingRun(m, key, maxRetry, times[..n]).0;
      assert RoundTime(times[n]);
      FailingRoundRefines(before, before', key, maxRetry, times[n]);
      var log, invoked := FailingRun(m, key, maxRetry, times).1, FailingRound(before', key, maxRetry, times[n]).1;
      assert invoked.Some? ==> log[|log| - 1] == invoked.value == |log|;
      AfterRun(GcsFailingRun(s, key, maxRetry, times).0, FailingRun(m, key, maxRetry, times).0, key);
    } else {
      AfterRun(s, m, key);
    }
  }

  lemma AfterRun(s: Store, m: Inmem.State, key: string)
    requires Represents(s, m)
    ensures Queued(key) in s.objects <==> key in m.queue
    ensures InProgress(key) in s.objects <==> key in m.wip
  {
    hide ShowsItem;
  }
}
