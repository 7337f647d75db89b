/** What becomes of a launched key, on the maps and on the bucket, for every outcome of its callback, every
    number of attempts and every retry limit. */
module Outcomes {
  import opened Wrappers
  import opened Text
  import opened Timestamp
  import opened Workqueue
  import opened Bucket
  import opened Dispatcher
  import Entries
  import Gcs
  import Inmem

  /** The last attempt that the retry limit allows; without a limit there is none. */
  predicate LastAttempt(attempt: int, maxRetry: int) {
    maxRetry > 0 && attempt >= maxRetry
  }

  /** The callback asked for the key to be given up: it succeeded, or failed for good before the limit. */
  predicate IsDone(outcome: Outcome, attempt: int, maxRetry: int) {
    outcome.Succeeded? || (outcome.NonRetriable? && !LastAttempt(attempt, maxRetry))
  }

  predicate IsGivenUp(outcome: Outcome, attempt: int, maxRetry: int) {
    (outcome.NonRetriable? || outcome.Failed?) && LastAttempt(attempt, maxRetry)
  }

  /** When a key may be processed again: after the delay asked for, even at the retry limit, else after a
      backoff of so many periods if it has a priority, else at once. */
  predicate ComesBackAt(outcome: Outcome, attempt: int, priority: int, now: Time, notBefore: Time) {
    if outcome.RequeueAfter? && outcome.delay > 0 then notBefore == now + outcome.delay
    else if priority > 0 then
      && (-TWO_63 <= attempt * 30 * SECOND <= 10 * MINUTE ==> notBefore == now + attempt * 30 * SECOND)
      && (10 * MINUTE < attempt * 30 * SECOND < TWO_63 ==> notBefore == now + 10 * MINUTE)
    else notBefore == 0
  }

  // In memory

  /** A key that cannot be started is left alone and its callback is not invoked. Otherwise the callback is
      invoked with the next attempt, no other key is touched, and afterwards the key is gone, or queued
      again with its priority and its attempts. */
  lemma OutcomeInMemory(s: Inmem.State, k: Inmem.QueuedKey, outcome: Outcome, maxRetry: int, now: Time)
    ensures var (t, invoked) := AfterProcess(s, k, outcome, maxRetry, now);
            if k.key in s.wip || k.key !in s.queue then t == s && invoked == None
            else
              && invoked == Some(k.attempts + 1) && k.key !in t.wip && t.wip == s.wip
              && (forall o | o != k.key :: o in t.queue <==> o in s.queue)
              && (forall o | o != k.key && o in s.queue :: t.queue[o] == s.queue[o])
              && (k.key !in t.queue <==>
                  IsDone(outcome, k.attempts + 1, maxRetry) || IsGivenUp(outcome, k.attempts + 1, maxRetry))
              && (k.key in t.queue ==>
                    var item := t.queue[k.key];
                    && item.attempts == k.attempts + 1 && item.queued == now && item.priority == k.priority
                    && ComesBackAt(outcome, k.attempts + 1, k.priority, now, item.notBefore))
  {
    hide Wrap64;
    assert s.wip + {k.key} - {k.key} == if k.key in s.wip then s.wip - {k.key} else s.wip;
    assert BACKOFF_PERIOD == 30 * SECOND && MAXIMUM_BACKOFF_PERIOD == 10 * MINUTE;
  }

  // On the bucket

  /** Whether the bucket takes a key for one without a priority. */
  predicate Plain(m: Meta) {
    m.priority.None? || m.priority == Some(PadInt(0, 8))
  }

  /** The queued object after a requeue of what was started as `m`. */
  predicate BackInQueue(m: Meta, o: Obj, outcome: Outcome, attempt: int, now: Time) {
    && o.created == now && o.meta.lease.None?
    && Gcs.AttemptsOf(o.meta) == attempt && Gcs.PriorityOf(o.meta) == Gcs.PriorityOf(m)
    && (if outcome.RequeueAfter? && outcome.delay > 0 then Entries.ReadsAs(o.meta.notBefore, now + outcome.delay)
        else if Plain(m) then Entries.ReadsAs(o.meta.notBefore, 0)
        else
          && (-TWO_63 <= attempt * 30 * SECOND <= 10 * MINUTE ==>
                Entries.ReadsAs(o.meta.notBefore, now + attempt * 30 * SECOND))
          && (10 * MINUTE < attempt * 30 * SECOND < TWO_63 ==> Entries.ReadsAs(o.meta.notBefore, now + 10 * MINUTE)))
  }

  /** The dead letter of what was started as `m`. */
  predicate Buried(m: Meta, o: Obj, attempt: int, now: Time) {
    && o.created == now && o.meta.lease.None? && Entries.ReadsAs(o.meta.failedTime, now)
    && Gcs.AttemptsOf(o.meta) == attempt && o.meta.priority == m.priority
  }

  /** A listed key that cannot be started leaves the bucket alone and its callback is not invoked. Otherwise
      the callback is invoked with the next attempt, or the first after an unreadable count, objects of
      other keys stay as they are, and the key is in progress no more. If it is done, nothing of it is left,
      an old dead letter included; if it is given up, it is a dead letter and nothing else; otherwise it
      is queued again, and an old dead letter stays. */
  lemma OutcomeOnBucket(s: Store, c: Gcs.Candidate, outcome: Outcome, maxRetry: int, now: Time)
    requires c.priority == Gcs.PriorityOf(c.attrs.meta)
    ensures var (t, invoked) := AfterGcsProcess(s, c, outcome, maxRetry, now);
            var attempt := Gcs.AttemptsOf(c.attrs.meta) + 1;
            var (done, givenUp) := (IsDone(outcome, attempt, maxRetry), IsGivenUp(outcome, attempt, maxRetry));
            if Queued(c.key) !in s.objects || InProgress(c.key) in s.objects then t == s && invoked == None
            else
              && invoked == Some(attempt)
              && OthersStay(s.objects, t.objects, c.key)
              && InProgress(c.key) !in t.objects
              && (Queued(c.key) in t.objects <==> !done && !givenUp)
              && (DeadLetter(c.key) in t.objects <==> givenUp || (!done && DeadLetter(c.key) in s.objects))
              && (givenUp ==> Buried(c.attrs.meta, t.objects[DeadLetter(c.key)], attempt, now))
              && (!done && !givenUp ==>
                    BackInQueue(c.attrs.meta, t.objects[Queued(c.key)], outcome, attempt, now))
  {
    hide AfterGcsProcess, DoneKey, BuriedKey, RequeuedKey, OthersStay, BackInQueue, Buried, IsDone, IsGivenUp,
      Gcs.AttemptsOf, Gcs.PriorityOf, Gcs.DeadMeta, Gcs.RequeueMeta, Gcs.StartMeta, Entries.ReadsAs;
    var m := Gcs.StartMeta(c.attrs.meta, now);
    var attempt := Gcs.AttemptsOf(c.attrs.meta) + 1;
    StartedMeta(c.attrs.meta, now);
    BuriedMeta(c.attrs.meta, m, attempt, now);
    RequeuedMeta(c.attrs.meta, m, outcome, attempt, now);
    if Queued(c.key) !in s.objects || InProgress(c.key) in s.objects {
      NotStarted(s, c, outcome, maxRetry, now);
    } else if IsDone(outcome, attempt, maxRetry) {
      ProcessDone(s, c, outcome, maxRetry, now);
      KeysLeft(s.objects, c.key, c.attrs);
      NotBoth(outcome, attempt, maxRetry);
    } else if IsGivenUp(outcome, attempt, maxRetry) {
      var o := ProcessBuried(s, c, outcome, maxRetry, now);
      KeysLeft(s.objects, c.key, o);
    } else {
      var o := ProcessRequeued(s, c, outcome, maxRetry, now);
      KeysLeft(s.objects, c.key, o);
    }
  }

  lemma NotBoth(outcome: Outcome, attempt: int, maxRetry: int)
    ensures !(IsDone(outcome, attempt, maxRetry) && IsGivenUp(outcome, attempt, maxRetry))
  {
  }

  lemma NotStarted(s: Store, c: Gcs.Candidate, outcome: Outcome, maxRetry: int, now: Time)
    requires Queued(c.key) !in s.objects || InProgress(c.key) in s.objects
    ensures AfterGcsProcess(s, c, outcome, maxRetry, now) == (s, None)
  {
  }

  /** The options that the dispatcher passes to the requeue. */
  function RequeueOptions(outcome: Outcome, priority: int): Options {
    if outcome.RequeueAfter? then Options(priority, 0, outcome.delay) else NO_OPTIONS
  }

  /** What is left of a key in the three cases. */
  function DoneKey(objects: map<Name, Obj>, key: string): map<Name, Obj> {
    objects - {Queued(key), InProgress(key), DeadLetter(key)}
  }

  function BuriedKey(objects: map<Name, Obj>, key: string, o: Obj): map<Name, Obj> {
    (objects - {Queued(key), InProgress(key)})[DeadLetter(key) := o]
  }

  function RequeuedKey(objects: map<Name, Obj>, key: string, o: Obj): map<Name, Obj> {
    (objects - {InProgress(key)})[Queued(key) := o]
  }

  lemma KeysLeft(objects: map<Name, Obj>, key: string, o: Obj)
    ensures OthersStay(objects, DoneKey(objects, key), key)
    ensures OthersStay(objects, BuriedKey(objects, key, o), key)
    ensures OthersStay(objects, RequeuedKey(objects, key, o), key)
    ensures forall n: Name | n.key == key :: n !in DoneKey(objects, key)
    ensures forall n: Name | n.key == key :: n in BuriedKey(objects, key, o) <==> n.DeadLetter?
    ensures Queued(key) in RequeuedKey(objects, key, o) && InProgress(key) !in RequeuedKey(objects, key, o)
    ensures DeadLetter(key) in RequeuedKey(objects, key, o) <==> DeadLetter(key) in objects
    ensures BuriedKey(objects, key, o)[DeadLetter(key)] == o && RequeuedKey(objects, key, o)[Queued(key)] == o
  {
    forall n: Name | n.key == key
      ensures n == Queued(key) || n == InProgress(key) || n == DeadLetter(key)
    {
    }
  }

  ghost predicate OthersStay(before: map<Name, Obj>, after: map<Name, Obj>, key: string) {
    && (forall n: Name | n.key != key :: n in after <==> n in before)
    && (forall n: Name | n.key != key && n in before :: after[n] == before[n])
  }

  lemma ProcessDone(s: Store, c: Gcs.Candidate, outcome: Outcome, maxRetry: int, now: Time)
    requires Queued(c.key) in s.objects && InProgress(c.key) !in s.objects
    requires IsDone(outcome, Gcs.AttemptsOf(c.attrs.meta) + 1, maxRetry)
    ensures var (t, invoked) := AfterGcsProcess(s, c, outcome, maxRetry, now);
            invoked == Some(Gcs.AttemptsOf(c.attrs.meta) + 1) && t.objects == DoneKey(s.objects, c.key)
  {
    hide FormatTime, DoneKey, BuriedKey, RequeuedKey, Gcs.AfterStart, Gcs.AfterComplete, Gcs.AfterDeadletter,
      Gcs.AfterRequeue, Gcs.StartMeta, Gcs.AttemptsOf;
    StartsOrNot(s, c.key, c.attrs, now);
    StartedMeta(c.attrs.meta, now);
    DoneObjects(s, c.key, c.attrs, now);
  }

  lemma ProcessBuried(s: Store, c: Gcs.Candidate, outcome: Outcome, maxRetry: int, now: Time) returns (o: Obj)
    requires Queued(c.key) in s.objects && InProgress(c.key) !in s.objects
    requires IsGivenUp(outcome, Gcs.AttemptsOf(c.attrs.meta) + 1, maxRetry)
    ensures o.meta == Gcs.DeadMeta(Gcs.StartMeta(c.attrs.meta, now), now) && o.created == now
    ensures var (t, invoked) := AfterGcsProcess(s, c, outcome, maxRetry, now);
            invoked == Some(Gcs.AttemptsOf(c.attrs.meta) + 1) && t.objects == BuriedKey(s.objects, c.key, o)
  {
    hide FormatTime, DoneKey, BuriedKey, RequeuedKey, Gcs.AfterStart, Gcs.AfterComplete, Gcs.AfterDeadletter,
      Gcs.AfterRequeue, Gcs.StartMeta, Gcs.DeadMeta, Gcs.AttemptsOf;
    StartsOrNot(s, c.key, c.attrs, now);
    StartedMeta(c.attrs.meta, now);
    o := BuriedObjects(s, c.key, c.attrs, now);
  }

  lemma ProcessRequeued(s: Store, c: Gcs.Candidate, outcome: Outcome, maxRetry: int, now: Time) returns (o: Obj)
    requires Queued(c.key) in s.objects && InProgress(c.key) !in s.objects
    requires var attempt := Gcs.AttemptsOf(c.attrs.meta) + 1;
             !IsDone(outcome, attempt, maxRetry) && !IsGivenUp(outcome, attempt, maxRetry)
    ensures o.meta == Gcs.RequeueMeta(Gcs.StartMeta(c.attrs.meta, now), RequeueOptions(outcome, c.priority), now)
    ensures o.created == now
    ensures var (t, invoked) := AfterGcsProcess(s, c, outcome, maxRetry, now);
            invoked == Some(Gcs.AttemptsOf(c.attrs.meta) + 1) && t.objects == RequeuedKey(s.objects, c.key, o)
  {
    hide FormatTime, DoneKey, BuriedKey, RequeuedKey, Gcs.AfterStart, Gcs.AfterComplete, Gcs.AfterDeadletter,
      Gcs.AfterRequeue, Gcs.StartMeta, Gcs.RequeueMeta, Gcs.AttemptsOf;
    StartsOrNot(s, c.key, c.attrs, now);
    StartedMeta(c.attrs.meta, now);
    o := RequeuedObjects(s, c.key, c.attrs, RequeueOptions(outcome, c.priority), now);
  }

  lemma StartsOrNot(s: Store, key: string, attrs: Obj, now: Time)
    ensures Gcs.AfterStart(s, key, attrs, now).Some? <==> Queued(key) in s.objects && InProgress(key) !in s.objects
    ensures Gcs.AfterStart(s, key, attrs, now).Some? ==>
              Gcs.AfterStart(s, key, attrs, now).value.1.meta == Gcs.StartMeta(attrs.meta, now)
  {
    hide Gcs.StartMeta;
  }

  lemma DoneObjects(s: Store, key: string, attrs: Obj, now: Time)
    requires Gcs.AfterStart(s, key, attrs, now).Some?
    ensures Gcs.AfterComplete(Gcs.AfterStart(s, key, attrs, now).value.0, key).objects == DoneKey(s.objects, key)
  {
    hide Gcs.StartMeta;
  }

  lemma BuriedObjects(s: Store, key: string, attrs: Obj, now: Time) returns (o: Obj)
    requires Gcs.AfterStart(s, key, attrs, now).Some?
    ensures var (store, started) := Gcs.AfterStart(s, key, attrs, now).value;
            var after := Gcs.AfterDeadletter(store, key, started, now);
            && o.meta == Gcs.DeadMeta(Gcs.StartMeta(attrs.meta, now), now) && o.created == now
            && after.Some? && after.value.objects == BuriedKey(s.objects, key, o)
  {
    hide Gcs.StartMeta, Gcs.DeadMeta;
    var (store, started) := Gcs.AfterStart(s, key, attrs, now).value;
    o := Obj(Gcs.DeadMeta(started.meta, now), now, store.nextInstance, 1);
  }

  lemma RequeuedObjects(s: Store, key: string, attrs: Obj, opts: Options, now: Time) returns (o: Obj)
    requires Gcs.AfterStart(s, key, attrs, now).Some?
    ensures var (store, started) := Gcs.AfterStart(s, key, attrs, now).value;
            var after := Gcs.AfterRequeue(store, key, started, opts, now);
            && o.meta == Gcs.RequeueMeta(Gcs.StartMeta(attrs.meta, now), opts, now) && o.created == now
            && after.Some? && after.value.objects == RequeuedKey(s.objects, key, o)
  {
    hide Gcs.StartMeta, Gcs.RequeueMeta;
    var (store, started) := Gcs.AfterStart(s, key, attrs, now).value;
    o := Obj(Gcs.RequeueMeta(started.meta, opts, now), now, store.nextInstance, 1);
  }

  lemma StartedMeta(m: Meta, now: Time)
    ensures Gcs.AttemptsOf(Gcs.StartMeta(m, now)) == Gcs.AttemptsOf(m) + 1
    ensures Atoi(Gcs.StartMeta(m, now).attempts.GetOr("")) == Some(Gcs.AttemptsOf(m) + 1)
    ensures Gcs.StartMeta(m, now).priority == m.priority && Gcs.StartMeta(m, now).notBefore == Some(FormatTime(0))
  {
    hide Atoi, Itoa, FormatTime;
    assert Atoi("").None? by {
      EmptyIsNoNumber();
    }
    AtoiInvertsItoa(1);
    if m.attempts.Some? && Atoi(m.attempts.value).Some? {
      AtoiInvertsItoa(Atoi(m.attempts.value).value + 1);
    }
  }

  lemma EmptyIsNoNumber()
    ensures Atoi("").None?
  {
  }

  lemma BuriedMeta(before: Meta, m: Meta, attempt: int, now: Time)
    requires m.priority == before.priority && Gcs.AttemptsOf(m) == attempt
    ensures forall o: Obj | o.meta == Gcs.DeadMeta(m, now) && o.created == now :: Buried(before, o, attempt, now)
  {
    hide FormatTime, ParseTime, Atoi;
    ParseInvertsFormat(now);
  }

  /** What the dispatcher asks of the requeue, and what the requeue makes of it. */
  lemma RequeuedMeta(before: Meta, m: Meta, outcome: Outcome, attempt: int, now: Time)
    requires m.priority == before.priority && m.notBefore == Some(FormatTime(0))
    requires Atoi(m.attempts.GetOr("")) == Some(attempt)
    ensures var opts := RequeueOptions(outcome, Gcs.PriorityOf(before));
            forall o: Obj | o.meta == Gcs.RequeueMeta(m, opts, now) && o.created == now ::
              BackInQueue(before, o, outcome, attempt, now)
  {
    hide FormatTime, ParseTime, Atoi, Itoa, PadInt, Wrap64;
    var priority := Gcs.PriorityOf(before);
    AtoiInvertsItoa(priority);
    AtoiInvertsPadInt(0, 8);
    ParseInvertsFormat(0);
    if outcome.RequeueAfter? {
      ParseInvertsFormat(now + outcome.delay);
    }
    ParseInvertsFormat(now + Backoff(attempt));
    assert BACKOFF_PERIOD == 30 * SECOND && MAXIMUM_BACKOFF_PERIOD == 10 * MINUTE;
  }
}
