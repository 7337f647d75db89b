/** The bucket-backed queue refines the in-memory one: with no crash and nothing interleaved, each of
    its calls does to the bucket what the in-memory call does to the two maps. */
module Refinement {
  import opened Wrappers
  import opened Text
  import opened Timestamp
  import opened Workqueue
  import opened TopK
  import opened Bucket
  import Gcs
  import Inmem

  const PRIORITIES: int := 100_000_000

  predicate WholeSecond(t: Time) {
    InRange(t) && Truncate(t) == t
  }

  // How the metadata texts represent a queue item

  predicate ShowsPriority(m: Meta, priority: int) {
    0 <= priority < PRIORITIES && m.priority == Some(PadInt(priority, 8))
  }

  predicate ShowsNotBefore(m: Meta, notBefore: Time) {
    WholeSecond(notBefore) && m.notBefore == Some(FormatTime(notBefore))
  }

  predicate ShowsAttempts(m: Meta, attempts: int) {
    attempts >= 0 && m.attempts == if attempts == 0 then None else Some(Itoa(attempts))
  }

  predicate Shows(m: Meta, priority: int, notBefore: Time, attempts: int) {
    ShowsPriority(m, priority) && ShowsNotBefore(m, notBefore) && ShowsAttempts(m, attempts)
  }

  predicate ShowsItem(o: Obj, item: Inmem.QueueItem) {
    Shows(o.meta, item.priority, item.notBefore, item.attempts) && o.created == item.queued
  }

  predicate ShowsQueuedKey(o: Obj, k: Inmem.QueuedKey) {
    Shows(o.meta, k.priority, k.notBefore, k.attempts)
  }

  predicate ShowsOwnedKey(o: Obj, k: Inmem.OwnedKey) {
    Shows(o.meta, k.priority, 0, k.attempts) && k.attempts >= 1
  }

  /** The bucket holds what the maps hold. */
  ghost predicate Represents(s: Store, m: Inmem.State) {
    && (forall k :: Queued(k) in s.objects <==> k in m.queue)
    && (forall k | k in m.queue :: ShowsItem(s.objects[Queued(k)], m.queue[k]))
    && (forall k :: InProgress(k) in s.objects <==> k in m.wip)
  }

  // Comparing texts compares values

  lemma PriorityOrder(p: int, q: int)
    requires 0 <= p < PRIORITIES && 0 <= q < PRIORITIES
    ensures StrLess(PadInt(p, 8), PadInt(q, 8)) <==> p < q
    ensures PadInt(p, 8) == PadInt(q, 8) <==> p == q
  {
    assert Pow10(8) == PRIORITIES by {
      assert Pow10(4) == 10000;
    }
    PaddedOrder(p, q, 8);
  }

  lemma NotBeforeOrder(t: Time, u: Time)
    requires WholeSecond(t) && WholeSecond(u)
    ensures StrLess(FormatTime(t), FormatTime(u)) <==> t < u
    ensures FormatTime(t) == FormatTime(u) <==> t == u
  {
    hide FormatTime;
    FormatOrder(t, u);
  }

  /** Merging is a join: priority and not-before each become the larger of the two. */
  lemma MergeIsJoin(current: Meta, request: Meta, p: int, t: Time, a: int, q: int, u: Time)
    requires Shows(current, p, t, a)
    requires ShowsPriority(request, q) && ShowsNotBefore(request, u)
    ensures Shows(Gcs.Merge(current, request), if p < q then q else p, if t < u then u else t, a)
    ensures Gcs.Updates(current, request) <==> p < q || t < u
    ensures Gcs.HasOptions(request) <==> q != 0 || u != 0
  {
    hide FormatTime, PadInt, StrLess, Itoa;
    PriorityOrder(p, q);
    PriorityOrder(0, q);
    NotBeforeOrder(t, u);
    NotBeforeOrder(0, u);
  }

  /** Writing the merged metadata back replaces every entry it has. */
  lemma PatchShows(current: Meta, merged: Meta, p: int, t: Time, a: int)
    requires Shows(merged, p, t, a) && merged.attempts == current.attempts
    ensures Shows(Patched(current, merged), p, t, a)
  {
    hide FormatTime, PadInt, Itoa;
  }

  /** After a merge the queued object shows the join of what it showed and of the request. */
  lemma UpdateShows(s: Store, key: string, request: Meta, p: int, t: Time, a: int, q: int, u: Time)
    requires Queued(key) in s.objects && Shows(s.objects[Queued(key)].meta, p, t, a)
    requires ShowsPriority(request, q) && ShowsNotBefore(request, u)
    ensures var after := Gcs.AfterUpdateMetadata(s, key, request);
            && after.objects.Keys == s.objects.Keys
            && (forall n | n in s.objects && n != Queued(key) :: after.objects[n] == s.objects[n])
            && after.objects[Queued(key)].created == s.objects[Queued(key)].created
            && Shows(after.objects[Queued(key)].meta, if p < q then q else p, if t < u then u else t, a)
  {
    hide FormatTime, PadInt, StrLess, Itoa, Gcs.Merge, Gcs.Updates, Gcs.HasOptions, Shows, ShowsPriority,
      ShowsNotBefore, Patched;
    var current := s.objects[Queued(key)].meta;
    MergeIsJoin(current, request, p, t, a, q, u);
    MergeKeepsAttempts(current, request);
    PatchShows(current, Gcs.Merge(current, request), if p < q then q else p, if t < u then u else t, a);
    RangesOf(current, request, p, t, a, q, u);
  }

  lemma MergeKeepsAttempts(current: Meta, request: Meta)
    ensures Gcs.Merge(current, request).attempts == current.attempts
  {
  }

  lemma RangesOf(current: Meta, request: Meta, p: int, t: Time, a: int, q: int, u: Time)
    requires Shows(current, p, t, a)
    requires ShowsPriority(request, q) && ShowsNotBefore(request, u)
    ensures 0 <= p && 0 <= q && 0 <= t && 0 <= u
  {
    hide FormatTime, PadInt, Itoa;
  }

  // The calls

  lemma QueueMetaShows(opts: Options)
    requires 0 <= opts.priority < PRIORITIES && WholeSecond(opts.notBefore)
    ensures Shows(Gcs.QueueMeta(opts), opts.priority, opts.notBefore, 0)
  {
    hide FormatTime, PadInt, Itoa;
  }

  /** A call that raises both the priority and the not-before of a queued key: the bucket takes both,
      the map takes the priority only. */
  predicate RaisesBoth(m: Inmem.State, key: string, opts: Options) {
    key in m.queue && m.queue[key].priority < opts.priority && m.queue[key].notBefore < opts.notBefore
  }

  /** Queueing refines queueing exactly when the call does not raise both fields of a queued key. */
  lemma QueueRefines(s: Store, m: Inmem.State, key: string, opts: Options, now: Time)
    requires Represents(s, m) && 0 <= opts.priority < PRIORITIES && WholeSecond(opts.notBefore)
    ensures Represents(Gcs.AfterQueue(s, key, opts, now), Inmem.AfterQueue(m, key, opts, now))
            <==> !RaisesBoth(m, key, opts)
  {
    hide FormatTime, PadInt, Itoa, Gcs.QueueMeta, Gcs.AfterUpdateMetadata, Shows;
    var after, after' := Gcs.AfterQueue(s, key, opts, now), Inmem.AfterQueue(m, key, opts, now);
    QueueMetaShows(opts);
    if key in m.queue {
      var item := m.queue[key];
      assert ShowsItem(s.objects[Queued(key)], item);
      PartsOf(Gcs.QueueMeta(opts), opts.priority, opts.notBefore, 0);
      UpdateShows(s, key, Gcs.QueueMeta(opts), item.priority, item.notBefore, item.attempts, opts.priority,
                  opts.notBefore);
      if RaisesBoth(m, key, opts) {
        assert after'.queue[key].notBefore == item.notBefore;
        ShowsOneNotBefore(after.objects[Queued(key)].meta, opts.priority, opts.notBefore, item.notBefore,
                          item.attempts);
        assert !ShowsItem(after.objects[Queued(key)], after'.queue[key]);
      }
    }
  }

  /** Queueing a queued key writes to the bucket if and only if it raises its priority or its not-before, and
      then once: the instance stays and the metageneration goes up by one. */
  lemma QueueWritesExactly(s: Store, m: Inmem.State, key: string, opts: Options, now: Time)
    requires Represents(s, m) && key in m.queue && 0 <= opts.priority < PRIORITIES && WholeSecond(opts.notBefore)
    ensures var after := Gcs.AfterQueue(s, key, opts, now);
            if m.queue[key].priority < opts.priority || m.queue[key].notBefore < opts.notBefore then
              && after.nextInstance == s.nextInstance
              && after.objects == s.objects[Queued(key) := after.objects[Queued(key)]]
              && after.objects[Queued(key)].metageneration == s.objects[Queued(key)].metageneration + 1
              && after.objects[Queued(key)].instance == s.objects[Queued(key)].instance
            else after == s
  {
    hide FormatTime, PadInt, Itoa, Gcs.QueueMeta, Gcs.Merge, Gcs.Updates, Gcs.HasOptions, Shows, ShowsPriority,
      ShowsNotBefore;
    var item := m.queue[key];
    assert ShowsItem(s.objects[Queued(key)], item);
    QueueMetaShows(opts);
    PartsOf(Gcs.QueueMeta(opts), opts.priority, opts.notBefore, 0);
    MergeIsJoin(s.objects[Queued(key)].meta, Gcs.QueueMeta(opts), item.priority, item.notBefore, item.attempts,
                opts.priority, opts.notBefore);
    RangesOf(s.objects[Queued(key)].meta, Gcs.QueueMeta(opts), item.priority, item.notBefore, item.attempts,
             opts.priority, opts.notBefore);
  }

  lemma PartsOf(m: Meta, p: int, t: Time, a: int)
    requires Shows(m, p, t, a)
    ensures ShowsPriority(m, p) && ShowsNotBefore(m, t)
  {
  }

  lemma ShowsOneNotBefore(m: Meta, p: int, t: Time, u: Time, a: int)
    requires Shows(m, p, t, a) && t != u
    ensures !Shows(m, p, u, a)
  {
    hide FormatTime, PadInt, Itoa;
    if WholeSecond(u) {
      NotBeforeOrder(t, u);
    }
  }

  lemma StartMetaShows(m: Meta, k: Inmem.QueuedKey, now: Time)
    requires Shows(m, k.priority, k.notBefore, k.attempts)
    ensures Shows(Gcs.StartMeta(m, now), k.priority, 0, k.attempts + 1)
  {
    hide FormatTime, PadInt, Itoa, Atoi;
    if k.attempts > 0 {
      AtoiInvertsItoa(k.attempts);
    }
  }

  /** Starting refines starting, whatever stale snapshot the two handles share. */
  lemma StartRefines(s: Store, m: Inmem.State, attrs: Obj, k: Inmem.QueuedKey, now: Time)
    requires Represents(s, m) && ShowsQueuedKey(attrs, k)
    ensures Gcs.AfterStart(s, k.key, attrs, now).Some? <==> Inmem.AfterStart(m, k).Some?
    ensures Gcs.AfterStart(s, k.key, attrs, now).Some? ==>
              var (s', o) := Gcs.AfterStart(s, k.key, attrs, now).value;
              var (m', o') := Inmem.AfterStart(m, k).value;
              Represents(s', m') && ShowsOwnedKey(o, o')
  {
    hide Gcs.StartMeta, ShowsItem, Shows;
    StartMetaShows(attrs.meta, k, now);
    NotNegative(attrs.meta, k.priority, k.notBefore, k.attempts);
  }

  lemma NotNegative(m: Meta, p: int, t: Time, a: int)
    requires Shows(m, p, t, a)
    ensures a >= 0 && p >= 0
  {
  }

  lemma WholeLater(now: Time, d: Time)
    requires WholeSecond(now) && 0 <= d && d % SECOND == 0 && InRange(now + d)
    ensures WholeSecond(now + d)
  {
  }

  // Requeueing, where the bucket writes an explicit priority without padding

  /** The numbers of at most seven digits: those that padding makes longer. */
  const SMALL: int := 10_000_000

  lemma PowersOfTen()
    ensures Pow10(7) == SMALL && Pow10(8) == PRIORITIES
  {
    assert Pow10(4) == 10000;
  }

  lemma {:induction false} Pow10Grows(v: nat, w: nat)
    requires v <= w
    ensures Pow10(v) <= Pow10(w)
  {
    if v < w {
      Pow10Grows(v, w - 1);
    }
  }

  /** Printing without padding makes a difference exactly for short numbers, and then no padded text of
      any priority is the same. */
  lemma UnpaddedIsPadded(p: int, q: int)
    requires 0 <= p < PRIORITIES && 0 < q < PRIORITIES
    ensures Itoa(q) == PadInt(q, 8) <==> SMALL <= q
    ensures q < SMALL ==> Itoa(q) != PadInt(p, 8)
  {
    hide Value;
    PowersOfTen();
    DecLength(q, 8);
    if q < SMALL {
      DecLength(q, 7);
    } else {
      ValueBound(Dec(q));
      if |Dec(q)| < 8 {
        Pow10Grows(|Dec(q)|, 7);
      }
    }
  }

  /** A short number without padding sorts behind every padded short number. */
  lemma UnpaddedBeatsPadded(p: int, q: int)
    requires 0 <= p < SMALL && 0 < q
    ensures StrLess(PadInt(p, 8), Itoa(q)) && !StrLess(Itoa(q), PadInt(p, 8))
  {
    hide StrLess, Pow10;
    PowersOfTen();
    UnpaddedSortsLast(p, q, 7);
    StrLessIrreflexive(Itoa(q));
    if StrLess(Itoa(q), PadInt(p, 8)) {
      StrLessTransitive(Itoa(q), PadInt(p, 8), Itoa(q));
    }
  }

  /** Times and numbers that both queues can print. */
  predicate PrintableRequeue(k: Inmem.OwnedKey, opts: Options, now: Time) {
    && 0 <= opts.priority < PRIORITIES && WholeSecond(opts.notBefore)
    && WholeSecond(now) && opts.delay % SECOND == 0
    && k.attempts * BACKOFF_PERIOD < TWO_63
    && (opts.delay > 0 ==> InRange(now + opts.delay)) && InRange(now + MAXIMUM_BACKOFF_PERIOD)
  }

  /** The bucket writes a short explicit priority: the key is not queued, or its priority text is the smaller. */
  predicate WritesUnpadded(m: Inmem.State, k: Inmem.OwnedKey, opts: Options) {
    && 0 < opts.priority < SMALL
    && (k.key in m.queue ==> StrLess(PadInt(m.queue[k.key].priority, 8), Itoa(opts.priority)))
  }

  /** The bucket looks at the key's own priority, before the explicit one, and never at the not-before
      asked for: an undelayed key without priority goes back at once. The map sets a not-before. */
  predicate SkipsNotBefore(m: Inmem.State, k: Inmem.OwnedKey, opts: Options, now: Time) {
    var notBefore := Inmem.RequeueItem(k, opts, now).notBefore;
    && opts.delay <= 0 && k.priority == 0 && notBefore != 0
    && (k.key in m.queue ==> m.queue[k.key].notBefore < notBefore)
  }

  predicate RequeuesDiffer(m: Inmem.State, k: Inmem.OwnedKey, opts: Options, now: Time) {
    WritesUnpadded(m, k, opts) || SkipsNotBefore(m, k, opts, now)
  }

  /** The not-before that the bucket stores. */
  function RequeueNotBefore(k: Inmem.OwnedKey, opts: Options, now: Time): Time {
    if opts.delay > 0 then now + opts.delay
    else if k.priority > 0 then now + Backoff(k.attempts)
    else 0
  }

  function RequeuePriority(k: Inmem.OwnedKey, opts: Options): int {
    if opts.priority == 0 then k.priority else opts.priority
  }

  function RequeueText(k: Inmem.OwnedKey, opts: Options): string {
    if opts.priority == 0 then PadInt(k.priority, 8) else Itoa(opts.priority)
  }

  lemma RequeueMetaShows(o: Obj, k: Inmem.OwnedKey, opts: Options, now: Time)
    requires ShowsOwnedKey(o, k) && PrintableRequeue(k, opts, now)
    ensures var request := Gcs.RequeueMeta(o.meta, opts, now);
            && request.priority == Some(RequeueText(k, opts))
            && ShowsNotBefore(request, RequeueNotBefore(k, opts, now))
            && ShowsAttempts(request, k.attempts)
    ensures 0 <= RequeuePriority(k, opts) < PRIORITIES
  {
    hide FormatTime, PadInt, Itoa, Atoi, Backoff, Wrap64;
    AtoiInvertsItoa(k.attempts);
    BackoffIsWhole(k.attempts);
    PriorityOrder(0, k.priority);
    if opts.delay > 0 {
      WholeLater(now, opts.delay);
    } else {
      WholeLater(now, Backoff(k.attempts));
    }
  }

  /** The two not-befores differ only where the bucket skips one, and then the map's is the later. */
  lemma RequeueNotBefores(k: Inmem.OwnedKey, opts: Options, now: Time)
    requires PrintableRequeue(k, opts, now) && k.priority >= 0 && k.attempts >= 0
    ensures var item := Inmem.RequeueItem(k, opts, now);
            && item.priority == RequeuePriority(k, opts) && item.attempts == k.attempts && item.queued == now
            && WholeSecond(item.notBefore)
            && (item.notBefore == RequeueNotBefore(k, opts, now)
                || (opts.delay <= 0 && k.priority == 0 && RequeueNotBefore(k, opts, now) == 0 < item.notBefore))
  {
    hide Backoff, Wrap64;
    BackoffIsWhole(k.attempts);
    if opts.delay > 0 {
      WholeLater(now, opts.delay);
    } else {
      WholeLater(now, Backoff(k.attempts));
    }
  }

  /** What a requeue onto an empty place, or a merge into a queued key, leaves for the key. */
  lemma RequeueResult(current: Option<Meta>, request: Meta, p: int, t: Time, text: string, q: int, u: Time)
    returns (after: Meta)
    requires request.priority == Some(text) && ShowsNotBefore(request, u)
    requires 0 <= q < PRIORITIES && (text == PadInt(q, 8) || (text == Itoa(q) && 0 < q))
    requires current.Some? ==> ShowsPriority(current.value, p) && ShowsNotBefore(current.value, t)
    ensures after == if current.None? then request
                     else if Gcs.HasOptions(request) && Gcs.Updates(current.value, request) then
                       Patched(current.value, Gcs.Merge(current.value, request))
                     else current.value
    ensures after.priority == Some(if current.None? || StrLess(PadInt(p, 8), text) then text else PadInt(p, 8))
    ensures ShowsNotBefore(after, if current.None? || t < u then u else t)
    ensures after.attempts == (if current.None? then request else current.value).attempts
  {
    hide FormatTime, PadInt, Itoa, StrLess;
    if current.None? {
      after := request;
    } else {
      NotBeforeOrder(t, u);
      NotBeforeOrder(0, u);
      NotBeforeOrder(0, t);
      PriorityOrder(p, 0);
      PriorityOrder(p, q);
      if !Gcs.HasOptions(request) && text != PadInt(q, 8) {
        PriorityOrder(0, q);
        UnpaddedIsPadded(0, q);
      }
      after := if Gcs.HasOptions(request) && Gcs.Updates(current.value, request) then
        Patched(current.value, Gcs.Merge(current.value, request)) else current.value;
    }
  }

  /** The priority that the bucket is left with is the larger one unless it was written without padding. */
  lemma RequeuedPriority(queued: bool, p: int, q: int, padded: bool)
    requires 0 <= p < PRIORITIES && 0 <= q < PRIORITIES && (padded || 0 < q)
    ensures var text := if padded then PadInt(q, 8) else Itoa(q);
            var left := if !queued || StrLess(PadInt(p, 8), text) then text else PadInt(p, 8);
            left == PadInt(if queued && q <= p then p else q, 8)
            <==> padded || SMALL <= q || (queued && !StrLess(PadInt(p, 8), text))
  {
    hide PadInt, Itoa, StrLess;
    PriorityOrder(p, q);
    PriorityOrder(p, if queued && q <= p then p else q);
    if !padded {
      UnpaddedIsPadded(p, q);
      UnpaddedIsPadded(if queued && q <= p then p else q, q);
      if p < SMALL {
        UnpaddedBeatsPadded(p, q);
      }
    }
  }

  lemma ShowsOnlyNotBefore(m: Meta, t: Time, u: Time)
    requires ShowsNotBefore(m, t)
    ensures ShowsNotBefore(m, u) <==> t == u
  {
    hide FormatTime;
    if WholeSecond(u) {
      NotBeforeOrder(t, u);
    }
  }

  /** Requeueing refines requeueing exactly when the bucket neither writes a short explicit priority nor
      skips a not-before: the key goes back with its backoff or delay, onto an empty place or merged
      into a key queued meanwhile. */
  lemma RequeueRefines(s: Store, m: Inmem.State, o: Obj, k: Inmem.OwnedKey, opts: Options, now: Time)
    requires Represents(s, m) && ShowsOwnedKey(o, k) && k.key in m.wip && PrintableRequeue(k, opts, now)
    ensures Gcs.AfterRequeue(s, k.key, o, opts, now).Some?
    ensures Represents(Gcs.AfterRequeue(s, k.key, o, opts, now).value, Inmem.AfterRequeue(m, k, opts, now))
            <==> !RequeuesDiffer(m, k, opts, now)
  {
    hide Gcs.RequeueMeta, Gcs.Merge, Gcs.Updates, Gcs.HasOptions, Inmem.RequeueItem, FormatTime, PadInt, Itoa, StrLess,
      PrintableRequeue, ShowsItem, RequeuesDiffer;
    var after, after' := Gcs.AfterRequeue(s, k.key, o, opts, now).value, Inmem.AfterRequeue(m, k, opts, now);
    RequeuedShows(s, m, o, k, opts, now);
    if ShowsItem(after.objects[Queued(k.key)], after'.queue[k.key]) {
      forall key | key in after'.queue
        ensures ShowsItem(after.objects[Queued(key)], after'.queue[key])
      {
        assert key != k.key ==> ShowsItem(s.objects[Queued(key)], m.queue[key]);
      }
    }
  }

  lemma RequeuedShows(s: Store, m: Inmem.State, o: Obj, k: Inmem.OwnedKey, opts: Options, now: Time)
    requires Represents(s, m) && ShowsOwnedKey(o, k) && k.key in m.wip && PrintableRequeue(k, opts, now)
    ensures var after := Gcs.AfterRequeue(s, k.key, o, opts, now);
            var item := Inmem.AfterRequeue(m, k, opts, now).queue[k.key];
            && after.Some? && Queued(k.key) in after.value.objects
            && (ShowsItem(after.value.objects[Queued(k.key)], item) <==> !RequeuesDiffer(m, k, opts, now))
  {
    hide Gcs.RequeueMeta, Gcs.Merge, Gcs.Updates, Gcs.HasOptions, Inmem.RequeueItem, FormatTime, PadInt, Itoa, StrLess,
      PrintableRequeue, Backoff;
    RequeueMetaShows(o, k, opts, now);
    RequeueNotBefores(k, opts, now);
    var queued := k.key in m.queue;
    assert queued ==> ShowsItem(s.objects[Queued(k.key)], m.queue[k.key]);
    var p, t := if queued then m.queue[k.key].priority else 0, if queued then m.queue[k.key].notBefore else 0;
    var q, u := RequeuePriority(k, opts), RequeueNotBefore(k, opts, now);
    var current := if queued then Some(s.objects[Queued(k.key)].meta) else None;
    var meta := RequeueResult(current, Gcs.RequeueMeta(o.meta, opts, now), p, t, RequeueText(k, opts), q, u);
    assert meta == Gcs.AfterRequeue(s, k.key, o, opts, now).value.objects[Queued(k.key)].meta;
    RequeuedPriority(queued, p, q, opts.priority == 0);
    var item := Inmem.AfterRequeue(m, k, opts, now).queue[k.key];
    ShowsOnlyNotBefore(meta, if !queued || t < u then u else t, item.notBefore);
  }

  /** Completing and dead-lettering refine forgetting the key. */
  lemma FinishRefines(s: Store, m: Inmem.State, o: Obj, k: Inmem.OwnedKey, now: Time)
    requires Represents(s, m) && k.key in m.wip
    ensures Represents(Gcs.AfterComplete(s, k.key), Inmem.AfterFinish(m, k))
    ensures Gcs.AfterDeadletter(s, k.key, o, now).Some?
    ensures Represents(Gcs.AfterDeadletter(s, k.key, o, now).value, Inmem.AfterFinish(m, k))
  {
    hide Shows, Gcs.DeadMeta;
  }

  // Enumeration

  lemma DelayedRefines(o: Obj, item: Inmem.QueueItem, now: Time)
    requires ShowsItem(o, item)
    ensures Gcs.Delayed(o.meta, now) <==> now < item.notBefore
    ensures Gcs.PriorityOf(o.meta) == item.priority
  {
    hide FormatTime, ParseTime, PadInt, Atoi;
    ParseInvertsFormat(item.notBefore);
    AtoiInvertsPadInt(item.priority, 8);
  }

  function Mirror(m: Inmem.State, c: Gcs.Candidate): Inmem.Candidate
    requires c.key in m.queue
  {
    Inmem.Candidate(c.key, m.queue[c.key])
  }

  lemma EligibleRefines(s: Store, m: Inmem.State, now: Time, c: Gcs.Candidate)
    requires Represents(s, m) && c in Gcs.Eligible(s, now)
    ensures c.key in m.queue && c == Gcs.Listed(c.key, s.objects[Queued(c.key)])
    ensures Mirror(m, c) in Inmem.Eligible(m, now)
    ensures c.priority == m.queue[c.key].priority && c.attrs.created == m.queue[c.key].queued
    ensures ShowsQueuedKey(c.attrs, Inmem.Handle(Mirror(m, c)))
  {
    hide Gcs.Delayed, Gcs.PriorityOf, Shows;
    var n :| n in s.objects && n.Queued? && !Gcs.Delayed(s.objects[n].meta, now)
        && c == Gcs.Listed(n.key, s.objects[n]);
    assert n == Queued(c.key);
    DelayedRefines(s.objects[n], m.queue[c.key], now);
  }

  lemma SameEligible(s: Store, m: Inmem.State, now: Time, i: Inmem.Candidate)
    requires Represents(s, m) && i in Inmem.Eligible(m, now)
    ensures i.key in m.queue && i.item == m.queue[i.key]
    ensures Gcs.Listed(i.key, s.objects[Queued(i.key)]) in Gcs.Eligible(s, now)
  {
    hide Gcs.Delayed, Gcs.PriorityOf, Shows;
    DelayedRefines(s.objects[Queued(i.key)], m.queue[i.key], now);
  }

  lemma {:induction false} MirrorCount(s: Store, m: Inmem.State, now: Time, a: set<Gcs.Candidate>,
                                       b: set<Inmem.Candidate>)
    requires Represents(s, m) && a <= Gcs.Eligible(s, now)
    requires forall c | c in a :: c.key in m.queue && Mirror(m, c) in b
    requires forall i | i in b ::
               i.key in m.queue && i.item == m.queue[i.key] && Gcs.Listed(i.key, s.objects[Queued(i.key)]) in a
    ensures |a| == |b|
    decreases a
  {
    hide Gcs.PriorityOf, Shows, Gcs.Delayed;
    if a == {} {
      assert b == {};
    } else {
      var c :| c in a;
      EligibleRefines(s, m, now, c);
      var rest, rest' := a - {c}, b - {Mirror(m, c)};
      forall d | d in rest
        ensures d.key in m.queue && Mirror(m, d) in rest'
      {
        EligibleRefines(s, m, now, d);
      }
      MirrorCount(s, m, now, rest, rest');
    }
  }

  /** Whatever the bucket's enumeration answers, the in-memory queue might have answered. */
  lemma EnumerateRefines(s: Store, m: Inmem.State, limit: nat, now: Time, next: seq<Gcs.Candidate>)
    requires Represents(s, m) && IsTop(Gcs.Before, Gcs.Eligible(s, now), limit, next)
    ensures forall c | c in next :: c.key in m.queue && ShowsQueuedKey(c.attrs, Inmem.Handle(Mirror(m, c)))
    ensures Inmem.MayEnumerate(m, limit, now,
                               seq(|next|, i requires 0 <= i < |next| && next[i].key in m.queue =>
                                     Inmem.Handle(Mirror(m, next[i]))))
  {
    hide Gcs.Eligible, Inmem.Eligible, Shows, StrLess;
    forall c | c in Gcs.Eligible(s, now)
      ensures c.key in m.queue && Mirror(m, c) in Inmem.Eligible(m, now)
      ensures c.priority == m.queue[c.key].priority && c.attrs.created == m.queue[c.key].queued
      ensures c == Gcs.Listed(c.key, s.objects[Queued(c.key)])
      ensures ShowsQueuedKey(c.attrs, Inmem.Handle(Mirror(m, c)))
    {
      EligibleRefines(s, m, now, c);
    }
    forall i | i in Inmem.Eligible(m, now)
      ensures i.key in m.queue && i.item == m.queue[i.key]
      ensures Gcs.Listed(i.key, s.objects[Queued(i.key)]) in Gcs.Eligible(s, now)
    {
      SameEligible(s, m, now, i);
    }
    MirrorCount(s, m, now, Gcs.Eligible(s, now), Inmem.Eligible(m, now));
    var top := seq(|next|, i requires 0 <= i < |next| => Mirror(m, next[i]));
    MirrorIsTop(s, m, limit, now, next, top);
    var handles := seq(|next|, i requires 0 <= i < |next| && next[i].key in m.queue =>
                         Inmem.Handle(Mirror(m, next[i])));
    assert handles == Mapped(Inmem.Handle, top);
  }

  /** The in-memory order is coarser: it leaves ties that names settle in the bucket. */
  lemma MirrorOrder(m: Inmem.State, a: Gcs.Candidate, b: Gcs.Candidate)
    requires a.key in m.queue && a.priority == m.queue[a.key].priority && a.attrs.created == m.queue[a.key].queued
    requires b.key in m.queue && b.priority == m.queue[b.key].priority && b.attrs.created == m.queue[b.key].queued
    ensures Inmem.Before(Mirror(m, a), Mirror(m, b)) ==> Gcs.Before(a, b)
  {
    hide StrLess;
  }

  lemma MirrorIsTop(s: Store, m: Inmem.State, limit: nat, now: Time, next: seq<Gcs.Candidate>,
                    top: seq<Inmem.Candidate>)
    requires IsTop(Gcs.Before, Gcs.Eligible(s, now), limit, next)
    requires |Gcs.Eligible(s, now)| == |Inmem.Eligible(m, now)|
    requires forall c | c in Gcs.Eligible(s, now) ::
               c.key in m.queue && Mirror(m, c) in Inmem.Eligible(m, now)
               && c.priority == m.queue[c.key].priority && c.attrs.created == m.queue[c.key].queued
               && Queued(c.key) in s.objects && c == Gcs.Listed(c.key, s.objects[Queued(c.key)])
    requires forall i | i in Inmem.Eligible(m, now) ::
               i.key in m.queue && i.item == m.queue[i.key]
               && Queued(i.key) in s.objects && Gcs.Listed(i.key, s.objects[Queued(i.key)]) in Gcs.Eligible(s, now)
    requires |top| == |next| && forall i | 0 <= i < |next| :: next[i].key in m.queue && top[i] == Mirror(m, next[i])
    ensures IsTop(Inmem.Before, Inmem.Eligible(m, now), limit, top)
  {
    hide Gcs.Eligible, Inmem.Eligible, StrLess, Gcs.PriorityOf, Gcs.Before, Inmem.Before;
    forall i, j | 0 <= i < j < |top|
      ensures top[i] != top[j] && !Inmem.Before(top[j], top[i])
    {
      assert next[i] in Gcs.Eligible(s, now) && next[j] in Gcs.Eligible(s, now);
      MirrorOrder(m, next[j], next[i]);
    }
    forall x | x in top
      ensures x in Inmem.Eligible(m, now)
    {
      var i :| 0 <= i < |top| && top[i] == x;
      assert next[i] in Gcs.Eligible(s, now);
    }
    forall x, y | x in top && y in Inmem.Eligible(m, now) - Elements(top)
      ensures !Inmem.Before(y, x)
    {
      var i :| 0 <= i < |top| && top[i] == x;
      var c := Gcs.Listed(y.key, s.objects[Queued(y.key)]);
      assert next[i] in Gcs.Eligible(s, now);
      MirrorLeftOut(s, m, next, top, c, y);
      assert c in Gcs.Eligible(s, now) - Elements(next);
      MirrorOrder(m, c, next[i]);
    }
  }

  lemma MirrorLeftOut(s: Store, m: Inmem.State, next: seq<Gcs.Candidate>, top: seq<Inmem.Candidate>,
                      c: Gcs.Candidate, y: Inmem.Candidate)
    requires |top| == |next| && forall i | 0 <= i < |next| :: next[i].key in m.queue && top[i] == Mirror(m, next[i])
    requires c.key in m.queue && y == Mirror(m, c) && y !in top
    ensures c !in next
  {
    assert forall i | 0 <= i < |top| :: top[i] != y;
  }

  // Whole runs

  /** One call after another; `List` is the listing of one queued key by an enumeration. */
  datatype Op =
    | Wait(to: Time)
    | Queue(key: string, opts: Options)
    | List(key: string)
    | Start(listed: nat)
    | Requeue(key: string, opts: Options)
    | Complete(key: string)
    | Deadletter(key: string)

  /** The bucket with the handles its callers hold: one per listed key, stale or not, and one per owner. */
  datatype GcsRun = GcsRun(now: Time, store: Store, listed: seq<(string, Obj)>, owned: map<string, Obj>)

  datatype InmemRun = InmemRun(now: Time, state: Inmem.State, listed: seq<Inmem.QueuedKey>,
                               owned: map<string, Inmem.OwnedKey>)

  function GcsStep(r: GcsRun, op: Op): GcsRun {
    match op
    case Wait(to) => r.(now := to)
    case Queue(key, opts) => r.(store := Gcs.AfterQueue(r.store, key, opts, r.now))
    case List(key) =>
      if Queued(key) in r.store.objects then r.(listed := r.listed + [(key, r.store.objects[Queued(key)])]) else r
    case Start(i) =>
      if i >= |r.listed| then r
      else (match Gcs.AfterStart(r.store, r.listed[i].0, r.listed[i].1, r.now)
        case None => r
        case Some(done) => r.(store := done.0, owned := r.owned[r.listed[i].0 := done.1]))
    case Requeue(key, opts) =>
      if key !in r.owned then r
      else (match Gcs.AfterRequeue(r.store, key, r.owned[key], opts, r.now)
        case None => r
        case Some(store) => r.(store := store, owned := r.owned - {key}))
    case Complete(key) =>
      if key !in r.owned then r else r.(store := Gcs.AfterComplete(r.store, key), owned := r.owned - {key})
    case Deadletter(key) =>
      if key !in r.owned then r
      else (match Gcs.AfterDeadletter(r.store, key, r.owned[key], r.now)
        case None => r
        case Some(store) => r.(store := store, owned := r.owned - {key}))
  }

  function InmemStep(r: InmemRun, op: Op): InmemRun {
    match op
    case Wait(to) => r.(now := to)
    case Queue(key, opts) => r.(state := Inmem.AfterQueue(r.state, key, opts, r.now))
    case List(key) =>
      if key !in r.state.queue then r
      else r.(listed := r.listed + [Inmem.Handle(Inmem.Candidate(key, r.state.queue[key]))])
    case Start(i) =>
      if i >= |r.listed| then r
      else (match Inmem.AfterStart(r.state, r.listed[i])
        case None => r
        case Some(done) => r.(state := done.0, owned := r.owned[r.listed[i].key := done.1]))
    case Requeue(key, opts) =>
      if key !in r.owned then r
      else r.(state := Inmem.AfterRequeue(r.state, r.owned[key], opts, r.now), owned := r.owned - {key})
    case Complete(key) =>
      if key !in r.owned then r else r.(state := Inmem.AfterFinish(r.state, r.owned[key]), owned := r.owned - {key})
    case Deadletter(key) =>
      if key !in r.owned then r else r.(state := Inmem.AfterFinish(r.state, r.owned[key]), owned := r.owned - {key})
  }

  /** The calls the two queues agree on: whole seconds, priorities of at most eight digits, no call that
      raises both fields of a queued key, no requeue on which the two differ. */
  predicate Agreed(r: InmemRun, op: Op) {
    match op
    case Queue(key, opts) =>
      0 <= opts.priority < PRIORITIES && WholeSecond(opts.notBefore) && !RaisesBoth(r.state, key, opts)
    case Requeue(key, opts) =>
      key in r.owned ==>
        PrintableRequeue(r.owned[key], opts, r.now) && !RequeuesDiffer(r.state, r.owned[key], opts, r.now)
    case _ => true
  }

  predicate AllAgreed(r: InmemRun, ops: seq<Op>)
    decreases |ops|
  {
    ops == [] || (Agreed(r, ops[0]) && AllAgreed(InmemStep(r, ops[0]), ops[1..]))
  }

  function GcsRuns(r: GcsRun, ops: seq<Op>): GcsRun
    decreases |ops|
  {
    if ops == [] then r else GcsRuns(GcsStep(r, ops[0]), ops[1..])
  }

  function InmemRuns(r: InmemRun, ops: seq<Op>): InmemRun
    decreases |ops|
  {
    if ops == [] then r else InmemRuns(InmemStep(r, ops[0]), ops[1..])
  }

  /** Both sides are at the same time, hold the same keys, and hand out handles that say the same. */
  ghost predicate Simulates(g: GcsRun, m: InmemRun) {
    && g.now == m.now
    && Represents(g.store, m.state)
    && |g.listed| == |m.listed|
    && (forall i | 0 <= i < |m.listed| ::
          g.listed[i].0 == m.listed[i].key && ShowsQueuedKey(g.listed[i].1, m.listed[i]))
    && g.owned.Keys == m.owned.Keys == m.state.wip
    && (forall k | k in m.owned :: m.owned[k].key == k && ShowsOwnedKey(g.owned[k], m.owned[k]))
  }

  lemma StepSimulates(g: GcsRun, m: InmemRun, op: Op)
    requires Simulates(g, m) && Agreed(m, op)
    ensures Simulates(GcsStep(g, op), InmemStep(m, op))
  {
    hide Gcs.AfterStart, Gcs.AfterRequeue, Gcs.AfterComplete, Gcs.AfterDeadletter, Gcs.AfterQueue, Shows,
      PrintableRequeue, RequeuesDiffer, WholeSecond;
    match op
    case Wait(to) =>
    case Queue(key, opts) =>
      QueueRefines(g.store, m.state, key, opts, g.now);
    case List(key) =>
      assert key in m.state.queue ==> ShowsItem(g.store.objects[Queued(key)], m.state.queue[key]);
    case Start(i) =>
      if i < |m.listed| {
        StartRefines(g.store, m.state, g.listed[i].1, m.listed[i], g.now);
      }
    case Requeue(key, opts) =>
      if key in m.owned {
        RequeueRefines(g.store, m.state, g.owned[key], m.owned[key], opts, g.now);
      }
    case Complete(key) =>
      if key in m.owned {
        FinishRefines(g.store, m.state, g.owned[key], m.owned[key], g.now);
      }
    case Deadletter(key) =>
      if key in m.owned {
        FinishRefines(g.store, m.state, g.owned[key], m.owned[key], g.now);
      }
  }

  /** The refinement theorem: after any run of agreed calls the bucket represents the maps and every
      handle says the same on both sides. */
  lemma {:induction false} RunsSimulate(g: GcsRun, m: InmemRun, ops: seq<Op>)
    requires Simulates(g, m) && AllAgreed(m, ops)
    ensures Simulates(GcsRuns(g, ops), InmemRuns(m, ops))
    decreases |ops|
  {
    hide GcsStep, InmemStep, Simulates, Agreed;
    if ops != [] {
      StepSimulates(g, m, ops[0]);
      RunsSimulate(GcsStep(g, ops[0]), InmemStep(m, ops[0]), ops[1..]);
    }
  }
}
