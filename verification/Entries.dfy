/** The metadata entries, one by one: which of them each operation of the bucket-backed queue writes, and
    what a reader makes of them, well-formed or not. */
module Entries {
  import opened Wrappers
  import opened Text
  import opened Timestamp
  import opened Workqueue
  import opened TopK
  import opened Bucket
  import opened Gcs

  /** A reader gets this instant, cut to the second, as far as it can be printed. */
  predicate ReadsAs(text: Option<string>, t: Time) {
    text.Some? && (InRange(t) ==> ParseTime(text.value) == Some(Truncate(t)))
  }

  predicate ReadsAsNumber(text: Option<string>, n: int) {
    text.Some? && Atoi(text.value) == Some(n)
  }

  predicate IsNumber(text: Option<string>) {
    text.Some? && Atoi(text.value).Some?
  }

  /** A queued key is written with exactly two entries, and padding makes a priority eight characters wide,
      sign included, unless it is longer. */
  lemma QueueWrites(opts: Options)
    ensures var m := QueueMeta(opts);
            && m == NO_META.(priority := m.priority, notBefore := m.notBefore)
            && ReadsAsNumber(m.priority, opts.priority) && ReadsAs(m.notBefore, opts.notBefore)
            && |m.priority.value| == if |Itoa(opts.priority)| < 8 then 8 else |Itoa(opts.priority)|
  {
    hide FormatTime, ParseTime, PadInt, Itoa, Atoi;
    AtoiInvertsPadInt(opts.priority, 8);
    PadIntLength(opts.priority, 8);
    ParseInvertsFormat(opts.notBefore);
  }

  /** A start writes three entries: a lease of fifteen minutes, one more attempt, or the first if the count is
      missing or cannot be read, and the zero not-before. */
  lemma StartWrites(m: Meta, now: Time)
    ensures var n := StartMeta(m, now);
            && n == m.(lease := n.lease, attempts := n.attempts, notBefore := n.notBefore)
            && ReadsAs(n.lease, now + 15 * MINUTE) && ReadsAs(n.notBefore, 0)
            && ReadsAsNumber(n.attempts, if IsNumber(m.attempts) then Atoi(m.attempts.value).value + 1 else 1)
  {
    hide FormatTime, ParseTime, Itoa, Atoi;
    AtoiInvertsItoa(1);
    if IsNumber(m.attempts) {
      AtoiInvertsItoa(Atoi(m.attempts.value).value + 1);
    }
    ParseInvertsFormat(0);
    ParseInvertsFormat(now + 3 * REFRESH_INTERVAL);
  }

  /** A requeue takes the lease away, notes the Unix second of the attempt, and writes a not-before and a
      priority only as asked: with a delay its end; without one, for a key with a priority text, the end of
      the backoff, of one period if the attempts cannot be read. */
  lemma RequeueWrites(m: Meta, opts: Options, now: Time)
    ensures var n := RequeueMeta(m, opts, now);
            && n == m.(lease := None, lastAttempted := n.lastAttempted, notBefore := n.notBefore,
                       priority := n.priority)
            && (exists second: int ::
                  ReadsAsNumber(n.lastAttempted, second) && 0 <= now - (719162 * 86400 + second) * SECOND < SECOND)
            && (opts.priority == 0 ==> n.priority == m.priority)
            && (opts.priority != 0 ==> n.priority == Some(Itoa(opts.priority)))
            && (opts.delay > 0 ==> ReadsAs(n.notBefore, now + opts.delay))
            && (opts.delay <= 0 && (m.priority.None? || m.priority == Some(PadInt(0, 8))) ==>
                  n.notBefore == m.notBefore)
            && (opts.delay <= 0 && m.priority.Some? && m.priority != Some(PadInt(0, 8)) ==>
                  ReadsAs(n.notBefore, now + Backoff(if IsNumber(m.attempts) then Atoi(m.attempts.value).value else 1)))
  {
    hide FormatTime, ParseTime, Itoa, Atoi, PadInt, Backoff;
    EmptyReads();
    var second := now / SECOND - UNIX_EPOCH;
    AtoiInvertsItoa(second);
    EpochIs();
    assert ReadsAsNumber(RequeueMeta(m, opts, now).lastAttempted, second);
    ParseInvertsFormat(now + opts.delay);
    ParseInvertsFormat(now + Backoff(if IsNumber(m.attempts) then Atoi(m.attempts.value).value else 1));
  }

  lemma EmptyReads()
    ensures Atoi("").None?
  {
  }

  /** The second that timestamps print as 1970-01-01T00:00:00Z. */
  lemma EpochIs()
    ensures UNIX_EPOCH == 719162 * 86400
  {
  }

  /** Dead-lettering takes the lease away and notes the time, and nothing else. */
  lemma DeadletterWrites(m: Meta, now: Time)
    ensures var n := DeadMeta(m, now);
            n == m.(lease := None, failedTime := n.failedTime) && ReadsAs(n.failedTime, now)
  {
    hide FormatTime, ParseTime;
    ParseInvertsFormat(now);
  }

  /** A merge touches the two option entries only. A missing priority is filled in; otherwise the larger text
      stays. A missing not-before stays missing; otherwise the larger text stays. */
  lemma MergeWrites(current: Meta, request: Meta)
    requires request.priority.Some? && request.notBefore.Some?
    ensures var n := Merge(current, request);
            && n == current.(priority := n.priority, notBefore := n.notBefore)
            && (current.priority.None? ==> n.priority == request.priority)
            && (current.priority.Some? ==>
                  && (n.priority == current.priority || n.priority == request.priority)
                  && !StrLess(n.priority.value, current.priority.value)
                  && !StrLess(n.priority.value, request.priority.value))
            && (current.notBefore.None? ==> n.notBefore.None?)
            && (current.notBefore.Some? ==>
                  && (n.notBefore == current.notBefore || n.notBefore == request.notBefore)
                  && !StrLess(n.notBefore.value, current.notBefore.value)
                  && !StrLess(n.notBefore.value, request.notBefore.value))
            && (Updates(current, request) <==> n != current)
  {
    hide StrLess;
    if current.priority.Some? {
      Ordered(current.priority.value, request.priority.value);
    }
    if current.notBefore.Some? {
      Ordered(current.notBefore.value, request.notBefore.value);
    }
  }

  lemma Ordered(a: string, b: string)
    ensures !StrLess(a, a) && !StrLess(b, b) && !(StrLess(a, b) && StrLess(b, a))
  {
    StrLessIrreflexive(a);
    StrLessIrreflexive(b);
    if StrLess(a, b) && StrLess(b, a) {
      StrLessTransitive(a, b, a);
    }
  }

  /** A key without a lease, or with one that cannot be read, is orphaned at every instant; one with a lease
      from the first instant after it. */
  lemma OrphanedExactly(m: Meta, until: Time)
    requires InRange(until) && Truncate(until) == until
    ensures m.lease == Some(FormatTime(until)) ==> forall t :: IsOrphaned(m, t) <==> t > until
    ensures (forall u | InRange(u) && Truncate(u) == u :: m.lease != Some(FormatTime(u))) ==>
              forall t :: IsOrphaned(m, t)
  {
    hide FormatTime, ParseTime;
    ParsesExactly(FormatTime(until), until);
    if m.lease.Some? && ParseTime(m.lease.value).Some? {
      ParsesExactly(m.lease.value, ParseTime(m.lease.value).value);
    }
  }

  /** A queued key is held back exactly until the not-before it was written with; one without a not-before, or
      with one that cannot be read, never is. */
  lemma DelayedExactly(m: Meta, until: Time)
    requires InRange(until) && Truncate(until) == until
    ensures m.notBefore == Some(FormatTime(until)) ==> forall t :: Delayed(m, t) <==> t < until
    ensures (forall u | InRange(u) && Truncate(u) == u :: m.notBefore != Some(FormatTime(u))) ==>
              forall t :: !Delayed(m, t)
  {
    hide FormatTime, ParseTime;
    ParsesExactly(FormatTime(until), until);
    if m.notBefore.Some? && ParseTime(m.notBefore.value).Some? {
      ParsesExactly(m.notBefore.value, ParseTime(m.notBefore.value).value);
    }
  }

  /** A key without a priority, or with one that cannot be read, ranks with those of priority zero. */
  lemma PriorityExactly(m: Meta)
    ensures IsNumber(m.priority) ==> Atoi(m.priority.value) == Some(PriorityOf(m))
    ensures !IsNumber(m.priority) ==> PriorityOf(m) == 0 == PriorityOf(QueueMeta(NO_OPTIONS))
  {
    hide Atoi, PadInt, FormatTime;
    EmptyReads();
    AtoiInvertsPadInt(0, 8);
  }

  /** An enumeration lists higher priorities first, then older objects, then smaller names, and every eligible
      key that is left out comes after all that are listed. */
  lemma EnumerationOrder(s: Store, now: Time, limit: nat, next: seq<Candidate>)
    requires IsTop(Before, Eligible(s, now), limit, next)
    ensures forall i, j | 0 <= i < j < |next| :: Precedes(next[i], next[j])
    ensures forall i, y | 0 <= i < |next| && y in Eligible(s, now) && y !in next :: Precedes(next[i], y)
  {
    hide StrLess, Delayed, PriorityOf;
    forall i, j | 0 <= i < j < |next|
      ensures Precedes(next[i], next[j])
    {
      assert next[i] in Elements(next) && next[j] in Elements(next);
      BeforeOrPrecedes(s, now, next[j], next[i]);
    }
    forall i, y | 0 <= i < |next| && y in Eligible(s, now) && y !in next
      ensures Precedes(next[i], y)
    {
      assert next[i] in Elements(next) && y in Eligible(s, now) - Elements(next);
      BeforeOrPrecedes(s, now, y, next[i]);
    }
  }

  predicate Precedes(a: Candidate, b: Candidate) {
    || a.priority > b.priority
    || (a.priority == b.priority && a.attrs.created < b.attrs.created)
    || (a.priority == b.priority && a.attrs.created == b.attrs.created && StrLess(a.key, b.key))
  }

  lemma BeforeOrPrecedes(s: Store, now: Time, a: Candidate, b: Candidate)
    requires a in Eligible(s, now) && b in Eligible(s, now) && a != b && !Before(a, b)
    ensures Precedes(b, a)
  {
    hide StrLess, Delayed, PriorityOf;
    StrLessTotal(a.key, b.key);
  }

  /** A metadata update writes the entries it names and keeps the others: an empty one changes nothing, one
      that names all replaces all, and two in a row are one in which the later wins. */
  lemma PatchWrites(m: Meta, p: Meta, q: Meta)
    ensures Patched(m, NO_META) == m && Patched(NO_META, p) == p
    ensures (p.priority.Some? && p.notBefore.Some? && p.lease.Some? && p.attempts.Some? && p.lastAttempted.Some?
             && p.failedTime.Some?) ==> Patched(m, p) == p
    ensures Patched(Patched(m, p), q) == Patched(m, Patched(p, q))
  {
  }

  /** Queueing a queued key again without options changes nothing, whatever its metadata; any option that is
      printed differently fills in a missing priority. */
  lemma PlainRequestChangesNothing(s: Store, key: string, opts: Options)
    requires Queued(key) in s.objects
    ensures opts.priority == 0 && 0 <= opts.notBefore < SECOND ==> AfterUpdateMetadata(s, key, QueueMeta(opts)) == s
    ensures s.objects[Queued(key)].meta.priority.None? && InRange(opts.notBefore)
            && (opts.priority != 0 || opts.notBefore >= SECOND) ==>
              var t := AfterUpdateMetadata(s, key, QueueMeta(opts));
              t.objects[Queued(key)].meta.priority == QueueMeta(opts).priority
  {
    hide FormatTime, PadInt, StrLess;
    if InRange(opts.notBefore) {
      FormatOrder(opts.notBefore, 0);
    }
    AtoiInvertsPadInt(opts.priority, 8);
    AtoiInvertsPadInt(0, 8);
  }
}
