/** The bucket-backed work queue.

    The functions compute the metadata and the effect of each call when nothing interleaves; the
    classes run the calls step by step. How the steps of several callers interleave is the subject
    of the module Protocol, which uses the same metadata functions. */
module Gcs {
  import opened Wrappers
  import opened Text
  import opened Timestamp
  import opened Workqueue
  import opened TopK
  import opened Bucket

  const REFRESH_INTERVAL: Time := 5 * MINUTE

  const NO_PRIORITY: string := PadInt(0, 8)
  const NO_NOT_BEFORE: string := FormatTime(0)

  /** Seconds from the zero time to the Unix epoch. */
  const UNIX_EPOCH: int := DaysBeforeYear(1970) * 86400

  function QueueMeta(opts: Options): Meta {
    NO_META.(priority := Some(PadInt(opts.priority, 8)), notBefore := Some(FormatTime(opts.notBefore)))
  }

  /** Whether a request carries an option worth merging into a key that is already queued. */
  predicate HasOptions(m: Meta) {
    m.priority.GetOr("") != NO_PRIORITY || m.notBefore.GetOr("") != NO_NOT_BEFORE
  }

  predicate RaisesPriority(current: Meta, request: Meta) {
    current.priority.None? || StrLess(current.priority.value, request.priority.GetOr(""))
  }

  predicate RaisesNotBefore(current: Meta, request: Meta) {
    current.notBefore.Some? && StrLess(current.notBefore.value, request.notBefore.GetOr(""))
  }

  /** The queued key's metadata after a request was merged into it. */
  function Merge(current: Meta, request: Meta): Meta {
    var m := if RaisesPriority(current, request)
             then current.(priority := Some(request.priority.GetOr(""))) else current;
    if RaisesNotBefore(current, request) then m.(notBefore := Some(request.notBefore.GetOr(""))) else m
  }

  predicate Updates(current: Meta, request: Meta) {
    RaisesPriority(current, request) || RaisesNotBefore(current, request)
  }

  function LeaseText(now: Time): string {
    FormatTime(now + 3 * REFRESH_INTERVAL)
  }

  /** The attempts entry after one more start; a malformed count starts over. */
  function NextAttempt(attempts: Option<string>): string {
    if attempts.None? || Atoi(attempts.value).None? then Itoa(1)
    else Itoa(Atoi(attempts.value).value + 1)
  }

  function StartMeta(m: Meta, now: Time): Meta {
    m.(lease := Some(LeaseText(now)), attempts := Some(NextAttempt(m.attempts)), notBefore := Some(NO_NOT_BEFORE))
  }

  function AttemptsOf(m: Meta): int {
    Atoi(m.attempts.GetOr("")).GetOr(0)
  }

  /** A requeue drops the lease, delays as asked or by the backoff of a prioritised key, and writes
      an explicit priority without padding. */
  function RequeueMeta(m: Meta, opts: Options, now: Time): Meta {
    var m := m.(lease := None, lastAttempted := Some(Itoa(now / SECOND - UNIX_EPOCH)));
    var m :=
      if opts.delay > 0 then m.(notBefore := Some(FormatTime(now + opts.delay)))
      else if m.priority.Some? && m.priority.value != NO_PRIORITY then
        m.(notBefore := Some(FormatTime(now + Backoff(Atoi(m.attempts.GetOr("")).GetOr(1)))))
      else m;
    if opts.priority != 0 then m.(priority := Some(Itoa(opts.priority))) else m
  }

  function DeadMeta(m: Meta, now: Time): Meta {
    m.(lease := None, failedTime := Some(FormatTime(now)))
  }

  /** A key without a readable lease, or past it, has lost its owner. */
  predicate IsOrphaned(m: Meta, now: Time) {
    m.lease.None? || ParseTime(m.lease.value).None? || now > ParseTime(m.lease.value).value
  }

  function LeaseRefresh(now: Time): Meta {
    NO_META.(lease := Some(LeaseText(now)))
  }

  function PriorityOf(m: Meta): int {
    Atoi(m.priority.GetOr("")).GetOr(0)
  }

  /** Whether `Enumerate` skips a queued key: an unreadable not-before never holds a key back. */
  predicate Delayed(m: Meta, now: Time) {
    m.notBefore.Some? && ParseTime(m.notBefore.value).Some? && now < ParseTime(m.notBefore.value).value
  }

  // The whole effect of a call when nothing interleaves

  function AfterUpdateMetadata(s: Store, key: string, request: Meta): Store
    requires Queued(key) in s.objects
  {
    var current := s.objects[Queued(key)].meta;
    if HasOptions(request) && Updates(current, request) then Update(s, Queued(key), Merge(current, request)) else s
  }

  function AfterQueue(s: Store, key: string, opts: Options, now: Time): Store {
    if Queued(key) in s.objects then AfterUpdateMetadata(s, key, QueueMeta(opts))
    else Put(s, Queued(key), QueueMeta(opts), now)
  }

  /** `attrs` is the snapshot the key's handle took when it was listed. */
  function AfterStart(s: Store, key: string, attrs: Obj, now: Time): Option<(Store, Obj)> {
    if Queued(key) !in s.objects || InProgress(key) in s.objects then None
    else
      var copied := Put(s, InProgress(key), StartMeta(attrs.meta, now), now);
      Some((Delete(copied, Queued(key)), copied.objects[InProgress(key)]))
  }

  function AfterRequeue(s: Store, key: string, attrs: Obj, opts: Options, now: Time): Option<Store> {
    var request := RequeueMeta(attrs.meta, opts, now);
    if InProgress(key) !in s.objects then None
    else
      var queued := if Queued(key) in s.objects then AfterUpdateMetadata(s, key, request)
                    else Put(s, Queued(key), request, now);
      Some(Delete(queued, InProgress(key)))
  }

  function AfterComplete(s: Store, key: string): Store {
    Delete(Delete(s, DeadLetter(key)), InProgress(key))
  }

  function AfterDeadletter(s: Store, key: string, attrs: Obj, now: Time): Option<Store> {
    if InProgress(key) !in s.objects then None
    else Some(Delete(Put(s, DeadLetter(key), DeadMeta(attrs.meta, now), now), InProgress(key)))
  }

  /** The lease refresh succeeds only on the metageneration the owner last saw. */
  function AfterHeartbeat(s: Store, key: string, attrs: Obj, now: Time): Option<(Store, Obj)> {
    if InProgress(key) !in s.objects || s.objects[InProgress(key)].metageneration != attrs.metageneration then None
    else
      var refreshed := Update(s, InProgress(key), LeaseRefresh(now));
      Some((refreshed, refreshed.objects[InProgress(key)]))
  }

  // The order of the queue

  datatype Candidate = Candidate(key: string, attrs: Obj, priority: int)

  function Listed(key: string, attrs: Obj): Candidate {
    Candidate(key, attrs, PriorityOf(attrs.meta))
  }

  function KeyOf(c: Candidate): string {
    c.key
  }

  /** Higher priority first, then the older object, then the smaller name. */
  predicate Before(a: Candidate, b: Candidate) {
    if a.priority != b.priority then a.priority > b.priority
    else if a.attrs.created != b.attrs.created then a.attrs.created < b.attrs.created
    else StrLess(a.key, b.key)
  }

  lemma BeforeIsWeakOrder()
    ensures StrictWeakOrder(Before)
  {
    forall a, b, c
      ensures !Before(a, a)
      ensures Before(a, b) && Before(b, c) ==> Before(a, c)
      ensures Before(a, c) ==> Before(a, b) || Before(b, c)
    {
      StrLessIrreflexive(a.key);
      if StrLess(a.key, b.key) && StrLess(b.key, c.key) {
        StrLessTransitive(a.key, b.key, c.key);
      }
      StrLessTotal(a.key, b.key);
      StrLessTotal(b.key, c.key);
      if StrLess(b.key, a.key) && StrLess(a.key, c.key) {
        StrLessTransitive(b.key, a.key, c.key);
      }
      if StrLess(c.key, b.key) && StrLess(a.key, c.key) {
        StrLessTransitive(a.key, c.key, b.key);
      }
    }
  }

  ghost function Eligible(s: Store, now: Time): set<Candidate> {
    set n | n in s.objects && n.Queued? && !Delayed(s.objects[n].meta, now) :: Listed(n.key, s.objects[n])
  }

  ghost function WorkInProgress(s: Store): set<Candidate> {
    set n | n in s.objects && n.InProgress? :: Listed(n.key, s.objects[n])
  }

  /** Names settle every tie, so the enumeration has one answer. */
  lemma EligibleHasNoTies(s: Store, now: Time)
    ensures TotalOn(Before, Eligible(s, now))
  {
    forall a, b | a in Eligible(s, now) && b in Eligible(s, now) && a != b
      ensures Before(a, b) || Before(b, a)
    {
      StrLessTotal(a.key, b.key);
    }
  }

  /** So two walks of the same bucket, in whatever order, enumerate the same keys in the same order:
      the first `limit` of the full ranking. */
  lemma EnumerationIsUnique(s: Store, now: Time, limit: nat, next: seq<Candidate>, other: seq<Candidate>,
                            full: seq<Candidate>)
    requires IsTop(Before, Eligible(s, now), limit, next) && IsTop(Before, Eligible(s, now), limit, other)
    requires IsTop(Before, Eligible(s, now), |Eligible(s, now)|, full)
    ensures next == other == full[..Min(limit, |full|)]
  {
    hide Eligible, Before;
    BeforeIsWeakOrder();
    EligibleHasNoTies(s, now);
    TopIsPrefixOfRanking(Before, Eligible(s, now), limit, next, full);
    TopIsPrefixOfRanking(Before, Eligible(s, now), limit, other, full);
  }

  // The calls, step by step

  class WorkQueue {
    const limit: nat
    var bucket: Store

    constructor (bucket: Store, limit: nat)
      ensures this.bucket == bucket && this.limit == limit
    {
      this.bucket, this.limit := bucket, limit;
    }

    method Queue(key: string, opts: Options, now: Time)
      modifies this
      ensures bucket == AfterQueue(old(bucket), key, opts, now)
    {
      var meta := NO_META.(priority := Some(PadInt(opts.priority, 8)));
      meta := meta.(notBefore := Some(FormatTime(opts.notBefore)));
      if Queued(key) in bucket.objects {
        UpdateMetadata(key, meta);
      } else {
        bucket := Put(bucket, Queued(key), meta, now);
      }
    }

    /** Reads the queued object, merges the request into its metadata and writes it back if it changed. */
    method UpdateMetadata(key: string, request: Meta)
      requires Queued(key) in bucket.objects
      modifies this
      ensures bucket == AfterUpdateMetadata(old(bucket), key, request)
    {
      if request.priority.GetOr("") == NO_PRIORITY && request.notBefore.GetOr("") == NO_NOT_BEFORE {
        return;
      }
      var attrs := bucket.objects[Queued(key)];
      var update := false;
      if attrs.meta.priority.None? || StrLess(attrs.meta.priority.value, request.priority.GetOr("")) {
        attrs := attrs.(meta := attrs.meta.(priority := Some(request.priority.GetOr(""))));
        update := true;
      }
      if attrs.meta.notBefore.Some? && StrLess(attrs.meta.notBefore.value, request.notBefore.GetOr("")) {
        attrs := attrs.(meta := attrs.meta.(notBefore := Some(request.notBefore.GetOr(""))));
        update := true;
      }
      if update {
        bucket := Update(bucket, Queued(key), attrs.meta);
      }
    }

    /** The keys in progress and the first `limit` of the eligible queued keys, whatever the order
        in which the bucket is listed. */
    method Enumerate(now: Time) returns (wip: seq<Candidate>, next: seq<Candidate>)
      ensures Distinct(wip) && Elements(wip) == WorkInProgress(bucket)
      ensures IsTop(Before, Eligible(bucket, now), limit, next)
    {
      hide Delayed, PriorityOf, Before;
      BeforeIsWeakOrder();
      wip := [];
      next := [];
      var rest := bucket.objects.Keys;
      ghost var seen: set<Candidate> := {};
      while rest != {}
        invariant rest <= bucket.objects.Keys
        invariant Distinct(wip)
        invariant Elements(wip) == set n | n in bucket.objects.Keys - rest && n.InProgress?
                                   :: Listed(n.key, bucket.objects[n])
        invariant seen == set n | n in bucket.objects.Keys - rest && n.Queued? && !Delayed(bucket.objects[n].meta, now)
                          :: Listed(n.key, bucket.objects[n])
        invariant IsTop(Before, seen, limit, next)
        decreases rest
      {
        var n :| n in rest;
        rest := rest - {n};
        var attrs := bucket.objects[n];
        if n.InProgress? {
          AppendDistinct(wip, Listed(n.key, attrs));
          wip := wip + [Listed(n.key, attrs)];
        } else if n.Queued? && !Delayed(attrs.meta, now) {
          var c := Listed(n.key, attrs);
          next := Admit(seen, next, c, limit, Before);
          seen := seen + {c};
        }
      }
      assert seen == Eligible(bucket, now);
      assert Elements(wip) == WorkInProgress(bucket);
    }
  }

  /** The handle of a listed key. Starting rewrites the metadata the handle shares with its listing. */
  class QueuedKey {
    const queue: WorkQueue
    const key: string
    const priority: int
    var attrs: Obj

    constructor (queue: WorkQueue, c: Candidate)
      ensures this.queue == queue && key == c.key && priority == c.priority && attrs == c.attrs
    {
      this.queue, key, priority, attrs := queue, c.key, c.priority, c.attrs;
    }

    method Start(now: Time) returns (owned: InProgressKey?)
      modifies queue, this
      ensures attrs == old(attrs).(meta := StartMeta(old(attrs.meta), now))
      ensures match AfterStart(old(queue.bucket), key, old(attrs), now)
              case None => owned == null && queue.bucket == old(queue.bucket)
              case Some(r) =>
                && queue.bucket == r.0
                && owned != null && fresh(owned)
                && owned.queue == queue && owned.key == key && owned.attrs == r.1 && owned.priority == priority
    {
      var meta := attrs.meta.(lease := Some(LeaseText(now)));
      if meta.attempts.Some? {
        if Atoi(meta.attempts.value).None? {
          meta := meta.(attempts := Some(Itoa(1)));
        } else {
          meta := meta.(attempts := Some(Itoa(Atoi(meta.attempts.value).value + 1)));
        }
      } else {
        meta := meta.(attempts := Some(Itoa(1)));
      }
      meta := meta.(notBefore := Some(NO_NOT_BEFORE));
      attrs := attrs.(meta := meta);
      if Queued(key) !in queue.bucket.objects || InProgress(key) in queue.bucket.objects {
        return null;
      }
      queue.bucket := Put(queue.bucket, InProgress(key), meta, now);
      var copied := queue.bucket.objects[InProgress(key)];
      queue.bucket := Delete(queue.bucket, Queued(key));
      owned := new InProgressKey(queue, Candidate(key, copied, priority));
    }
  }

  /** The handle of a key in progress, owned or only observed. */
  class InProgressKey {
    const queue: WorkQueue
    const key: string
    const priority: int
    var attrs: Obj

    constructor (queue: WorkQueue, c: Candidate)
      ensures this.queue == queue && key == c.key && priority == c.priority && attrs == c.attrs
    {
      this.queue, key, priority, attrs := queue, c.key, c.priority, c.attrs;
    }

    /** Rewrites the handle's metadata in place for the move back to the queue. */
    method PrepareRequeue(opts: Options, now: Time)
      modifies this
      ensures attrs == old(attrs).(meta := RequeueMeta(old(attrs.meta), opts, now))
    {
      hide FormatTime, Itoa, Atoi, Backoff;
      var meta := attrs.meta.(lease := None);
      meta := meta.(lastAttempted := Some(Itoa(now / SECOND - UNIX_EPOCH)));
      if opts.delay > 0 {
        meta := meta.(notBefore := Some(FormatTime(now + opts.delay)));
      } else if meta.priority.Some? && meta.priority.value != NO_PRIORITY {
        var attempts := Atoi(meta.attempts.GetOr(""));
        if attempts.None? {
          attempts := Some(1);
        }
        meta := meta.(notBefore := Some(FormatTime(now + Backoff(attempts.value))));
      }
      if opts.priority != 0 {
        meta := meta.(priority := Some(Itoa(opts.priority)));
      }
      attrs := attrs.(meta := meta);
    }

    method RequeueWithOptions(opts: Options, now: Time) returns (ok: bool)
      modifies queue, this
      ensures attrs == old(attrs).(meta := RequeueMeta(old(attrs.meta), opts, now))
      ensures match AfterRequeue(old(queue.bucket), key, old(attrs), opts, now)
              case None => !ok && queue.bucket == old(queue.bucket)
              case Some(s) => ok && queue.bucket == s
    {
      PrepareRequeue(opts, now);
      if InProgress(key) !in queue.bucket.objects {
        return false;
      }
      if Queued(key) in queue.bucket.objects {
        queue.UpdateMetadata(key, attrs.meta);
      } else {
        queue.bucket := Put(queue.bucket, Queued(key), attrs.meta, now);
      }
      queue.bucket := Delete(queue.bucket, InProgress(key));
      ok := true;
    }

    method Complete() returns (ok: bool)
      modifies queue
      ensures queue.bucket == AfterComplete(old(queue.bucket), key)
      ensures ok <==> InProgress(key) in old(queue.bucket).objects
    {
      queue.bucket := Delete(queue.bucket, DeadLetter(key));
      ok := InProgress(key) in queue.bucket.objects;
      queue.bucket := Delete(queue.bucket, InProgress(key));
    }

    method Deadletter(now: Time) returns (ok: bool)
      modifies queue, this
      ensures attrs == old(attrs).(meta := DeadMeta(old(attrs.meta), now))
      ensures match AfterDeadletter(old(queue.bucket), key, old(attrs), now)
              case None => !ok && queue.bucket == old(queue.bucket)
              case Some(s) => ok && queue.bucket == s
    {
      var meta := attrs.meta.(lease := None);
      meta := meta.(failedTime := Some(FormatTime(now)));
      attrs := attrs.(meta := meta);
      if InProgress(key) !in queue.bucket.objects {
        return false;
      }
      queue.bucket := Put(queue.bucket, DeadLetter(key), meta, now);
      queue.bucket := Delete(queue.bucket, InProgress(key));
      ok := true;
    }

    /** One tick of the heartbeat; on failure the owner's context is cancelled. */
    method Heartbeat(now: Time) returns (ok: bool)
      modifies queue, this
      ensures match AfterHeartbeat(old(queue.bucket), key, old(attrs), now)
              case None => !ok && queue.bucket == old(queue.bucket) && attrs == old(attrs)
              case Some(r) => ok && queue.bucket == r.0 && attrs == r.1
    {
      if InProgress(key) !in queue.bucket.objects {
        return false;
      }
      if queue.bucket.objects[InProgress(key)].metageneration != attrs.metageneration {
        return false;
      }
      queue.bucket := Update(queue.bucket, InProgress(key), LeaseRefresh(now));
      attrs := queue.bucket.objects[InProgress(key)];
      ok := true;
    }
  }
}
