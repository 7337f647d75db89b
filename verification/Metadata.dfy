/** What the metadata of every object in the bucket looks like, in every reachable state.

    This needs neither H1 nor H2: stale snapshots, racing read-modify-write merges and foreign
    heartbeats may all write, and the shapes below survive them. */
module Metadata {
  import opened Wrappers
  import opened Text
  import opened Timestamp
  import opened Workqueue
  import opened Bucket
  import opened Gcs
  import opened Protocol

  predicate Number(text: Option<string>) {
    text.Some? && Atoi(text.value).Some?
  }

  predicate Counted(attempts: Option<string>) {
    Number(attempts) && Atoi(attempts.value).value >= 1
  }

  predicate Readable(text: Option<string>) {
    text.Some? && ParseTime(text.value).Some?
  }

  /** What can be copied back to the queue. */
  predicate Requeueable(m: Meta) {
    Number(m.priority) && Readable(m.notBefore) && Counted(m.attempts)
  }

  predicate QueuedShape(m: Meta) {
    Number(m.priority) && Readable(m.notBefore) && m.lease.None? && (m.attempts.Some? ==> Counted(m.attempts))
  }

  predicate InProgressShape(m: Meta) {
    Number(m.priority) && m.notBefore == Some(NO_NOT_BEFORE) && Readable(m.lease) && Counted(m.attempts)
  }

  predicate DeadShape(m: Meta) {
    Number(m.priority) && m.lease.None? && Counted(m.attempts) && Readable(m.failedTime)
  }

  predicate Shaped(n: Name, m: Meta) {
    match n
    case Queued(_) => QueuedShape(m)
    case InProgress(_) => InProgressShape(m)
    case DeadLetter(_) => DeadShape(m)
  }

  /** The shapes of the metadata a call in flight holds. */
  predicate Carries(act: Actor) {
    && (act.QueueCreate? || act.QueueRead? || act.QueuePatch? ==> QueuedShape(act.request))
    && (act.QueuePatch? || act.RequeuePatch? ==> QueuedShape(act.merged))
    && (act.StartPrepare? ==> QueuedShape(act.meta))
    && (act.StartCopy? ==> InProgressShape(act.meta))
    && (act.Claims() ==> InProgressShape(act.claim.attrs.meta))
    && (act.Observed? ==> InProgressShape(act.attrs.meta))
    && (act.RequeuePrepare? ==> Requeueable(act.meta) && ValidOptions(act.opts))
    && (act.RequeueCopy? || act.RequeueRead? || act.RequeuePatch? ==>
          Requeueable(act.meta) && QueuedShape(act.meta) && ValidOptions(act.opts))
  }

  ghost predicate WellFormed(s: System) {
    && FIRST <= s.now <= LAST
    && (forall n | n in s.bucket.objects :: Shaped(n, s.bucket.objects[n].meta))
    && (forall a | a in s.actors :: Carries(s.actors[a]))
  }

  // Each metadata function keeps the shapes

  lemma PrintedTimeIsReadable(t: Time)
    requires InRange(t)
    ensures Readable(Some(FormatTime(t)))
  {
    ParseInvertsFormat(t);
  }

  lemma ClockIsPrintable(t: Time, d: Time)
    requires FIRST <= t <= LAST && -TWO_63 <= d < TWO_63
    ensures InRange(t + d)
  {
  }

  lemma QueueMetaShape(opts: Options)
    requires ValidOptions(opts)
    ensures QueuedShape(QueueMeta(opts))
  {
    hide ParseTime, FormatTime, Atoi, PadInt;
    AtoiInvertsPadInt(opts.priority, 8);
    PrintedTimeIsReadable(opts.notBefore);
  }

  lemma MergeShape(current: Meta, request: Meta)
    requires QueuedShape(current) && QueuedShape(request)
    ensures QueuedShape(Merge(current, request))
  {
    hide ParseTime, Atoi, StrLess;
  }

  lemma PatchShape(current: Meta, patch: Meta)
    requires QueuedShape(current) && QueuedShape(patch)
    ensures QueuedShape(Patched(current, patch))
  {
    hide ParseTime, Atoi;
  }

  lemma RefreshShape(current: Meta, now: Time)
    requires InProgressShape(current) && FIRST <= now <= LAST
    ensures InProgressShape(Patched(current, LeaseRefresh(now)))
  {
    hide ParseTime, FormatTime, Atoi;
    ClockIsPrintable(now, 3 * REFRESH_INTERVAL);
    PrintedTimeIsReadable(now + 3 * REFRESH_INTERVAL);
  }

  lemma StartMetaShape(m: Meta, now: Time)
    requires QueuedShape(m) && FIRST <= now <= LAST
    ensures InProgressShape(StartMeta(m, now))
  {
    hide ParseTime, FormatTime, Atoi, Itoa;
    ClockIsPrintable(now, 3 * REFRESH_INTERVAL);
    PrintedTimeIsReadable(now + 3 * REFRESH_INTERVAL);
    AtoiInvertsItoa(1);
    if m.attempts.Some? {
      AtoiInvertsItoa(Atoi(m.attempts.value).value + 1);
    }
  }

  lemma ZeroTimeIsReadable()
    ensures Readable(Some(NO_NOT_BEFORE))
  {
    hide ParseTime, FormatTime;
    PrintedTimeIsReadable(0);
  }

  /** A backoff never leaves the range of a 64-bit duration, even when the product wraps. */
  lemma RequeueMetaShape(m: Meta, opts: Options, now: Time)
    requires Requeueable(m) && ValidOptions(opts) && FIRST <= now <= LAST
    ensures Requeueable(RequeueMeta(m, opts, now)) && QueuedShape(RequeueMeta(m, opts, now))
  {
    hide ParseTime, FormatTime, Atoi, Itoa, Wrap64;
    AtoiInvertsItoa(opts.priority);
    var wait := if opts.delay > 0 then opts.delay else Backoff(Atoi(m.attempts.GetOr("")).GetOr(1));
    ClockIsPrintable(now, wait);
    PrintedTimeIsReadable(now + wait);
  }

  lemma DeadMetaShape(m: Meta, now: Time)
    requires InProgressShape(m) && FIRST <= now <= LAST
    ensures DeadShape(DeadMeta(m, now))
  {
    hide ParseTime, FormatTime, Atoi;
    ClockIsPrintable(now, 0);
    PrintedTimeIsReadable(now);
  }

  // Each step keeps the shapes

  /** A step that writes at most one object, in its shape, keeps the shapes of all others. */
  lemma WriteKeepsShapes(s: System, t: System, a: nat, n: Name)
    requires WellFormed(s) && a in t.actors && t.now == s.now && t.actors == s.actors[a := t.actors[a]]
    requires forall o | o in t.bucket.objects && o != n ::
               o in s.bucket.objects && t.bucket.objects[o] == s.bucket.objects[o]
    requires n in t.bucket.objects ==> Shaped(n, t.bucket.objects[n].meta)
    requires Carries(t.actors[a])
    ensures WellFormed(t)
  {
    hide Shaped, Carries;
  }

  lemma QueueKeepsShapes(s: System, a: nat)
    requires WellFormed(s) && a in s.actors
    requires s.actors[a].QueueCreate? || s.actors[a].QueueRead? || s.actors[a].QueuePatch?
    ensures WellFormed(QueueSteps(s, a, s.actors[a]))
  {
    hide QueuedShape, InProgressShape, DeadShape, Requeueable, Merge, Patched, Updates, HasOptions, WellFormed;
    var act, t := s.actors[a], QueueSteps(s, a, s.actors[a]);
    var n := Queued(act.key);
    WellFormedParts(s, a, n);
    if n in s.bucket.objects {
      MergeShape(s.bucket.objects[n].meta, act.request);
      if act.QueuePatch? {
        PatchShape(s.bucket.objects[n].meta, act.merged);
      }
    }
    WriteKeepsShapes(s, t, a, n);
  }

  lemma WellFormedParts(s: System, a: nat, n: Name)
    requires WellFormed(s) && a in s.actors
    ensures Carries(s.actors[a]) && (n in s.bucket.objects ==> Shaped(n, s.bucket.objects[n].meta))
    ensures FIRST <= s.now <= LAST
  {
    hide Shaped, Carries;
  }

  lemma StartKeepsShapes(s: System, a: nat)
    requires WellFormed(s) && a in s.actors
    requires s.actors[a].StartPrepare? || s.actors[a].StartCopy? || s.actors[a].StartDelete? || s.actors[a].StartReturn?
    ensures WellFormed(StartSteps(s, a, s.actors[a]))
  {
    hide QueuedShape, StartMeta, InProgressShape, DeadShape, Requeueable, WellFormed;
    var act, t := s.actors[a], StartSteps(s, a, s.actors[a]);
    var n := if act.StartCopy? then InProgress(act.key)
             else Queued(if act.StartPrepare? then act.key else act.claim.key);
    WellFormedParts(s, a, n);
    if act.StartPrepare? {
      StartMetaShape(act.meta, s.now);
    }
    WriteKeepsShapes(s, t, a, n);
  }

  lemma FinishKeepsShapes(s: System, a: nat)
    requires WellFormed(s) && a in s.actors
    requires s.actors[a].CompleteDead? || s.actors[a].CompleteDelete? || s.actors[a].DeadletterCopy?
             || s.actors[a].DeadletterDelete?
    ensures WellFormed(FinishSteps(s, a, s.actors[a]))
  {
    hide QueuedShape, DeadMeta, InProgressShape, DeadShape;
    DeadMetaShape(s.actors[a].claim.attrs.meta, s.now);
  }

  lemma RequeueKeepsShapes(s: System, a: nat)
    requires WellFormed(s) && a in s.actors
    requires s.actors[a].RequeuePrepare? || s.actors[a].RequeueCopy? || s.actors[a].RequeueRead?
             || s.actors[a].RequeuePatch? || s.actors[a].RequeueDelete?
    ensures WellFormed(RequeueSteps(s, a, s.actors[a]))
  {
    hide QueuedShape, Requeueable, RequeueMeta, Merge, Patched, Updates, HasOptions, InProgressShape, ValidOptions,
      WellFormed;
    var act, t := s.actors[a], RequeueSteps(s, a, s.actors[a]);
    var n := Queued(act.claim.key);
    WellFormedParts(s, a, n);
    if act.RequeuePrepare? {
      RequeueMetaShape(act.meta, act.opts, s.now);
    } else if n in s.bucket.objects {
      if act.RequeueRead? {
        MergeShape(s.bucket.objects[n].meta, act.meta);
      } else if act.RequeuePatch? {
        PatchShape(s.bucket.objects[n].meta, act.merged);
      }
    }
    WriteKeepsShapes(s, t, a, if act.RequeueDelete? then InProgress(act.claim.key) else n);
  }

  lemma ExistsKeepsShapes(s: System, a: nat)
    requires WellFormed(s) && a in s.actors && Exists(s, a).Some?
    ensures WellFormed(Exists(s, a).value)
  {
    hide QueuedShape, Requeueable, HasOptions, InProgressShape, ValidOptions, WellFormed;
    var t, n := Exists(s, a).value, Queued(s.actors[a].claim.key);
    WellFormedParts(s, a, n);
    WriteKeepsShapes(s, t, a, n);
  }

  lemma BeatKeepsShapes(h: Hypotheses, s: System, a: nat)
    requires WellFormed(s) && a in s.actors && Beat(h, s, a).Some?
    ensures WellFormed(Beat(h, s, a).value)
  {
    hide QueuedShape, Patched, LeaseRefresh, InProgressShape, DeadShape, IsOrphaned;
    var n := InProgress(s.actors[a].claim.key);
    if n in s.bucket.objects {
      assert Shaped(n, s.bucket.objects[n].meta);
      RefreshShape(s.bucket.objects[n].meta, s.now);
    }
  }

  lemma InProgressIsRequeueable(m: Meta)
    requires InProgressShape(m)
    ensures Requeueable(m)
  {
    hide ParseTime, Atoi, FormatTime;
    ZeroTimeIsReadable();
  }

  lemma ActKeepsShapes(h: Hypotheses, s: System, a: nat)
    requires WellFormed(s) && a in s.actors && Act(h, s, a).Some?
    ensures WellFormed(Act(h, s, a).value)
  {
    hide IsOrphaned, QueueSteps, StartSteps, FinishSteps, RequeueSteps, InProgressShape, QueuedShape, DeadShape,
      Requeueable, Timely;
    var act := s.actors[a];
    if act.QueueCreate? || act.QueueRead? || act.QueuePatch? {
      QueueKeepsShapes(s, a);
    } else if act.StartPrepare? || act.StartCopy? || act.StartDelete? || act.StartReturn? {
      StartKeepsShapes(s, a);
    } else if act.CompleteDead? || act.CompleteDelete? || act.DeadletterCopy? || act.DeadletterDelete? {
      FinishKeepsShapes(s, a);
    } else if act.Claims() {
      RequeueKeepsShapes(s, a);
    } else {
      InProgressIsRequeueable(act.attrs.meta);
    }
  }

  lemma ReturnKeepsShapes(s: System, a: nat, verdict: Verdict)
    requires WellFormed(s) && a in s.actors && Finish(s, a, verdict).Some?
    ensures WellFormed(Finish(s, a, verdict).value)
  {
    hide InProgressShape, QueuedShape, DeadShape, Requeueable, ValidOptions;
    InProgressIsRequeueable(s.actors[a].claim.attrs.meta);
  }

  lemma BecomesKeepsShapes(s: System, a: nat, next: Actor)
    requires WellFormed(s) && Carries(next)
    ensures WellFormed(Become(s, a, next))
  {
    hide Shaped, Carries;
  }

  lemma ObjectShaped(s: System, n: Name)
    requires WellFormed(s) && n in s.bucket.objects
    ensures Shaped(n, s.bucket.objects[n].meta)
  {
    hide Shaped, Carries;
  }

  lemma TickKeepsShapes(s: System, to: Time)
    requires WellFormed(s) && s.now <= to <= LAST
    ensures WellFormed(s.(now := to))
  {
    hide Shaped, Carries;
  }

  lemma NextKeepsShapes(h: Hypotheses, s: System, l: Label)
    requires WellFormed(s) && Next(h, s, l).Some?
    ensures WellFormed(Next(h, s, l).value)
  {
    hide Act, Exists, Beat, Finish, QueueMeta, InProgressShape, QueuedShape, DeadShape, Requeueable, ValidOptions,
      WellFormed;
    var t := Next(h, s, l).value;
    match l
    case Step(a) => ActKeepsShapes(h, s, a);
    case CopyExists(a) => ExistsKeepsShapes(s, a);
    case Heartbeat(a) => BeatKeepsShapes(h, s, a);
    case CallQueue(a, key, opts) =>
      QueueMetaShape(opts);
      BecomesKeepsShapes(s, a, t.actors[a]);
    case ListQueued(a, key) =>
      ObjectShaped(s, Queued(key));
      BecomesKeepsShapes(s, a, t.actors[a]);
    case ListInProgress(a, key) =>
      ObjectShaped(s, InProgress(key));
      BecomesKeepsShapes(s, a, t.actors[a]);
    case Return(a, verdict) => ReturnKeepsShapes(s, a, verdict);
    case Tick(to) => TickKeepsShapes(s, to);
    case Crash(a) => BecomesKeepsShapes(s, a, Finished);
  }

  lemma {:induction false} RunKeepsShapes(h: Hypotheses, s: System, labels: seq<Label>)
    requires WellFormed(s) && Run(h, s, labels).Some?
    ensures WellFormed(Run(h, s, labels).value)
    decreases |labels|
  {
    hide Next, WellFormed;
    if labels != [] {
      NextKeepsShapes(h, s, labels[0]);
      RunKeepsShapes(h, Next(h, s, labels[0]).value, labels[1..]);
    }
  }

  lemma InitIsWellFormed()
    ensures WellFormed(Init())
  {
  }

  /** In every reachable bucket, with or without the hypotheses: a queued object has a priority and a
      readable not-before and no lease; an in-progress object has a readable lease, at least one
      attempt and the zero not-before. */
  lemma MetadataInvariant(h: Hypotheses, s: System)
    requires Reachable(h, s)
    ensures forall n | n in s.bucket.objects ::
              var m := s.bucket.objects[n].meta;
              && (n.Queued? ==> QueuedShape(m))
              && (n.InProgress? ==> InProgressShape(m))
              && (n.DeadLetter? ==> DeadShape(m))
  {
    hide Run, QueuedShape, InProgressShape, DeadShape;
    var labels :| Run(h, Init(), labels) == Some(s);
    InitIsWellFormed();
    RunKeepsShapes(h, Init(), labels);
    assert forall n | n in s.bucket.objects :: Shaped(n, s.bucket.objects[n].meta);
  }
}
