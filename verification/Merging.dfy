/** Deduplicated `Queue` calls merge to a join, and the one path on which they do not. */
module Merging {
  import opened Wrappers
  import opened Text
  import opened Timestamp
  import opened Workqueue
  import opened Bucket
  import Gcs
  import opened Refinement

  /** One `Queue` call after another on the same key. */
  function QueueAll(s: Store, key: string, calls: seq<Options>, now: Time): Store
    decreases |calls|
  {
    if calls == [] then s else QueueAll(Gcs.AfterQueue(s, key, calls[0], now), key, calls[1..], now)
  }

  predicate Printable(calls: seq<Options>) {
    forall i | 0 <= i < |calls| :: 0 <= calls[i].priority < PRIORITIES && WholeSecond(calls[i].notBefore)
  }

  /** `p` is the largest of `p0` and what `f` reads off the calls. */
  ghost predicate IsMaximum(p: int, p0: int, calls: seq<Options>, f: Options -> int) {
    && p0 <= p
    && (forall o | o in calls :: f(o) <= p)
    && (p == p0 || exists o | o in calls :: f(o) == p)
  }

  function PriorityOf(o: Options): int {
    o.priority
  }

  function NotBeforeOf(o: Options): int {
    o.notBefore
  }

  lemma MaximumOfMore(p: int, p0: int, calls: seq<Options>, f: Options -> int)
    requires calls != [] && IsMaximum(p, if p0 < f(calls[0]) then f(calls[0]) else p0, calls[1..], f)
    ensures IsMaximum(p, p0, calls, f)
  {
    assert calls == [calls[0]] + calls[1..];
    assert calls[0] in calls;
  }

  /** After any sequence of calls a queued key shows the pointwise maximum of its own priority and
      not-before and of everything requested. */
  lemma {:induction false} QueueAllIsJoin(s: Store, key: string, calls: seq<Options>, now: Time, p0: int, t0: Time,
                                          a: int)
      returns (p: int, t: Time)
    requires Queued(key) in s.objects && Shows(s.objects[Queued(key)].meta, p0, t0, a) && Printable(calls)
    ensures IsMaximum(p, p0, calls, PriorityOf) && IsMaximum(t, t0, calls, NotBeforeOf)
    ensures Queued(key) in QueueAll(s, key, calls, now).objects
    ensures Shows(QueueAll(s, key, calls, now).objects[Queued(key)].meta, p, t, a)
    decreases |calls|
  {
    hide Shows, Gcs.QueueMeta, Gcs.AfterUpdateMetadata, WholeSecond;
    if calls == [] {
      p, t := p0, t0;
    } else {
      var o := calls[0];
      var request := Gcs.QueueMeta(o);
      QueueMetaShows(o);
      PartsOf(request, o.priority, o.notBefore, 0);
      UpdateShows(s, key, request, p0, t0, a, o.priority, o.notBefore);
      p, t := QueueAllIsJoin(Gcs.AfterQueue(s, key, o, now), key, calls[1..], now,
                             if p0 < o.priority then o.priority else p0, if t0 < o.notBefore then o.notBefore else t0,
                             a);
      MaximumOfMore(p, p0, calls, PriorityOf);
      MaximumOfMore(t, t0, calls, NotBeforeOf);
    }
  }

  lemma MaximumIsUnique(p: int, q: int, p0: int, a: seq<Options>, b: seq<Options>, f: Options -> int)
    requires IsMaximum(p, p0, a, f) && IsMaximum(q, p0, b, f) && forall o :: o in a <==> o in b
    ensures p == q
  {
  }

  /** So neither the order nor the repetition of the calls matters. */
  lemma QueueOrderIrrelevant(s: Store, key: string, calls: seq<Options>, others: seq<Options>, now: Time, p0: int,
                             t0: Time, a: int)
    requires Queued(key) in s.objects && Shows(s.objects[Queued(key)].meta, p0, t0, a)
    requires Printable(calls) && Printable(others) && forall o :: o in calls <==> o in others
    ensures Queued(key) in QueueAll(s, key, calls, now).objects && Queued(key) in QueueAll(s, key, others, now).objects
    ensures var m, n := QueueAll(s, key, calls, now).objects[Queued(key)].meta,
                       QueueAll(s, key, others, now).objects[Queued(key)].meta;
            m.priority == n.priority && m.notBefore == n.notBefore && m.attempts == n.attempts
  {
    hide QueueAll, FormatTime, PadInt, Itoa;
    var p, t := QueueAllIsJoin(s, key, calls, now, p0, t0, a);
    var q, u := QueueAllIsJoin(s, key, others, now, p0, t0, a);
    MaximumIsUnique(p, q, p0, calls, others, PriorityOf);
    MaximumIsUnique(t, u, t0, calls, others, NotBeforeOf);
  }

  // A requeue with an explicit priority writes it without padding

  /** Merging the unpadded priority of a requeue into a queued key of a short priority overwrites it, even
      by a lower one. The merge is a maximum exactly when the requeue's priority is not the lower, or
      its text loses. */
  lemma DelayedRequeueOverwritesPriority(current: Meta, request: Meta, p: int, q: int)
    requires 0 <= p < PRIORITIES && 0 < q < SMALL
    requires current.priority == Some(PadInt(p, 8)) && request.priority == Some(Itoa(q))
    ensures p < SMALL ==> Gcs.PriorityOf(Gcs.Merge(current, request)) == q
    ensures Gcs.PriorityOf(Gcs.Merge(current, request)) == (if p < q then q else p)
            <==> p <= q || !StrLess(PadInt(p, 8), Itoa(q))
  {
    hide StrLess, PadInt, Itoa, Atoi;
    if p < SMALL {
      UnpaddedBeatsPadded(p, q);
    }
    AtoiInvertsItoa(q);
    AtoiInvertsPadInt(p, 8);
  }

  /** After that, no `Queue` call with a short priority raises the priority of the key again. The merge is
      a maximum exactly when there was nothing to raise, or eight digits whose text wins. */
  lemma UnpaddedPriorityIsStuck(current: Meta, opts: Options, q: int)
    requires 0 <= opts.priority < PRIORITIES && 0 < q < SMALL && current.priority == Some(Itoa(q))
    ensures opts.priority < SMALL ==> Gcs.PriorityOf(Gcs.Merge(current, Gcs.QueueMeta(opts))) == q
    ensures Gcs.PriorityOf(Gcs.Merge(current, Gcs.QueueMeta(opts))) == (if q < opts.priority then opts.priority else q)
            <==> opts.priority <= q || StrLess(Itoa(q), PadInt(opts.priority, 8))
  {
    hide StrLess, PadInt, Itoa, Atoi, FormatTime;
    if opts.priority < SMALL {
      UnpaddedBeatsPadded(opts.priority, q);
    }
    AtoiInvertsItoa(q);
    AtoiInvertsPadInt(opts.priority, 8);
  }
}
