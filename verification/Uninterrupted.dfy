/** The interleaved steps and the sequential calls are the same code: when nothing comes between its
    operations, a call's actor leaves the bucket exactly as the call on its own does. */
module Uninterrupted {
  import opened Wrappers
  import opened Timestamp
  import opened Workqueue
  import opened Bucket
  import opened Gcs
  import opened Protocol

  lemma Go(h: Hypotheses, s: System, t: System, l: Label) returns (u: System)
    requires Reaches(h, s, t) && Next(h, t, l).Some?
    ensures Reaches(h, s, u) && Next(h, t, l) == Some(u)
  {
    hide Next;
    ReachesNext(h, s, t, l);
    u := Next(h, t, l).value;
  }

  lemma QueueAlone(h: Hypotheses, s: System, a: nat, key: string, opts: Options) returns (t: System)
    requires a !in s.actors && ValidOptions(opts)
    ensures Reaches(h, s, t)
    ensures t.bucket == AfterQueue(s.bucket, key, opts, s.now) && t.actors == s.actors[a := Finished]
  {
    hide QueueMeta, HasOptions, Updates, Merge, Run, Put, Act;
    t := CreateAlone(h, s, a, key, opts);
    if t.actors[a].QueueRead? {
      t := ReadQueued(h, s, t, a);
    }
  }

  lemma CreateAlone(h: Hypotheses, s: System, a: nat, key: string, opts: Options) returns (t: System)
    requires a !in s.actors && ValidOptions(opts)
    ensures Reaches(h, s, t)
    ensures var u := s.(asked := s.asked[key := Count(s.asked, key) + 1]);
            t == if Queued(key) !in s.bucket.objects then
                   Become(u.(bucket := Put(s.bucket, Queued(key), QueueMeta(opts), s.now)), a, Finished)
                 else
                   Become(u, a, if HasOptions(QueueMeta(opts)) then QueueRead(key, QueueMeta(opts)) else Finished)
  {
    hide QueueMeta, HasOptions, IsOrphaned, Run, StartSteps, FinishSteps, RequeueSteps, Exists, Beat, Finish;
    ReachesSelf(h, s);
    t := Go(h, s, s, CallQueue(a, key, opts));
    t := Go(h, s, t, Step(a));
    assert t.actors == s.actors[a := t.actors[a]];
  }

  lemma ReadQueued(h: Hypotheses, s: System, t: System, a: nat) returns (u: System)
    requires Reaches(h, s, t) && a in t.actors && t.actors[a].QueueRead? && Queued(t.actors[a].key) in t.bucket.objects
    requires HasOptions(t.actors[a].request)
    ensures Reaches(h, s, u)
    ensures u == Become(t.(bucket := AfterUpdateMetadata(t.bucket, t.actors[a].key, t.actors[a].request)), a, Finished)
  {
    hide HasOptions, Updates, Merge, IsOrphaned, Run, StartSteps, FinishSteps, RequeueSteps, Exists, Beat, Finish;
    u := Go(h, s, t, Step(a));
    if u.actors[a].QueuePatch? {
      u := Go(h, s, u, Step(a));
    }
  }

  /** The worker holds whatever metadata was listed for the key, stale or not. */
  lemma StartAlone(h: Hypotheses, s: System, a: nat, attrs: Obj) returns (t: System)
    requires a in s.actors && s.actors[a].StartPrepare? && s.actors[a].meta == attrs.meta && FIRST <= s.now <= LAST
    ensures Reaches(h, s, t)
    ensures match AfterStart(s.bucket, s.actors[a].key, attrs, s.now)
            case None => t.bucket == s.bucket && t.actors == s.actors[a := Finished]
            case Some(r) => t.bucket == r.0 && t.actors == s.actors[a := StartReturn(Claim(s.actors[a].key, r.1, true))]
  {
    hide StartMeta, IsOrphaned, Run,
      QueueSteps, FinishSteps, RequeueSteps, Exists, Beat, Finish;
    FreshLease(attrs.meta, s.now);
    ReachesSelf(h, s);
    t := Go(h, s, s, Step(a));
    t := Go(h, s, t, Step(a));
    if t.actors[a].StartDelete? {
      t := Go(h, s, t, Step(a));
    }
  }

  /** For a requeue that the hypotheses allow, by the owner or by a collector. */
  lemma RequeueAlone(h: Hypotheses, s: System, a: nat) returns (t: System)
    requires a in s.actors && s.actors[a].RequeuePrepare? && s.actors[a].meta == s.actors[a].claim.attrs.meta
    requires Timely(h, s, RequeueDelete(s.actors[a].claim))
    ensures Reaches(h, s, t) && t.actors == s.actors[a := Finished]
    ensures var c := s.actors[a].claim;
            t.bucket == AfterRequeue(s.bucket, c.key, c.attrs, s.actors[a].opts, s.now).GetOr(s.bucket)
  {
    hide RequeueMeta, HasOptions, Updates, Merge, IsOrphaned, Run, Act, Put, Update;
    t := PrepareAndCopy(h, s, a);
    if t.actors[a].RequeueRead? {
      t := ReadAndPatch(h, s, t, a);
    }
    if t.actors[a].RequeueDelete? {
      QueuedOnly(s.bucket, s.actors[a].claim.key, s.now);
      t := DeleteLast(h, s, t, a);
    }
  }

  /** Writing a queued object leaves the one in progress alone. */
  lemma QueuedOnly(b: Store, key: string, now: Time)
    ensures forall m: Meta :: InProgress(key) in Put(b, Queued(key), m, now).objects <==> InProgress(key) in b.objects
    ensures forall m: Meta | InProgress(key) in b.objects ::
              Put(b, Queued(key), m, now).objects[InProgress(key)] == b.objects[InProgress(key)]
    ensures forall m: Meta | Queued(key) in b.objects ::
              && (InProgress(key) in Update(b, Queued(key), m).objects <==> InProgress(key) in b.objects)
              && (InProgress(key) in b.objects ==>
                    Update(b, Queued(key), m).objects[InProgress(key)] == b.objects[InProgress(key)])
  {
  }

  lemma DeleteLast(h: Hypotheses, s: System, t: System, a: nat) returns (u: System)
    requires Reaches(h, s, t) && a in t.actors && t.actors[a].RequeueDelete? && Timely(h, t, t.actors[a])
    ensures Reaches(h, s, u)
    ensures u == Become(t.(bucket := Delete(t.bucket, InProgress(t.actors[a].claim.key))), a, Finished)
  {
    hide IsOrphaned, Run, QueueSteps, StartSteps, FinishSteps, Exists, Beat, Finish;
    u := Go(h, s, t, Step(a));
  }

  lemma PrepareAndCopy(h: Hypotheses, s: System, a: nat) returns (t: System)
    requires a in s.actors && s.actors[a].RequeuePrepare?
    ensures Reaches(h, s, t)
    ensures var (c, opts) := (s.actors[a].claim, s.actors[a].opts);
            var meta := RequeueMeta(s.actors[a].meta, opts, s.now);
            t == if InProgress(c.key) !in s.bucket.objects then Become(s, a, Finished)
                 else if Queued(c.key) !in s.bucket.objects then
                   Become(s.(bucket := Put(s.bucket, Queued(c.key), meta, s.now)), a, RequeueDelete(c))
                 else Become(s, a, if HasOptions(meta) then RequeueRead(c, meta, opts) else RequeueDelete(c))
  {
    hide RequeueMeta, HasOptions, IsOrphaned, Run,
      QueueSteps, StartSteps, FinishSteps, Exists, Beat, Finish;
    ReachesSelf(h, s);
    t := Go(h, s, s, Step(a));
    t := Go(h, s, t, Step(a));
  }

  lemma ReadAndPatch(h: Hypotheses, s: System, t: System, a: nat) returns (u: System)
    requires Reaches(h, s, t) && a in t.actors && t.actors[a].RequeueRead?
             && Queued(t.actors[a].claim.key) in t.bucket.objects
    requires HasOptions(t.actors[a].meta)
    ensures Reaches(h, s, u)
    ensures u == Become(t.(bucket := AfterUpdateMetadata(t.bucket, t.actors[a].claim.key, t.actors[a].meta)),
                        a, RequeueDelete(t.actors[a].claim))
  {
    hide HasOptions, Updates, Merge, IsOrphaned, Run,
      QueueSteps, StartSteps, FinishSteps, Exists, Beat, Finish;
    u := Go(h, s, t, Step(a));
    if u.actors[a].RequeuePatch? {
      u := Go(h, s, u, Step(a));
    }
  }

  lemma CompleteAlone(h: Hypotheses, s: System, a: nat) returns (t: System)
    requires a in s.actors && s.actors[a].CompleteDead? && Unexpired(s, s.actors[a].claim)
    ensures Reaches(h, s, t)
    ensures t.bucket == AfterComplete(s.bucket, s.actors[a].claim.key) && t.actors == s.actors[a := Finished]
  {
    hide IsOrphaned, Run,
      QueueSteps, StartSteps, RequeueSteps, Exists, Beat, Finish;
    ReachesSelf(h, s);
    t := Go(h, s, s, Step(a));
    t := Go(h, s, t, Step(a));
  }

  lemma DeadletterAlone(h: Hypotheses, s: System, a: nat) returns (t: System)
    requires a in s.actors && s.actors[a].DeadletterCopy? && Unexpired(s, s.actors[a].claim)
    ensures Reaches(h, s, t) && t.actors == s.actors[a := Finished]
    ensures var c := s.actors[a].claim;
            t.bucket == AfterDeadletter(s.bucket, c.key, c.attrs, s.now).GetOr(s.bucket)
  {
    hide DeadMeta, IsOrphaned, Run,
      QueueSteps, StartSteps, RequeueSteps, Exists, Beat, Finish;
    ReachesSelf(h, s);
    t := Go(h, s, s, Step(a));
    if t.actors[a].DeadletterDelete? {
      t := Go(h, s, t, Step(a));
    }
  }

  // From the end of a callback on

  /** The callback of an owner in time ends with `Complete`: the requests it knew of are answered, and the
      bucket is as after the call on its own. */
  lemma CompletedCallback(h: Hypotheses, s: System, a: nat) returns (t: System)
    requires a in s.actors && s.actors[a].Working? && Unexpired(s, s.actors[a].claim)
    ensures Reaches(h, s, t)
    ensures t.bucket == AfterComplete(s.bucket, s.actors[a].claim.key) && t.actors == s.actors[a := Finished]
    ensures Count(s.answered, s.actors[a].claim.key) <= s.actors[a].begun ==>
              Count(Returned(s, a, Complete).answered, s.actors[a].claim.key) == s.actors[a].begun
  {
    hide IsOrphaned, Run;
    var u := Returned(s, a, Complete);
    ReturnReaches(h, s, a, Complete);
    t := CompleteAlone(h, u, a);
    ReachesTogether(h, s, u, t);
  }

  /** It ends with `Deadletter`: the bucket is as after that call. */
  lemma DeadletteredCallback(h: Hypotheses, s: System, a: nat) returns (t: System)
    requires a in s.actors && s.actors[a].Working? && Unexpired(s, s.actors[a].claim)
    ensures Reaches(h, s, t) && t.actors == s.actors[a := Finished]
    ensures var c := s.actors[a].claim;
            t.bucket == AfterDeadletter(s.bucket, c.key, c.attrs, s.now).GetOr(s.bucket)
    ensures Count(s.answered, s.actors[a].claim.key) <= s.actors[a].begun ==>
              Count(Returned(s, a, Deadletter).answered, s.actors[a].claim.key) == s.actors[a].begun
  {
    hide IsOrphaned, Run, DeadMeta;
    var u := Returned(s, a, Deadletter);
    ReturnReaches(h, s, a, Deadletter);
    t := DeadletterAlone(h, u, a);
    ReachesTogether(h, s, u, t);
  }

  /** It ends with a requeue: nothing is answered, and the bucket is as after that call. */
  lemma RequeuedCallback(h: Hypotheses, s: System, a: nat, opts: Options) returns (t: System)
    requires a in s.actors && s.actors[a].Working? && Unexpired(s, s.actors[a].claim) && ValidOptions(opts)
    requires h.h2 && !s.actors[a].claim.owner ==> SameInstance(s, s.actors[a].claim)
    ensures Reaches(h, s, t) && t.actors == s.actors[a := Finished]
    ensures var c := s.actors[a].claim;
            t.bucket == AfterRequeue(s.bucket, c.key, c.attrs, opts, s.now).GetOr(s.bucket)
    ensures Returned(s, a, Requeue(opts)).answered == s.answered
  {
    hide IsOrphaned, Run, RequeueMeta, HasOptions, Updates, Merge;
    var u := Returned(s, a, Requeue(opts));
    ReturnReaches(h, s, a, Requeue(opts));
    t := RequeueAlone(h, u, a);
    ReachesTogether(h, s, u, t);
  }

  function Returned(s: System, a: nat, verdict: Verdict): System
    requires a in s.actors && Finish(s, a, verdict).Some?
  {
    Finish(s, a, verdict).value
  }

  lemma ReturnReaches(h: Hypotheses, s: System, a: nat, verdict: Verdict)
    requires a in s.actors && Finish(s, a, verdict).Some?
    ensures Reaches(h, s, Returned(s, a, verdict))
  {
    hide Run, Finish;
    ReachesSelf(h, s);
    ReachesNext(h, s, s, Return(a, verdict));
  }

  /** A collector that still sees what it listed requeues it without options if it is orphaned, and leaves it
      alone otherwise. */
  lemma CollectAlone(h: Hypotheses, s: System, a: nat) returns (t: System)
    requires a in s.actors && s.actors[a].Observed? && StillListed(s, s.actors[a].key, s.actors[a].attrs)
    ensures Reaches(h, s, t) && t.actors == s.actors[a := Finished]
    ensures var act := s.actors[a];
            t.bucket == if !IsOrphaned(act.attrs.meta, s.now) then s.bucket
                        else AfterRequeue(s.bucket, act.key, act.attrs, NO_OPTIONS, s.now).GetOr(s.bucket)
  {
    hide IsOrphaned, Run, RequeueMeta, HasOptions, Updates, Merge, QueueSteps, StartSteps, FinishSteps, RequeueSteps;
    ReachesSelf(h, s);
    t := Go(h, s, s, Step(a));
    if t.actors[a].RequeuePrepare? {
      var u := t;
      t := RequeueAlone(h, u, a);
      ReachesTogether(h, s, u, t);
    }
  }

  // When the queued key disappears in between

  /** A merge that finds its queued key gone starts over, and then creates the key with what was asked. */
  lemma QueueResumes(h: Hypotheses, s: System, a: nat) returns (t: System)
    requires a in s.actors && (s.actors[a].QueueRead? || s.actors[a].QueuePatch?)
    requires Queued(s.actors[a].key) !in s.bucket.objects
    ensures Reaches(h, s, t) && t.actors == s.actors[a := Finished]
    ensures t.bucket == Put(s.bucket, Queued(s.actors[a].key), s.actors[a].request, s.now)
  {
    hide IsOrphaned, Run, HasOptions, Updates, Merge, Put, StartSteps, FinishSteps, RequeueSteps, Exists, Beat, Finish;
    ReachesSelf(h, s);
    t := Go(h, s, s, Step(a));
    t := Go(h, s, t, Step(a));
  }

  /** So does a requeue, which puts the key back with its rewritten metadata before it deletes the other. */
  lemma RequeueResumes(h: Hypotheses, s: System, a: nat) returns (t: System)
    requires a in s.actors && (s.actors[a].RequeueRead? || s.actors[a].RequeuePatch?)
    requires var c := s.actors[a].claim;
             && Queued(c.key) !in s.bucket.objects && InProgress(c.key) in s.bucket.objects
             && Timely(h, s, RequeueDelete(c))
    ensures Reaches(h, s, t) && t.actors == s.actors[a := Finished]
    ensures var act := s.actors[a];
            t.bucket == Delete(Put(s.bucket, Queued(act.claim.key), RequeueMeta(act.meta, act.opts, s.now), s.now),
                               InProgress(act.claim.key))
  {
    hide IsOrphaned, Run, RequeueMeta, HasOptions, Updates, Merge, Put, QueueSteps, StartSteps, FinishSteps, Exists,
      Beat, Finish, Act;
    var u := RestartRequeue(h, s, a);
    t := PrepareAndCopy(h, u, a);
    ReachesTogether(h, s, u, t);
    QueuedOnly(s.bucket, s.actors[a].claim.key, s.now);
    t := DeleteLast(h, s, t, a);
  }

  lemma RestartRequeue(h: Hypotheses, s: System, a: nat) returns (t: System)
    requires a in s.actors && (s.actors[a].RequeueRead? || s.actors[a].RequeuePatch?)
    requires Queued(s.actors[a].claim.key) !in s.bucket.objects
    ensures Reaches(h, s, t)
    ensures t == Become(s, a, RequeuePrepare(s.actors[a].claim, s.actors[a].meta, s.actors[a].opts))
  {
    hide IsOrphaned, Run, Updates, Merge, QueueSteps, StartSteps, FinishSteps, Exists, Beat, Finish;
    ReachesSelf(h, s);
    t := Go(h, s, s, Step(a));
  }

  /** A requeue whose copy finds its source gone but reports that its target exists merges into the target,
      and is then about to delete. */
  lemma ExistsAlone(h: Hypotheses, s: System, a: nat) returns (t: System)
    requires a in s.actors && s.actors[a].RequeueCopy?
    requires var key := s.actors[a].claim.key;
             InProgress(key) !in s.bucket.objects && Queued(key) in s.bucket.objects
    ensures Reaches(h, s, t)
    ensures var act := s.actors[a];
            var bucket := AfterUpdateMetadata(s.bucket, act.claim.key, act.meta);
            t == Become(s.(bucket := bucket), a, RequeueDelete(act.claim))
  {
    hide IsOrphaned, Run, HasOptions, Updates, Merge, QueueSteps, StartSteps, FinishSteps, RequeueSteps, Act,
      Beat, Finish;
    ReachesSelf(h, s);
    t := Go(h, s, s, CopyExists(a));
    if t.actors[a].RequeueRead? {
      t := ReadAndPatch(h, s, t, a);
    }
  }
}
