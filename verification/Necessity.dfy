/** H1 and H2 cannot be dropped: whichever of them is off, a run of the code loses work. A further run
    shows that under both a key makes its whole way through the queue. */
module Necessity {
  import opened Wrappers
  import opened Text
  import opened Timestamp
  import opened Workqueue
  import opened Bucket
  import opened Gcs
  import opened Protocol
  import Safety

  const KEY := "k"
  const LATE: Time := FIRST + 4 * REFRESH_INTERVAL

  /** Longer than the lease after it was written, a started key looks orphaned. */
  lemma LeaseExpires(m: Meta)
    ensures IsOrphaned(StartMeta(m, FIRST), LATE)
  {
    hide FormatTime, ParseTime;
    ParseInvertsFormat(FIRST + 3 * REFRESH_INTERVAL);
  }

  lemma Go(h: Hypotheses, s: System, l: Label) returns (t: System)
    requires Reachable(h, s) && Next(h, s, l).Some?
    ensures Reachable(h, t) && Next(h, s, l) == Some(t)
  {
    hide Next;
    ReachesNext(h, Init(), s, l);
    t := Next(h, s, l).value;
  }

  /** Queue a key without options and let worker 1 do the first half of its start. */
  lemma HalfStarted(h: Hypotheses) returns (s: System)
    ensures Reachable(h, s) && s.now == FIRST
    ensures s.actors.Keys == {0, 1} && s.actors[1].StartDelete? && s.actors[1].claim.key == KEY
    ensures s.actors[1].claim.owner && s.actors[1].claim.attrs.meta == StartMeta(QueueMeta(NO_OPTIONS), FIRST)
    ensures s.bucket.objects.Keys == {Queued(KEY), InProgress(KEY)}
    ensures s.bucket.objects[InProgress(KEY)] == s.actors[1].claim.attrs
    ensures s.actors[1].claim.attrs.metageneration == 1 && s.actors[1].claim.attrs.instance < s.bucket.nextInstance
    ensures s.bucket.objects[Queued(KEY)].meta == QueueMeta(NO_OPTIONS)
    ensures Count(s.asked, KEY) == 1 && Count(s.answered, KEY) == 0
  {
    hide QueueMeta, StartMeta, Run;
    ReachesSelf(h, Init());
    s := Go(h, Init(), CallQueue(0, KEY, NO_OPTIONS));
    s := Go(h, s, Step(0));
    s := Go(h, s, ListQueued(1, KEY));
    s := Go(h, s, Step(1));
    s := Go(h, s, Step(1));
  }

  /** A key without options is requeued without options: the merge has nothing to do. */
  lemma PlainRequeue(now: Time)
    ensures !HasOptions(RequeueMeta(StartMeta(QueueMeta(NO_OPTIONS), FIRST), NO_OPTIONS, now))
  {
    hide FormatTime, PadInt, Itoa;
  }

  /** A collector that lists the expired key runs its requeue up to the final delete. */
  lemma Collect(h: Hypotheses, s: System, a: nat) returns (t: System)
    requires Reachable(h, s) && a !in s.actors && InProgress(KEY) in s.bucket.objects
    requires IsOrphaned(s.bucket.objects[InProgress(KEY)].meta, s.now)
    requires s.bucket.objects[InProgress(KEY)].meta == StartMeta(QueueMeta(NO_OPTIONS), FIRST)
    ensures Reachable(h, t)
    ensures t.actors == s.actors[a := RequeueDelete(Claim(KEY, s.bucket.objects[InProgress(KEY)], false))]
    ensures t.now == s.now && t.asked == s.asked && t.answered == s.answered
    ensures InProgress(KEY) in t.bucket.objects
            && t.bucket.objects[InProgress(KEY)] == s.bucket.objects[InProgress(KEY)]
    ensures t.bucket.objects.Keys == s.bucket.objects.Keys + {Queued(KEY)}
    ensures s.bucket.nextInstance <= t.bucket.nextInstance
  {
    hide QueueMeta, StartMeta, RequeueMeta, Run, IsOrphaned, HasOptions;
    PlainRequeue(s.now);
    t := Check(h, s, a);
    t := Go(h, t, Step(a));
    t := Go(h, t, Step(a));
  }

  lemma Check(h: Hypotheses, s: System, a: nat) returns (t: System)
    requires Reachable(h, s) && a !in s.actors && InProgress(KEY) in s.bucket.objects
    requires IsOrphaned(s.bucket.objects[InProgress(KEY)].meta, s.now)
    ensures Reachable(h, t)
    ensures var attrs := s.bucket.objects[InProgress(KEY)];
            t == Become(s, a, RequeuePrepare(Claim(KEY, attrs, false), attrs.meta, NO_OPTIONS))
  {
    hide RequeueMeta, Run, IsOrphaned;
    t := Go(h, s, ListInProgress(a, KEY));
    t := Go(h, t, Step(a));
  }

  /** Without H1: a starter that slept past its lease deletes the queued key after a collector has
      already given up the in-progress one. */
  lemma LostWithoutH1(h: Hypotheses) returns (s: System)
    requires !h.h1
    ensures Reachable(h, s)
    ensures Count(s.asked, KEY) > Count(s.answered, KEY)
    ensures Queued(KEY) !in s.bucket.objects && InProgress(KEY) !in s.bucket.objects
  {
    hide QueueMeta, StartMeta, Run, IsOrphaned;
    s := HalfStarted(h);
    LeaseExpires(QueueMeta(NO_OPTIONS));
    s := Go(h, s, Tick(LATE));
    s := Collect(h, s, 2);
    s := Go(h, s, Step(2));
    s := Go(h, s, Step(1));
  }

  /** Without H2: of two collectors of one orphan, the slower deletes the in-progress key of the
      worker that has meanwhile started it again; that worker's lease is unexpired. */
  lemma LostWithoutH2() returns (s: System)
    ensures Reachable(Hypotheses(true, false), s)
    ensures Count(s.asked, KEY) > Count(s.answered, KEY)
    ensures Queued(KEY) !in s.bucket.objects && InProgress(KEY) !in s.bucket.objects
    ensures 4 in s.actors && s.actors[4].Working? && s.actors[4].claim.key == KEY && s.actors[4].Owns()
    ensures Unexpired(s, s.actors[4].claim)
    ensures s.bucket.objects == map[] && s.now == LATE && s.actors.Keys == {0, 1, 2, 3, 4} && s.actors[4].live
    ensures s.actors[4].claim.attrs.metageneration == 1 && s.actors[4].claim.attrs.instance < s.bucket.nextInstance
  {
    hide QueueMeta, StartMeta, Run, IsOrphaned;
    var h := Hypotheses(true, false);
    s := TwoCollectors(h);
    s := Go(h, s, Step(2));
    s := StartAgain(h, s, 4);
    s := Go(h, s, Step(3));
    assert s.bucket.objects.Keys == {};
  }

  /** The hypotheses are exact: no reachable state has lost work if and only if both are on. */
  lemma HypothesesAreExact(h: Hypotheses)
    ensures h.h1 && h.h2 <==>
            forall s, key | Reachable(h, s) && Safety.Owed(s, key) :: Safety.Present(s, key)
  {
    hide Run, Reachable;
    if h.h1 && h.h2 {
      forall s, key | Reachable(h, s) && Safety.Owed(s, key)
        ensures Safety.Present(s, key)
      {
        Safety.NoLostWork(s, key);
      }
    } else if !h.h1 {
      var s := LostWithoutH1(h);
      assert Safety.Owed(s, KEY) && !Safety.Present(s, KEY);
    } else {
      var s := LostWithoutH2();
      assert h == Hypotheses(true, false);
      assert Safety.Owed(s, KEY) && !Safety.Present(s, KEY);
    }
  }

  /** A worker sleeps past its lease inside its callback, and two collectors get ready to delete its key. */
  lemma TwoCollectors(h: Hypotheses) returns (s: System)
    ensures Reachable(h, s) && s.now == LATE
    ensures s.actors.Keys == {0, 1, 2, 3} && s.bucket.objects.Keys == {Queued(KEY), InProgress(KEY)}
    ensures s.actors[2].RequeueDelete? && !s.actors[2].claim.owner && s.actors[2].claim.key == KEY
    ensures s.actors[3].RequeueDelete? && !s.actors[3].claim.owner && s.actors[3].claim.key == KEY
    ensures Count(s.asked, KEY) == 1 && Count(s.answered, KEY) == 0
    ensures s.bucket.objects[InProgress(KEY)] == s.actors[2].claim.attrs
  {
    hide QueueMeta, StartMeta, Run, IsOrphaned;
    s := SleepsThroughLease(h);
    s := Collect(h, s, 2);
    s := Collect(h, s, 3);
  }

  /** Without H1: a worker that slept past its lease inside its callback completes, and deletes the key of
      the worker that has meanwhile started it again; that worker's lease is unexpired. */
  lemma TakenWithoutH1(h: Hypotheses) returns (s: System)
    requires !h.h1
    ensures Reachable(h, s) && InProgress(KEY) !in s.bucket.objects
    ensures 4 in s.actors && s.actors[4].Working? && s.actors[4].claim.key == KEY && s.actors[4].Owns()
    ensures Unexpired(s, s.actors[4].claim)
  {
    hide QueueMeta, StartMeta, Run, IsOrphaned, QueueSteps, StartSteps, RequeueSteps, Beat, Exists;
    s := StartedOver(h);
    s := Go(h, s, Return(1, Complete));
    s := Go(h, s, Step(1));
    s := Go(h, s, Step(1));
  }

  lemma StartedOver(h: Hypotheses) returns (s: System)
    ensures Reachable(h, s)
    ensures 1 in s.actors && s.actors[1].Working? && s.actors[1].claim.key == KEY && s.actors[1].live
    ensures 4 in s.actors && s.actors[4].Working? && s.actors[4].claim.key == KEY && s.actors[4].live
    ensures s.actors[4].Owns() && StillListed(s, KEY, s.actors[4].claim.attrs)
    ensures s.actors[1].claim.attrs.metageneration == s.actors[4].claim.attrs.metageneration
    ensures s.actors[1].claim.attrs.instance != s.actors[4].claim.attrs.instance
    ensures Unexpired(s, s.actors[4].claim)
  {
    hide QueueMeta, StartMeta, Run, IsOrphaned, QueueSteps, StartSteps, FinishSteps, Beat, Exists, Finish;
    s := SleepsThroughLease(h);
    s := Collect(h, s, 2);
    s := Go(h, s, Step(2));
    s := StartAgain(h, s, 4);
  }

  lemma SleepsThroughLease(h: Hypotheses) returns (s: System)
    ensures Reachable(h, s) && s.now == LATE
    ensures s.actors.Keys == {0, 1} && s.actors[1].Working? && s.actors[1].claim.key == KEY && s.actors[1].live
    ensures s.actors[1].claim.attrs.metageneration == 1 && s.actors[1].claim.attrs.instance < s.bucket.nextInstance
    ensures s.bucket.objects.Keys == {InProgress(KEY)}
    ensures s.bucket.objects[InProgress(KEY)].meta == StartMeta(QueueMeta(NO_OPTIONS), FIRST)
    ensures IsOrphaned(s.bucket.objects[InProgress(KEY)].meta, LATE)
    ensures s.bucket.objects[InProgress(KEY)] == s.actors[1].claim.attrs
    ensures Count(s.asked, KEY) == 1 && Count(s.answered, KEY) == 0
  {
    hide QueueMeta, StartMeta, Run, IsOrphaned;
    s := HalfStarted(h);
    FreshLease(QueueMeta(NO_OPTIONS), FIRST);
    LeaseExpires(QueueMeta(NO_OPTIONS));
    s := Go(h, s, Step(1));
    s := Go(h, s, Step(1));
    s := Go(h, s, Tick(LATE));
  }

  /** Owners with an unexpired lease exclude each other and hold exactly what they last wrote. */
  ghost predicate Exclusive(s: System) {
    forall a, b | a in s.actors && s.actors[a].Owns() && Unexpired(s, s.actors[a].claim)
                  && b in s.actors && s.actors[b].Owns() && Unexpired(s, s.actors[b].claim)
                  && s.actors[a].claim.key == s.actors[b].claim.key ::
      a == b && StillListed(s, s.actors[a].claim.key, s.actors[a].claim.attrs)
  }

  /** For exclusion too the hypotheses are exact. */
  lemma HypothesesAreExactForExclusion(h: Hypotheses)
    ensures h.h1 && h.h2 <==> forall s | Reachable(h, s) :: Exclusive(s)
  {
    hide Run, Reachable, IsOrphaned;
    if h.h1 && h.h2 {
      forall s | Reachable(h, s)
        ensures Exclusive(s)
      {
        ReachableIsExclusive(h, s);
      }
    } else {
      var s;
      if h.h1 {
        assert h == Hypotheses(true, false);
        s := LostWithoutH2();
      } else {
        s := TakenWithoutH1(h);
      }
      assert !Exclusive(s);
    }
  }

  lemma ReachableIsExclusive(h: Hypotheses, s: System)
    requires h.h1 && h.h2 && Reachable(h, s)
    ensures Exclusive(s)
  {
    hide Run, Reachable, IsOrphaned;
    forall a, b | a in s.actors && s.actors[a].Owns() && Unexpired(s, s.actors[a].claim)
                  && b in s.actors && s.actors[b].Owns() && Unexpired(s, s.actors[b].claim)
                  && s.actors[a].claim.key == s.actors[b].claim.key
      ensures a == b && StillListed(s, s.actors[a].claim.key, s.actors[a].claim.attrs)
    {
      Safety.MutualExclusion(s, a, b);
    }
  }

  /** Worker `a` takes the queued key through a whole start into its callback. */
  lemma StartAgain(h: Hypotheses, s: System, a: nat) returns (t: System)
    requires Reachable(h, s) && a !in s.actors && s.bucket.objects.Keys == {Queued(KEY)} && FIRST <= s.now <= LAST
    ensures Reachable(h, t)
    ensures t.now == s.now && t.asked == s.asked && t.answered == s.answered
    ensures t.bucket.objects.Keys == {InProgress(KEY)}
    ensures a in t.actors && t.actors == s.actors[a := t.actors[a]]
    ensures t.actors[a].Working? && t.actors[a].claim.key == KEY && t.actors[a].Owns()
    ensures Unexpired(t, t.actors[a].claim)
    ensures t.bucket.objects[InProgress(KEY)] == t.actors[a].claim.attrs && t.actors[a].begun == Count(s.asked, KEY)
    ensures t.actors[a].live && t.actors[a].claim.attrs.metageneration == 1
    ensures t.actors[a].claim.attrs.instance == s.bucket.nextInstance < t.bucket.nextInstance
  {
    hide StartMeta, Run, IsOrphaned;
    FreshLease(s.bucket.objects[Queued(KEY)].meta, s.now);
    t := CopyAgain(h, s, a);
    t := Go(h, t, Step(a));
    t := Go(h, t, Step(a));
  }

  lemma CopyAgain(h: Hypotheses, s: System, a: nat) returns (t: System)
    requires Reachable(h, s) && a !in s.actors && s.bucket.objects.Keys == {Queued(KEY)}
    ensures Reachable(h, t)
    ensures var bucket := Put(s.bucket, InProgress(KEY), StartMeta(s.bucket.objects[Queued(KEY)].meta, s.now), s.now);
            t == Become(s.(bucket := bucket), a, StartDelete(Claim(KEY, bucket.objects[InProgress(KEY)], true)))
  {
    hide StartMeta, Run, IsOrphaned;
    t := Go(h, s, ListQueued(a, KEY));
    t := Go(h, t, Step(a));
    t := Go(h, t, Step(a));
  }

  /** Under both hypotheses a key can be queued, started, completed and gone, with nothing owed. */
  lemma WholeWay() returns (s: System)
    ensures Reachable(Hypotheses(true, true), s)
    ensures s.bucket.objects == map[] && Count(s.asked, KEY) == 1 && Count(s.answered, KEY) == 1
  {
    hide QueueMeta, Run, IsOrphaned;
    var h := Hypotheses(true, true);
    ReachesSelf(h, Init());
    s := Go(h, Init(), CallQueue(0, KEY, NO_OPTIONS));
    s := Go(h, s, Step(0));
    s := StartAgain(h, s, 1);
    s := Go(h, s, Return(1, Complete));
    s := Go(h, s, Step(1));
    s := Go(h, s, Step(1));
  }
}
