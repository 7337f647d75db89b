/** Exclusion by lease and no lost work, for every interleaving that meets H1 and H2. */
module Safety {
  import opened Wrappers
  import opened Timestamp
  import opened Bucket
  import opened Gcs
  import opened Protocol

  const H: Hypotheses := Hypotheses(true, true)

  // The invariant

  /** Instances are handed out in order, and the claims of two owners never share one. */
  ghost predicate FreshInstances(s: System) {
    && (forall n | n in s.bucket.objects :: s.bucket.objects[n].instance < s.bucket.nextInstance)
    && (forall a | a in s.actors && s.actors[a].Claims() :: s.actors[a].claim.attrs.instance < s.bucket.nextInstance)
    && (forall a | a in s.actors && s.actors[a].Observed? :: s.actors[a].attrs.instance < s.bucket.nextInstance)
    && (forall a, b | a in s.actors && b in s.actors && a != b && s.actors[a].Owns() && s.actors[b].Owns() ::
          s.actors[a].claim.attrs.instance != s.actors[b].claim.attrs.instance)
  }

  /** While a claimed instance is in the bucket it is exactly what its claimant last saw, and what a
      collector claims is orphaned. */
  ghost predicate ClaimIsCurrent(s: System, c: Claim) {
    && (SameInstance(s, c) ==> s.bucket.objects[InProgress(c.key)] == c.attrs)
    && (!c.owner ==> IsOrphaned(c.attrs.meta, s.now))
    && (c.owner && Unexpired(s, c) ==> SameInstance(s, c))
  }

  ghost predicate ClaimsAreCurrent(s: System) {
    forall a | a in s.actors && s.actors[a].Claims() :: ClaimIsCurrent(s, s.actors[a].claim)
  }

  predicate Present(s: System, key: string) {
    Queued(key) in s.bucket.objects || InProgress(key) in s.bucket.objects
  }

  /** Work is owed for a key until a callback that began after the last request is done with it. */
  predicate Owed(s: System, key: string) {
    Count(s.asked, key) > Count(s.answered, key)
  }

  ghost predicate NothingLost(s: System) {
    forall key | Owed(s, key) :: Present(s, key)
  }

  /** A requeue about to delete has put its key back, and a callback that is not the key's last hope
      knows of every request. */
  ghost predicate Covered(s: System, act: Actor)
    requires act.Claims()
  {
    var key := act.claim.key;
    && (act.RequeueDelete? && SameInstance(s, act.claim) ==> Queued(key) in s.bucket.objects)
    && (act.Begun() && SameInstance(s, act.claim) && Queued(key) !in s.bucket.objects
        ==> act.begun == Count(s.asked, key))
    && (act.Begun() && !act.Working? ==> act.begun <= Count(s.answered, key))
  }

  ghost predicate AllCovered(s: System) {
    forall a | a in s.actors && s.actors[a].Claims() :: Covered(s, s.actors[a])
  }

  ghost predicate Inv(s: System) {
    FreshInstances(s) && ClaimsAreCurrent(s) && AllCovered(s) && NothingLost(s)
  }

  // The steps that keep the invariant for one common reason

  /** A step of actor `a` that leaves the in-progress objects alone, deletes nothing queued, and
      raises `asked` only for a key that is queued. */
  ghost predicate Benign(s: System, t: System, a: nat, next: Actor) {
    && t.now == s.now && t.actors == s.actors[a := next]
    && (forall k :: InProgress(k) in t.bucket.objects <==> InProgress(k) in s.bucket.objects)
    && (forall k | InProgress(k) in s.bucket.objects ::
          t.bucket.objects[InProgress(k)] == s.bucket.objects[InProgress(k)])
    && (forall k | Queued(k) in s.bucket.objects :: Queued(k) in t.bucket.objects)
    && s.bucket.nextInstance <= t.bucket.nextInstance
    && (forall n | n in t.bucket.objects :: t.bucket.objects[n].instance < t.bucket.nextInstance)
    && (forall k | Count(t.asked, k) != Count(s.asked, k) :: Queued(k) in t.bucket.objects)
    && (forall k :: Count(s.answered, k) <= Count(t.answered, k))
  }

  /** What the actor became is covered, and it claims nothing as owner that it did not own before. */
  ghost predicate Continues(s: System, t: System, a: nat, next: Actor) {
    && (next.Observed? ==> next.attrs.instance < t.bucket.nextInstance)
    && (next.Claims() ==>
          && next.claim.attrs.instance < t.bucket.nextInstance
          && ClaimIsCurrent(t, next.claim)
          && Covered(t, next))
    && (next.Owns() ==> a in s.actors && s.actors[a].Owns() && s.actors[a].claim == next.claim)
  }

  lemma BenignKeepsInv(s: System, t: System, a: nat, next: Actor)
    requires Inv(s) && Benign(s, t, a, next) && Continues(s, t, a, next)
    ensures Inv(t)
  {
    hide IsOrphaned;
    assert FreshInstances(t);
    forall b | b in t.actors && t.actors[b].Claims()
      ensures ClaimIsCurrent(t, t.actors[b].claim) && Covered(t, t.actors[b])
    {
      if b != a {
        assert ClaimIsCurrent(s, s.actors[b].claim) && Covered(s, s.actors[b]);
      }
    }
    forall key | Owed(t, key)
      ensures Present(t, key)
    {
      if Count(t.asked, key) == Count(s.asked, key) {
        assert Owed(s, key);
      }
    }
  }

  lemma TickKeepsInv(s: System, to: Time)
    requires Inv(s) && s.now <= to
    ensures Inv(s.(now := to))
  {
    var t := s.(now := to);
    forall a | a in t.actors && t.actors[a].Claims()
      ensures ClaimIsCurrent(t, t.actors[a].claim) && Covered(t, t.actors[a])
    {
      assert ClaimIsCurrent(s, s.actors[a].claim) && Covered(s, s.actors[a]);
    }
    forall key | Owed(t, key)
      ensures Present(t, key)
    {
      assert Owed(s, key);
    }
  }

  lemma QueueKeepsInv(s: System, a: nat)
    requires Inv(s) && a in s.actors
    requires s.actors[a].QueueCreate? || s.actors[a].QueueRead? || s.actors[a].QueuePatch?
    ensures Inv(QueueSteps(s, a, s.actors[a]))
  {
    hide Merge, Updates, HasOptions;
    var t := QueueSteps(s, a, s.actors[a]);
    QueueIsBenign(s, a);
    hide QueueSteps;
    BenignKeepsInv(s, t, a, t.actors[a]);
  }

  lemma QueueIsBenign(s: System, a: nat)
    requires FreshInstances(s) && a in s.actors
    requires s.actors[a].QueueCreate? || s.actors[a].QueueRead? || s.actors[a].QueuePatch?
    ensures var t := QueueSteps(s, a, s.actors[a]);
            Benign(s, t, a, t.actors[a]) && !t.actors[a].Claims() && !t.actors[a].Observed?
  {
    hide Merge, Updates, HasOptions, FreshInstances, Benign, Put, Update, Count;
    var act, t := s.actors[a], QueueSteps(s, a, s.actors[a]);
    var asked := s.asked[act.key := Count(s.asked, act.key) + 1];
    if act.QueueCreate? {
      if Queued(act.key) !in s.bucket.objects {
        PutIsBenign(s, t, a, act.key, act.request, asked);
      } else {
        NoChangeIsBenign(s, t, a, act.key, asked);
      }
    } else if act.QueuePatch? && Queued(act.key) in s.bucket.objects {
      PatchIsBenign(s, t, a, act.key, act.merged);
    } else {
      SameBucketIsBenign(s, t, a);
    }
  }

  // Steps that change nothing but the queued object of one key, and delete nothing

  lemma SameBucketIsBenign(s: System, t: System, a: nat)
    requires FreshInstances(s) && a in t.actors && t == s.(actors := s.actors[a := t.actors[a]])
    ensures Benign(s, t, a, t.actors[a])
  {
    hide Count;
  }

  lemma NoChangeIsBenign(s: System, t: System, a: nat, key: string, asked: map<string, nat>)
    requires FreshInstances(s) && a in t.actors && Queued(key) in s.bucket.objects
    requires asked == s.asked[key := Count(s.asked, key) + 1]
    requires t == s.(actors := s.actors[a := t.actors[a]], asked := asked)
    ensures Benign(s, t, a, t.actors[a])
  {
  }

  lemma PutIsBenign(s: System, t: System, a: nat, key: string, m: Meta, asked: map<string, nat>)
    requires FreshInstances(s) && a in t.actors
    requires asked == s.asked || asked == s.asked[key := Count(s.asked, key) + 1]
    requires t == s.(bucket := Put(s.bucket, Queued(key), m, s.now), actors := s.actors[a := t.actors[a]],
                     asked := asked)
    ensures Benign(s, t, a, t.actors[a])
  {
  }

  lemma PatchIsBenign(s: System, t: System, a: nat, key: string, m: Meta)
    requires FreshInstances(s) && a in t.actors && Queued(key) in s.bucket.objects
    requires t == s.(bucket := Update(s.bucket, Queued(key), m), actors := s.actors[a := t.actors[a]])
    ensures Benign(s, t, a, t.actors[a])
  {
    hide Count;
  }

  lemma StartKeepsInv(s: System, a: nat)
    requires Inv(s) && a in s.actors && Timely(H, s, s.actors[a])
    requires s.actors[a].StartPrepare? || s.actors[a].StartCopy? || s.actors[a].StartDelete? || s.actors[a].StartReturn?
    ensures Inv(StartSteps(s, a, s.actors[a]))
  {
    hide IsOrphaned, StartMeta;
    var act := s.actors[a];
    var t := StartSteps(s, a, act);
    if act.StartCopy? && !t.actors[a].Finished? {
      CopyKeepsInv(s, t, a, act.key, act.meta);
    } else if act.StartDelete? && !t.actors[a].Finished? {
      UnqueueKeepsInv(s, t, a, act.claim);
    } else {
      assert act.StartReturn? ==> ClaimIsCurrent(s, act.claim);
      BenignKeepsInv(s, t, a, t.actors[a]);
    }
  }

  /** The first half of a start creates an instance no one else claims. */
  lemma CopyKeepsInv(s: System, t: System, a: nat, key: string, meta: Meta)
    requires Inv(s) && a in s.actors && s.actors[a] == StartCopy(key, meta)
    requires Queued(key) in s.bucket.objects && InProgress(key) !in s.bucket.objects
    requires var bucket := Put(s.bucket, InProgress(key), meta, s.now);
             var claim := Claim(key, bucket.objects[InProgress(key)], true);
             t == s.(bucket := bucket, actors := s.actors[a := StartDelete(claim)])
    ensures Inv(t)
  {
    hide IsOrphaned;
    forall b | b in t.actors && t.actors[b].Claims()
      ensures ClaimIsCurrent(t, t.actors[b].claim) && Covered(t, t.actors[b])
    {
      if b != a {
        assert ClaimIsCurrent(s, s.actors[b].claim) && Covered(s, s.actors[b]);
        var d := t.actors[b].claim;
        assert d.key != key ==> SameInstance(t, d) == SameInstance(s, d);
      }
    }
    OwedStays(s, t);
  }

  /** What was owed was present, and what was present still is. */
  lemma OwedStays(s: System, t: System)
    requires NothingLost(s) && t.asked == s.asked && t.answered == s.answered
    requires forall k | Present(s, k) && Owed(s, k) :: Present(t, k)
    ensures NothingLost(t)
  {
    forall key | Owed(t, key)
      ensures Present(t, key)
    {
      assert Owed(s, key);
    }
  }

  /** The second half deletes the queued key only while the starter owns the one in progress. */
  lemma UnqueueKeepsInv(s: System, t: System, a: nat, c: Claim)
    requires Inv(s) && a in s.actors && s.actors[a] == StartDelete(c) && Timely(H, s, s.actors[a])
    requires t == s.(bucket := Delete(s.bucket, Queued(c.key)), actors := s.actors[a := StartReturn(c)])
    ensures Inv(t)
  {
    hide IsOrphaned;
    assert ClaimIsCurrent(s, c);
    assert s.actors[a].Owns();
    forall b | b in t.actors && t.actors[b].Claims()
      ensures ClaimIsCurrent(t, t.actors[b].claim) && Covered(t, t.actors[b])
    {
      if b != a {
        var d := t.actors[b].claim;
        assert ClaimIsCurrent(s, d) && Covered(s, s.actors[b]);
        // Another owner's instance differs, and a collector's claim is orphaned while this one is not.
        assert d.key == c.key ==> !SameInstance(s, d);
      }
    }
    OwedStays(s, t);
  }

  /** Deleting an in-progress key that the deleter still claims. */
  lemma DeleteKeepsInv(s: System, t: System, a: nat)
    requires Inv(s) && a in s.actors
    requires s.actors[a].CompleteDelete? || s.actors[a].DeadletterDelete? || s.actors[a].RequeueDelete?
    requires SameInstance(s, s.actors[a].claim)
    requires s.actors[a].Owns() ==> Unexpired(s, s.actors[a].claim)
    requires t == Become(s.(bucket := Delete(s.bucket, InProgress(s.actors[a].claim.key))), a, Finished)
    ensures Inv(t)
  {
    hide IsOrphaned, Count;
    assert ClaimIsCurrent(s, s.actors[a].claim) && Covered(s, s.actors[a]);
    OwedStays(s, t);
    assert FreshInstances(t);
    forall b | b in t.actors && t.actors[b].Claims()
      ensures ClaimIsCurrent(t, t.actors[b].claim) && Covered(t, t.actors[b])
    {
      DeleteKeepsClaim(s, t, a, b);
    }
  }

  /** The object deleted is orphaned or owned by the deleter, so no other owner loses a live claim. */
  lemma DeleteKeepsClaim(s: System, t: System, a: nat, b: nat)
    requires Inv(s) && a in s.actors && s.actors[a].Claims() && SameInstance(s, s.actors[a].claim)
    requires s.actors[a].Owns() ==> Unexpired(s, s.actors[a].claim)
    requires t == Become(s.(bucket := Delete(s.bucket, InProgress(s.actors[a].claim.key))), a, Finished)
    requires b in s.actors && b != a && s.actors[b].Claims()
    ensures ClaimIsCurrent(t, s.actors[b].claim) && Covered(t, s.actors[b])
  {
    hide IsOrphaned, Count;
    var c, d := s.actors[a].claim, s.actors[b].claim;
    assert ClaimIsCurrent(s, c) && ClaimIsCurrent(s, d) && Covered(s, s.actors[b]);
    assert d.owner && Unexpired(s, d) ==> d.key != c.key;
  }

  lemma FinishKeepsInv(s: System, a: nat)
    requires Inv(s) && a in s.actors && Timely(H, s, s.actors[a])
    requires s.actors[a].CompleteDead? || s.actors[a].CompleteDelete? || s.actors[a].DeadletterCopy?
             || s.actors[a].DeadletterDelete?
    ensures Inv(FinishSteps(s, a, s.actors[a]))
  {
    hide IsOrphaned, DeadMeta;
    var t := FinishSteps(s, a, s.actors[a]);
    assert ClaimIsCurrent(s, s.actors[a].claim);
    if s.actors[a].CompleteDelete? || s.actors[a].DeadletterDelete? {
      assert s.actors[a].Owns();
      hide FinishSteps, Inv;
      DeleteKeepsInv(s, t, a);
    } else {
      FinishIsBenign(s, a);
      hide Inv;
      BenignKeepsInv(s, t, a, t.actors[a]);
    }
  }

  /** Until its delete, finishing touches dead letters only. */
  lemma FinishIsBenign(s: System, a: nat)
    requires Inv(s) && a in s.actors && (s.actors[a].CompleteDead? || s.actors[a].DeadletterCopy?)
    ensures var t := FinishSteps(s, a, s.actors[a]); Benign(s, t, a, t.actors[a]) && Continues(s, t, a, t.actors[a])
  {
    hide IsOrphaned, DeadMeta, Count, Benign, Put, Delete;
    var act, t := s.actors[a], FinishSteps(s, a, s.actors[a]);
    if act.CompleteDead? || InProgress(act.claim.key) in s.bucket.objects {
      DeadLetterIsBenign(s, t, a, act.claim.key, DeadMeta(act.claim.attrs.meta, s.now));
      DeadLetterContinues(s, t, a);
    } else {
      SameBucketIsBenign(s, t, a);
    }
  }

  /** A step that changes nothing but the dead letter of one key. */
  lemma DeadLetterIsBenign(s: System, t: System, a: nat, key: string, m: Meta)
    requires FreshInstances(s) && a in t.actors && t == s.(bucket := t.bucket, actors := s.actors[a := t.actors[a]])
    requires t.bucket == Put(s.bucket, DeadLetter(key), m, s.now) || t.bucket == Delete(s.bucket, DeadLetter(key))
    ensures Benign(s, t, a, t.actors[a])
    ensures forall k :: Queued(k) in t.bucket.objects <==> Queued(k) in s.bucket.objects
  {
    hide Count;
  }

  lemma DeadLetterContinues(s: System, t: System, a: nat)
    requires Inv(s) && a in s.actors && s.actors[a].Begun() && !s.actors[a].Working?
    requires a in t.actors && t.actors[a].Begun() && !t.actors[a].Working?
    requires t.actors[a].claim == s.actors[a].claim && t.actors[a].begun == s.actors[a].begun
    requires Benign(s, t, a, t.actors[a]) && t.asked == s.asked && t.answered == s.answered
    requires forall k :: Queued(k) in t.bucket.objects <==> Queued(k) in s.bucket.objects
    ensures Continues(s, t, a, t.actors[a])
  {
    hide IsOrphaned, Count;
    assert ClaimIsCurrent(s, s.actors[a].claim) && Covered(s, s.actors[a]);
  }

  /** Until its delete, a requeue only adds to the queue. */
  lemma RequeueIsBenign(s: System, a: nat)
    requires FreshInstances(s) && a in s.actors
    requires s.actors[a].RequeuePrepare? || s.actors[a].RequeueCopy? || s.actors[a].RequeueRead?
             || s.actors[a].RequeuePatch?
    ensures var t := RequeueSteps(s, a, s.actors[a]);
            && Benign(s, t, a, t.actors[a])
            && (t.actors[a].Finished? || Requeues(t, t.actors[a], s.actors[a].claim))
  {
    hide RequeueMeta, Merge, Updates, HasOptions, FreshInstances, Benign, Put, Update, Count;
    var act, t := s.actors[a], RequeueSteps(s, a, s.actors[a]);
    if act.RequeueCopy? && InProgress(act.claim.key) in s.bucket.objects && Queued(act.claim.key) !in s.bucket.objects {
      PutIsBenign(s, t, a, act.claim.key, act.meta, s.asked);
      assert Queued(act.claim.key) in t.bucket.objects by {
        PutIsThere(s.bucket, Queued(act.claim.key), act.meta, s.now);
      }
    } else if act.RequeuePatch? && Queued(act.claim.key) in s.bucket.objects {
      PatchIsBenign(s, t, a, act.claim.key, act.merged);
      assert Queued(act.claim.key) in t.bucket.objects by {
        PatchIsThere(s.bucket, Queued(act.claim.key), act.merged);
      }
    } else {
      SameBucketIsBenign(s, t, a);
    }
  }

  lemma PutIsThere(s: Store, n: Name, m: Meta, now: Time)
    ensures n in Put(s, n, m, now).objects
  {
  }

  lemma PatchIsThere(s: Store, n: Name, m: Meta)
    requires n in s.objects
    ensures n in Update(s, n, m).objects
  {
  }

  /** A requeue of `c` is under way, and once it is about to delete its key is back. */
  ghost predicate Requeues(t: System, act: Actor, c: Claim) {
    && (act.RequeuePrepare? || act.RequeueCopy? || act.RequeueRead? || act.RequeuePatch? || act.RequeueDelete?)
    && act.claim == c
    && (act.RequeueDelete? ==> Queued(c.key) in t.bucket.objects)
  }

  lemma RequeueContinues(s: System, t: System, a: nat)
    requires Inv(s) && a in s.actors && s.actors[a].Claims() && a in t.actors && Benign(s, t, a, t.actors[a])
    requires t.actors[a].Finished? || Requeues(t, t.actors[a], s.actors[a].claim)
    ensures Inv(t)
  {
    hide IsOrphaned, Count;
    assert ClaimIsCurrent(s, s.actors[a].claim);
    assert Continues(s, t, a, t.actors[a]);
    hide Inv, Benign, Continues;
    BenignKeepsInv(s, t, a, t.actors[a]);
  }

  /** The other report of the copy leads to the same delete, with the key in the queue. */
  lemma ExistsKeepsInv(s: System, a: nat)
    requires Inv(s) && a in s.actors && Exists(s, a).Some?
    ensures Inv(Exists(s, a).value)
  {
    hide HasOptions, Inv, Benign;
    var t := Exists(s, a).value;
    assert FreshInstances(s) by {
      InvParts(s);
    }
    SameBucketIsBenign(s, t, a);
    RequeueContinues(s, t, a);
  }

  lemma InvParts(s: System)
    requires Inv(s)
    ensures FreshInstances(s)
  {
  }

  lemma RequeueKeepsInv(s: System, a: nat)
    requires Inv(s) && a in s.actors && Timely(H, s, s.actors[a])
    requires s.actors[a].RequeuePrepare? || s.actors[a].RequeueCopy? || s.actors[a].RequeueRead?
             || s.actors[a].RequeuePatch? || s.actors[a].RequeueDelete?
    ensures Inv(RequeueSteps(s, a, s.actors[a]))
  {
    hide IsOrphaned, Benign, Requeues;
    var t := RequeueSteps(s, a, s.actors[a]);
    if s.actors[a].RequeueDelete? {
      assert ClaimIsCurrent(s, s.actors[a].claim);
      DeleteKeepsInv(s, t, a);
    } else {
      hide RequeueSteps;
      RequeueIsBenign(s, a);
      RequeueContinues(s, t, a);
    }
  }

  lemma BeatKeepsInv(s: System, a: nat)
    requires Inv(s) && a in s.actors && Beat(H, s, a).Some?
    ensures Inv(Beat(H, s, a).value)
  {
    hide IsOrphaned, LeaseRefresh;
    var t := Beat(H, s, a).value;
    var c := s.actors[a].claim;
    assert ClaimIsCurrent(s, c) && Covered(s, s.actors[a]);
    forall b | b in t.actors && t.actors[b].Claims()
      ensures ClaimIsCurrent(t, t.actors[b].claim) && Covered(t, t.actors[b])
    {
      if b != a {
        var d := t.actors[b].claim;
        assert ClaimIsCurrent(s, d) && Covered(s, s.actors[b]);
        assert d.key == c.key ==> !SameInstance(s, d);
      }
    }
    OwedStays(s, t);
  }

  lemma ActKeepsInv(s: System, a: nat)
    requires Inv(s) && a in s.actors && Act(H, s, a).Some?
    ensures Inv(Act(H, s, a).value)
  {
    hide IsOrphaned, QueueSteps, StartSteps, FinishSteps, RequeueSteps, Inv;
    var act := s.actors[a];
    if act.QueueCreate? || act.QueueRead? || act.QueuePatch? {
      QueueKeepsInv(s, a);
    } else if act.StartPrepare? || act.StartCopy? || act.StartDelete? || act.StartReturn? {
      StartKeepsInv(s, a);
    } else if act.CompleteDead? || act.CompleteDelete? || act.DeadletterCopy? || act.DeadletterDelete? {
      FinishKeepsInv(s, a);
    } else if act.Claims() {
      RequeueKeepsInv(s, a);
    } else {
      CheckKeepsInv(s, a);
    }
  }

  lemma CheckKeepsInv(s: System, a: nat)
    requires Inv(s) && a in s.actors && s.actors[a].Observed? && Act(H, s, a).Some?
    ensures Inv(Act(H, s, a).value)
  {
    hide IsOrphaned;
    var t := Act(H, s, a).value;
    BenignKeepsInv(s, t, a, t.actors[a]);
  }

  lemma FinishCallKeepsInv(s: System, a: nat, verdict: Verdict)
    requires Inv(s) && a in s.actors && Finish(s, a, verdict).Some?
    ensures Inv(Finish(s, a, verdict).value)
  {
    hide IsOrphaned;
    var t := Finish(s, a, verdict).value;
    assert ClaimIsCurrent(s, s.actors[a].claim) && Covered(s, s.actors[a]);
    BenignKeepsInv(s, t, a, t.actors[a]);
  }

  lemma NextKeepsInv(s: System, l: Label)
    requires Inv(s) && Next(H, s, l).Some?
    ensures Inv(Next(H, s, l).value)
  {
    hide IsOrphaned, Act, Exists, Beat, Finish, QueueMeta, ClaimsAreCurrent, AllCovered, NothingLost;
    var t := Next(H, s, l).value;
    match l
    case Tick(to) => TickKeepsInv(s, to);
    case Step(a) => ActKeepsInv(s, a);
    case CopyExists(a) => ExistsKeepsInv(s, a);
    case Heartbeat(a) => BeatKeepsInv(s, a);
    case Return(a, verdict) => FinishCallKeepsInv(s, a, verdict);
    case CallQueue(a, key, opts) => BecomesHarmless(s, a, t.actors[a]);
    case ListQueued(a, key) => BecomesHarmless(s, a, t.actors[a]);
    case ListInProgress(a, key) => BecomesHarmless(s, a, t.actors[a]);
    case Crash(a) => BecomesHarmless(s, a, t.actors[a]);
  }

  lemma BecomesHarmless(s: System, a: nat, next: Actor)
    requires Inv(s) && !next.Claims() && (next.Observed? ==> next.attrs.instance < s.bucket.nextInstance)
    ensures Inv(Become(s, a, next))
  {
    BenignKeepsInv(s, Become(s, a, next), a, next);
  }

  lemma {:induction false} RunKeepsInv(s: System, labels: seq<Label>)
    requires Inv(s) && Run(H, s, labels).Some?
    ensures Inv(Run(H, s, labels).value)
    decreases |labels|
  {
    hide Next, Inv;
    if labels != [] {
      NextKeepsInv(s, labels[0]);
      RunKeepsInv(Next(H, s, labels[0]).value, labels[1..]);
    }
  }

  lemma InitHasInv()
    ensures Inv(Init())
  {
  }

  lemma ReachableKeepsInv(s: System)
    requires Reachable(H, s)
    ensures Inv(s)
  {
    hide Run, Inv;
    var labels :| Run(H, Init(), labels) == Some(s);
    InitHasInv();
    RunKeepsInv(Init(), labels);
  }

  // The theorems

  /** Under H1 and H2 work that is owed is in the bucket: queued, in progress, or both. */
  lemma NoLostWork(s: System, key: string)
    requires Reachable(H, s)
    ensures Count(s.asked, key) > Count(s.answered, key) ==>
              Queued(key) in s.bucket.objects || InProgress(key) in s.bucket.objects
  {
    hide Run, IsOrphaned;
    ReachableKeepsInv(s);
    assert Owed(s, key) ==> Present(s, key);
  }

  /** Under H1 and H2 at most one actor holds a key with an unexpired lease, and the in-progress
      object is, in instance, metadata and metageneration, the one that actor last wrote. */
  lemma MutualExclusion(s: System, a: nat, b: nat)
    requires Reachable(H, s)
    requires a in s.actors && s.actors[a].Owns() && Unexpired(s, s.actors[a].claim)
    requires b in s.actors && s.actors[b].Owns() && Unexpired(s, s.actors[b].claim)
    requires s.actors[a].claim.key == s.actors[b].claim.key
    ensures a == b
    ensures StillListed(s, s.actors[a].claim.key, s.actors[a].claim.attrs)
  {
    hide Run, IsOrphaned;
    ReachableKeepsInv(s);
    assert ClaimIsCurrent(s, s.actors[a].claim) && ClaimIsCurrent(s, s.actors[b].claim);
  }

  /** So an owner's heartbeat never fails while its lease is unexpired: the context of a worker that
      keeps up is not cancelled. */
  lemma TimelyHeartbeatSucceeds(s: System, a: nat)
    requires Reachable(H, s)
    requires a in s.actors && s.actors[a].Working? && s.actors[a].live && s.actors[a].Owns()
             && Unexpired(s, s.actors[a].claim)
    ensures Beat(H, s, a).Some? && Beat(H, s, a).value.actors[a].Working? && Beat(H, s, a).value.actors[a].live
  {
    hide Run, IsOrphaned;
    MutualExclusion(s, a, a);
  }

  /** Although no delete names a generation, every delete of an in-progress object hits the very
      instance its caller claims. */
  lemma DeletesOwnInstance(s: System, a: nat)
    requires Reachable(H, s) && a in s.actors && Act(H, s, a).Some?
    requires s.actors[a].CompleteDelete? || s.actors[a].DeadletterDelete? || s.actors[a].RequeueDelete?
    ensures SameInstance(s, s.actors[a].claim)
    ensures s.bucket.objects[InProgress(s.actors[a].claim.key)] == s.actors[a].claim.attrs
  {
    hide Run, IsOrphaned;
    ReachableKeepsInv(s);
    assert ClaimIsCurrent(s, s.actors[a].claim);
  }
}
