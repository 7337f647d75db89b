/** The heartbeat under concurrency, whatever the hypotheses: what one beat does, and how far its
    metageneration precondition protects a key from a worker that has lost it. */
module Heartbeats {
  import opened Wrappers
  import opened Timestamp
  import opened Bucket
  import opened Gcs
  import opened Workqueue
  import opened Protocol
  import Safety
  import Necessity

  /** The metageneration that the worker last saw is the one in the bucket. */
  predicate SeesCurrent(s: System, a: nat)
    requires a in s.actors && s.actors[a].Working?
  {
    var n := InProgress(s.actors[a].claim.key);
    n in s.bucket.objects && s.bucket.objects[n].metageneration == s.actors[a].claim.attrs.metageneration
  }

  /** The object after a refresh at `now`: a later metageneration and a lease of three refresh intervals,
      cut to the second, and everything else as it was. */
  predicate Refreshed(before: Obj, after: Obj, now: Time) {
    && after.instance == before.instance && after.created == before.created
    && after.metageneration == before.metageneration + 1
    && after.meta == before.meta.(lease := after.meta.lease)
    && after.meta.lease.Some? && ParseTime(after.meta.lease.value) == Some(Truncate(now + 15 * MINUTE))
  }

  /** One beat of a live worker, exactly: if its metageneration is current the lease of the object is
      renewed, the handle shows the renewed object, and nothing else changes; otherwise the bucket stays as
      it is and the worker is cancelled. */
  lemma BeatIsExact(h: Hypotheses, s: System, a: nat)
    requires FIRST <= s.now <= LAST
    requires a in s.actors && s.actors[a].Working? && s.actors[a].live && Beat(h, s, a).Some?
    ensures var (t, act) := (Beat(h, s, a).value, s.actors[a]);
            var n := InProgress(act.claim.key);
            && t == s.(bucket := t.bucket, actors := s.actors[a := t.actors[a]])
            && t.actors[a].Working? && t.actors[a].claim.key == act.claim.key && t.actors[a].begun == act.begun
            && (t.actors[a].live <==> SeesCurrent(s, a))
            && (if SeesCurrent(s, a) then
                  && t.bucket == s.bucket.(objects := s.bucket.objects[n := t.actors[a].claim.attrs])
                  && Refreshed(s.bucket.objects[n], t.actors[a].claim.attrs, s.now)
                else t.bucket == s.bucket && t.actors[a].claim == act.claim)
  {
    hide FormatTime, ParseTime, IsOrphaned;
    ParseInvertsFormat(s.now + 3 * REFRESH_INTERVAL);
  }

  /** A cancelled worker never beats again, and a timely live one always can. */
  lemma OnlyTheLiveBeat(h: Hypotheses, s: System, a: nat)
    requires a in s.actors && s.actors[a].Working?
    ensures Beat(h, s, a).Some? <==> s.actors[a].live && (h.h1 ==> Unexpired(s, s.actors[a].claim))
  {
    hide IsOrphaned;
  }

  // Objects along a run

  /** The object under a name is either a newer instance or the same one, whose metageneration never falls. */
  ghost predicate Evolves(b: Store, c: Store) {
    && b.nextInstance <= c.nextInstance
    && forall n | n in c.objects && c.objects[n].instance < b.nextInstance ::
         && n in b.objects && b.objects[n].instance == c.objects[n].instance
         && b.objects[n].metageneration <= c.objects[n].metageneration
  }

  ghost predicate Numbered(b: Store) {
    forall n | n in b.objects :: b.objects[n].instance < b.nextInstance
  }

  /** What one object operation does to a bucket. */
  ghost predicate Operates(b: Store, c: Store) {
    || c == b
    || (exists n, m, now :: c == Put(b, n, m, now))
    || (exists n :: c == Delete(b, n))
    || (exists n, m :: n in b.objects && c == Update(b, n, m))
  }

  lemma OperationEvolves(b: Store, c: Store)
    requires Operates(b, c)
    ensures Evolves(b, c) && (Numbered(b) ==> Numbered(c))
  {
  }

  /** A worker, from the second half of its start to the end of its callback, is an owner. */
  predicate WorksAsOwner(act: Actor) {
    act.StartDelete? || act.StartReturn? || act.Working? ==> act.claim.owner
  }

  /** Only actor `a` moves, and its operation is one of the bucket's. */
  ghost predicate Moves(s: System, t: System, a: nat)
    requires a in s.actors
  {
    && Operates(s.bucket, t.bucket)
    && a in t.actors && (WorksAsOwner(s.actors[a]) ==> WorksAsOwner(t.actors[a]))
    && t.actors.Keys == s.actors.Keys
    && forall b | b in s.actors && b != a :: b in t.actors && t.actors[b] == s.actors[b]
  }

  lemma QueueMoves(s: System, a: nat)
    requires a in s.actors && (s.actors[a].QueueCreate? || s.actors[a].QueueRead? || s.actors[a].QueuePatch?)
    ensures Moves(s, QueueSteps(s, a, s.actors[a]), a)
  {
    hide Merge, Updates, HasOptions, Put, Update;
  }

  lemma StartMoves(s: System, a: nat)
    requires a in s.actors
    requires s.actors[a].StartPrepare? || s.actors[a].StartCopy? || s.actors[a].StartDelete? || s.actors[a].StartReturn?
    ensures Moves(s, StartSteps(s, a, s.actors[a]), a)
  {
    hide StartMeta;
  }

  lemma FinishMoves(s: System, a: nat)
    requires a in s.actors
    requires s.actors[a].CompleteDead? || s.actors[a].CompleteDelete? || s.actors[a].DeadletterCopy?
             || s.actors[a].DeadletterDelete?
    ensures Moves(s, FinishSteps(s, a, s.actors[a]), a)
  {
    hide DeadMeta, Put, Delete;
  }

  lemma RequeueMoves(s: System, a: nat)
    requires a in s.actors
    requires s.actors[a].RequeuePrepare? || s.actors[a].RequeueCopy? || s.actors[a].RequeueRead?
             || s.actors[a].RequeuePatch? || s.actors[a].RequeueDelete?
    ensures Moves(s, RequeueSteps(s, a, s.actors[a]), a)
  {
    hide RequeueMeta, Merge, Updates, HasOptions, Put, Delete, Update;
  }

  lemma ActMoves(h: Hypotheses, s: System, a: nat)
    requires a in s.actors && Act(h, s, a).Some?
    ensures Moves(s, Act(h, s, a).value, a)
  {
    hide IsOrphaned, QueueSteps, StartSteps, FinishSteps, RequeueSteps, Timely, Moves;
    var act := s.actors[a];
    if act.QueueCreate? || act.QueueRead? || act.QueuePatch? {
      QueueMoves(s, a);
    } else if act.StartPrepare? || act.StartCopy? || act.StartDelete? || act.StartReturn? {
      StartMoves(s, a);
    } else if act.CompleteDead? || act.CompleteDelete? || act.DeadletterCopy? || act.DeadletterDelete? {
      FinishMoves(s, a);
    } else if act.Claims() {
      RequeueMoves(s, a);
    } else {
      CheckMoves(s, Act(h, s, a).value, a);
    }
  }

  lemma CheckMoves(s: System, t: System, a: nat)
    requires a in s.actors && a in t.actors && t == s.(actors := s.actors[a := t.actors[a]])
    requires WorksAsOwner(t.actors[a])
    ensures Moves(s, t, a)
  {
  }

  /** Every step is at most one object operation, and moves no actor but its own. */
  lemma NextOperates(h: Hypotheses, s: System, l: Label)
    requires Next(h, s, l).Some?
    ensures Operates(s.bucket, Next(h, s, l).value.bucket)
    ensures forall b | b in s.actors && (l.Tick? || l.a != b) ::
              b in Next(h, s, l).value.actors && Next(h, s, l).value.actors[b] == s.actors[b]
  {
    hide Act, IsOrphaned, QueueMeta, HasOptions, Put, Delete, Update, LeaseRefresh;
    if l.Step? {
      ActMoves(h, s, l.a);
    }
  }

  lemma {:induction false} RunEvolves(h: Hypotheses, s: System, labels: seq<Label>, a: nat)
    requires Run(h, s, labels).Some? && Numbered(s.bucket) && a in s.actors
    requires forall l | l in labels :: l.Tick? || l.a != a
    ensures var t := Run(h, s, labels).value;
            && Evolves(s.bucket, t.bucket) && Numbered(t.bucket)
            && a in t.actors && t.actors[a] == s.actors[a]
    decreases |labels|
  {
    hide Next, Operates;
    if labels != [] {
      var t := Next(h, s, labels[0]).value;
      assert labels[0] in labels && forall l | l in labels[1..] :: l in labels;
      NextOperates(h, s, labels[0]);
      OperationEvolves(s.bucket, t.bucket);
      RunEvolves(h, t, labels[1..], a);
    }
  }

  lemma {:induction false} RunNumbers(h: Hypotheses, s: System, labels: seq<Label>)
    requires Run(h, s, labels).Some? && Numbered(s.bucket)
    ensures Numbered(Run(h, s, labels).value.bucket)
    decreases |labels|
  {
    hide Next, Operates;
    if labels != [] {
      NextOperates(h, s, labels[0]);
      OperationEvolves(s.bucket, Next(h, s, labels[0]).value.bucket);
      RunNumbers(h, Next(h, s, labels[0]).value, labels[1..]);
    }
  }

  lemma ReachableIsNumbered(h: Hypotheses, s: System)
    requires Reachable(h, s)
    ensures Numbered(s.bucket)
  {
    hide Run;
    var labels :| Run(h, Init(), labels) == Some(s);
    RunNumbers(h, Init(), labels);
  }

  // Workers are owners

  ghost predicate WorkersAreOwners(s: System) {
    forall a | a in s.actors :: WorksAsOwner(s.actors[a])
  }

  lemma ActKeepsOwners(h: Hypotheses, s: System, a: nat)
    requires WorkersAreOwners(s) && a in s.actors && Act(h, s, a).Some?
    ensures WorkersAreOwners(Act(h, s, a).value)
  {
    hide Act, Operates;
    ActMoves(h, s, a);
  }

  lemma NextKeepsOwners(h: Hypotheses, s: System, l: Label)
    requires WorkersAreOwners(s) && Next(h, s, l).Some?
    ensures WorkersAreOwners(Next(h, s, l).value)
  {
    hide Act, IsOrphaned, QueueMeta, HasOptions, Put, Delete, Update, LeaseRefresh;
    if l.Step? {
      ActKeepsOwners(h, s, l.a);
    }
  }

  lemma {:induction false} RunKeepsOwners(h: Hypotheses, s: System, labels: seq<Label>)
    requires Run(h, s, labels).Some? && WorkersAreOwners(s)
    ensures WorkersAreOwners(Run(h, s, labels).value)
    decreases |labels|
  {
    hide Next, WorkersAreOwners;
    if labels != [] {
      NextKeepsOwners(h, s, labels[0]);
      RunKeepsOwners(h, Next(h, s, labels[0]).value, labels[1..]);
    }
  }

  lemma WorkersOwn(h: Hypotheses, s: System, a: nat)
    requires Reachable(h, s) && a in s.actors && s.actors[a].Working?
    ensures s.actors[a].Owns()
  {
    hide Run;
    var labels :| Run(h, Init(), labels) == Some(s);
    RunKeepsOwners(h, Init(), labels);
  }

  // The theorems

  /** Once another worker's beat has raised the metageneration past what worker `a` last saw, whatever
      happens before the next beat of `a`: unless the object has been replaced by a newer instance, that
      beat fails and cancels `a`, and the bucket stays as it is. */
  lemma ForeignBeatCancels(h: Hypotheses, s: System, a: nat, b: nat, labels: seq<Label>)
    requires Reachable(h, s)
    requires a in s.actors && s.actors[a].Working? && b in s.actors && s.actors[b].Working? && a != b
    requires s.actors[b].claim.key == s.actors[a].claim.key && s.actors[b].live
    requires Beat(h, s, b).Some? && SeesCurrent(s, b)
    requires s.actors[a].claim.attrs.metageneration <= s.actors[b].claim.attrs.metageneration
    requires forall l | l in labels :: l.Tick? || l.a != a
    requires Run(h, Beat(h, s, b).value, labels).Some?
    ensures var (t, u) := (Beat(h, s, b).value, Run(h, Beat(h, s, b).value, labels).value);
            var n := InProgress(s.actors[a].claim.key);
            (n in u.bucket.objects ==> u.bucket.objects[n].instance < t.bucket.nextInstance)
            && a in u.actors && Beat(h, u, a).Some? ==>
              Beat(h, u, a).value == Become(u, a, s.actors[a].(live := false))
  {
    hide Run, IsOrphaned, LeaseRefresh;
    var t := Beat(h, s, b).value;
    var n := InProgress(s.actors[a].claim.key);
    ReachableIsNumbered(h, s);
    assert t.bucket.objects[n].metageneration == s.actors[b].claim.attrs.metageneration + 1;
    assert Numbered(t.bucket);
    RunEvolves(h, t, labels, a);
  }

  /** But the precondition names no generation: without H1 a worker that has lost its key can renew the
      lease of a newer instance that happens to be at the metageneration it last saw, and then it is the
      new owner, with an unexpired lease, whose next beat fails. By `BeatIsExact` equal metagenerations are
      the only way. */
  lemma ForeignBeatPasses(h: Hypotheses) returns (s: System)
    requires !h.h1
    ensures Reachable(h, s) && 1 in s.actors && 4 in s.actors
    ensures var (a, b) := (s.actors[1], s.actors[4]);
            && a.Working? && a.live && b.Working? && b.live && a.claim.key == b.claim.key
            && StillListed(s, b.claim.key, b.claim.attrs) && Unexpired(s, b.claim) && !SameInstance(s, a.claim)
            && Beat(h, s, 1).Some? && Beat(h, s, 1).value.actors[1].live
            && Beat(h, Beat(h, s, 1).value, 4).Some? && !Beat(h, Beat(h, s, 1).value, 4).value.actors[4].live
  {
    hide Run, Reachable, IsOrphaned, LeaseRefresh;
    s := Necessity.StartedOver(h);
  }

  /** Without H2 a worker whose key a late collector deleted does the same once the key is queued and
      started again. */
  lemma ForeignBeatPassesWithoutH2() returns (s: System)
    ensures Reachable(Hypotheses(true, false), s) && 4 in s.actors && s.actors[4].Working? && s.actors[4].live
    ensures !SameInstance(s, s.actors[4].claim)
    ensures Beat(Hypotheses(true, false), s, 4).Some? && Beat(Hypotheses(true, false), s, 4).value.actors[4].live
  {
    hide Run, Reachable, IsOrphaned, LeaseRefresh, QueueMeta;
    var h := Hypotheses(true, false);
    s := Necessity.LostWithoutH2();
    s := QueuedAgain(h, s);
    s := Necessity.StartAgain(h, s, 6);
  }

  lemma QueuedAgain(h: Hypotheses, s: System) returns (t: System)
    requires Reachable(h, s) && s.bucket.objects == map[] && 5 !in s.actors
    ensures Reachable(h, t) && t.now == s.now && s.bucket.nextInstance <= t.bucket.nextInstance
    ensures t.bucket.objects.Keys == {Queued(Necessity.KEY)} && t.actors == s.actors[5 := Finished]
  {
    hide Run, IsOrphaned, QueueMeta, StartSteps, FinishSteps, RequeueSteps, Exists, Beat, Finish;
    t := Necessity.Go(h, s, CallQueue(5, Necessity.KEY, NO_OPTIONS));
    t := Necessity.Go(h, t, Step(5));
  }

  /** A worker renews a lease that is not its own. */
  ghost predicate RenewsForeign(h: Hypotheses, s: System, a: nat) {
    && a in s.actors && s.actors[a].Working? && !SameInstance(s, s.actors[a].claim)
    && Beat(h, s, a).Some? && Beat(h, s, a).value.actors[a].Working? && Beat(h, s, a).value.actors[a].live
  }

  /** In the end no worker ever renews a foreign lease if and only if both hypotheses are on. */
  lemma HypothesesAreExactForBeats(h: Hypotheses)
    ensures h.h1 && h.h2 <==> forall s, a | Reachable(h, s) :: !RenewsForeign(h, s, a)
  {
    hide Run, Reachable, IsOrphaned, LeaseRefresh;
    if h.h1 && h.h2 {
      forall s, a | Reachable(h, s)
        ensures !RenewsForeign(h, s, a)
      {
        if a in s.actors && s.actors[a].Working? && Unexpired(s, s.actors[a].claim) {
          WorkersOwn(h, s, a);
          Safety.MutualExclusion(s, a, a);
        }
      }
    } else if h.h1 {
      assert h == Hypotheses(true, false);
      var s := ForeignBeatPassesWithoutH2();
      assert RenewsForeign(h, s, 4);
    } else {
      var s := ForeignBeatPasses(h);
      assert RenewsForeign(h, s, 1);
    }
  }
}
