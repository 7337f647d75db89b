/** One round of the dispatcher: which keys it requeues and launches, and what becomes of a launched key. */
module Dispatcher {
  import opened Wrappers
  import opened Timestamp
  import opened Workqueue
  import opened Bucket
  import opened TopK
  import Gcs
  import Inmem

  /** A key in progress as a round observes it. */
  datatype Observed = Observed(name: string, orphaned: bool)

  function Active(wip: seq<Observed>): set<string> {
    set x | x in wip && !x.orphaned :: x.name
  }

  function Orphans(wip: seq<Observed>): seq<Observed> {
    if wip == [] then []
    else Orphans(wip[..|wip| - 1]) + (if wip[|wip| - 1].orphaned then [wip[|wip| - 1]] else [])
  }

  /** The candidates that are not active, in their order. */
  function Idle(next: seq<string>, active: set<string>): seq<string> {
    if next == [] then []
    else Idle(next[..|next| - 1], active) + (if next[|next| - 1] in active then [] else [next[|next| - 1]])
  }

  /** The first idle candidates, one for each open slot. */
  function Launch(next: seq<string>, active: set<string>, concurrency: int): seq<string> {
    if |active| >= concurrency then []
    else Idle(next, active)[..Min(concurrency - |active|, |Idle(next, active)|)]
  }

  /** The two loops of a round: split off the orphans, then fill the open slots greedily. */
  method Round(wip: seq<Observed>, next: seq<string>, concurrency: int)
    returns (requeued: seq<Observed>, launched: seq<string>)
    ensures requeued == Orphans(wip)
    ensures launched == Launch(next, Active(wip), concurrency)
  {
    requeued, launched := [], [];
    var activeKeys: set<string> := {};
    for i := 0 to |wip|
      invariant activeKeys == Active(wip[..i]) && requeued == Orphans(wip[..i])
    {
      assert wip[..i + 1][..i] == wip[..i];
      assert wip[..i + 1] == wip[..i] + [wip[i]];
      if !wip[i].orphaned {
        activeKeys := activeKeys + {wip[i].name};
        continue;
      }
      requeued := requeued + [wip[i]];
    }
    assert wip[..|wip|] == wip;
    var nWIP := |activeKeys|;
    if nWIP >= concurrency {
      return;
    }
    var openSlots := concurrency - nWIP;
    var idx := 0;
    while idx < |next| && |launched| < openSlots
      invariant 0 <= idx <= |next| && |launched| <= openSlots
      invariant launched == Idle(next[..idx], activeKeys)
    {
      assert next[..idx + 1][..idx] == next[..idx];
      var name := next[idx];
      idx := idx + 1;
      if name in activeKeys {
        continue;
      }
      launched := launched + [name];
    }
    IdleConcat(next[..idx], next[idx..], activeKeys);
    assert next == next[..idx] + next[idx..];
    assert idx == |next| ==> next[idx..] == [];
  }

  lemma {:induction false} IdleConcat(a: seq<string>, b: seq<string>, active: set<string>)
    ensures Idle(a + b, active) == Idle(a, active) + Idle(b, active)
  {
    if b == [] {
      assert a + b == a;
    } else {
      var b' := b[..|b| - 1];
      IdleConcat(a, b', active);
      assert (a + b)[..|a + b| - 1] == a + b';
    }
  }

  /** Distinct candidates lose at most one place per active key. */
  lemma {:induction false} IdleCount(next: seq<string>, active: set<string>)
    requires Distinct(next)
    ensures |Idle(next, active)| + |active| >= |next|
  {
    if next != [] {
      var rest, last := next[..|next| - 1], next[|next| - 1];
      if last in active {
        IdleCount(rest, active - {last});
        SameIdle(rest, active, last);
      } else {
        IdleCount(rest, active);
      }
    }
  }

  lemma {:induction false} SameIdle(next: seq<string>, active: set<string>, other: string)
    requires other !in next
    ensures Idle(next, active - {other}) == Idle(next, active)
  {
    if next != [] {
      assert next[|next| - 1] in next && forall x | x in next[..|next| - 1] :: x in next;
      SameIdle(next[..|next| - 1], active, other);
    }
  }

  /** Truncating the ranking before skipping the active keys loses nothing, if the limit is at least
      the concurrency: no slot is wasted and no other key is chosen. */
  lemma TruncateThenSkip(full: seq<string>, limit: nat, active: set<string>, concurrency: int)
    requires Distinct(full) && limit >= concurrency
    ensures Launch(full[..Min(limit, |full|)], active, concurrency) == Launch(full, active, concurrency)
  {
    var next, rest := full[..Min(limit, |full|)], full[Min(limit, |full|)..];
    assert full == next + rest;
    IdleConcat(next, rest, active);
    IdleCount(next, active);
    if limit >= |full| {
      assert next == full;
    }
  }

  lemma {:induction false} IdleOfOthers(next: seq<string>, active: set<string>)
    requires forall k | k in next :: k !in active
    ensures Idle(next, active) == next
  {
    if next != [] {
      assert next[|next| - 1] in next;
      IdleOfOthers(next[..|next| - 1], active);
    }
  }

  /** With a smaller limit a slot can stay empty although an idle key waits. */
  lemma SmallLimitWastesSlots(limit: nat, concurrency: int) returns (full: seq<string>)
    requires limit < concurrency
    ensures Distinct(full) && |full| == limit + 1
    ensures |Launch(full[..limit], {}, concurrency)| < |Launch(full, {}, concurrency)|
  {
    full := seq(limit + 1, (i: nat) => seq(i, j => 'k'));
    assert forall i | 0 <= i < |full| :: |full[i]| == i;
    IdleOfOthers(full, {});
    IdleOfOthers(full[..limit], {});
  }

  /** The condition is exact: truncating first never changes a round if and only if the limit is at least
      the concurrency. */
  lemma LimitIsExact(limit: nat, concurrency: int)
    ensures limit >= concurrency <==>
            forall full, active | Distinct(full) ::
              Launch(full[..Min(limit, |full|)], active, concurrency) == Launch(full, active, concurrency)
  {
    hide Launch;
    if limit >= concurrency {
      forall full, active | Distinct(full)
        ensures Launch(full[..Min(limit, |full|)], active, concurrency) == Launch(full, active, concurrency)
      {
        TruncateThenSkip(full, limit, active, concurrency);
      }
    } else {
      var full := SmallLimitWastesSlots(limit, concurrency);
      assert Launch(full[..Min(limit, |full|)], {}, concurrency) != Launch(full, {}, concurrency);
    }
  }

  lemma ListedOnce(s: Store, now: Time, full: seq<Gcs.Candidate>)
    requires Distinct(full) && Elements(full) <= Gcs.Eligible(s, now)
    ensures Distinct(Mapped(Gcs.KeyOf, full))
  {
    hide Gcs.Delayed, Gcs.PriorityOf;
    forall i, j | 0 <= i < j < |full|
      ensures full[i].key != full[j].key
    {
      assert full[i] in Elements(full) && full[j] in Elements(full);
    }
  }

  /** The keys a round launches are exactly the first (concurrency - active) keys of all eligible keys
      that are not active, ranked by priority, age and name. */
  lemma RoundIsIdeal(s: Store, now: Time, limit: nat, concurrency: int, wip: seq<Observed>,
                     next: seq<Gcs.Candidate>, full: seq<Gcs.Candidate>)
    requires IsTop(Gcs.Before, Gcs.Eligible(s, now), limit, next)
    requires IsTop(Gcs.Before, Gcs.Eligible(s, now), |Gcs.Eligible(s, now)|, full)
    requires limit >= concurrency
    ensures Launch(Mapped(Gcs.KeyOf, next), Active(wip), concurrency)
            == Launch(Mapped(Gcs.KeyOf, full), Active(wip), concurrency)
  {
    hide Gcs.Eligible, Launch, Gcs.Before;
    Gcs.BeforeIsWeakOrder();
    Gcs.EligibleHasNoTies(s, now);
    TopIsPrefixOfRanking(Gcs.Before, Gcs.Eligible(s, now), limit, next, full);
    ListedOnce(s, now, full);
    TruncateThenSkip(Mapped(Gcs.KeyOf, full), limit, Active(wip), concurrency);
    assert Mapped(Gcs.KeyOf, next) == Mapped(Gcs.KeyOf, full)[..Min(limit, |full|)];
  }

  /** The keys that are in progress with an unexpired lease. */
  ghost function ActiveKeys(s: Store, now: Time): set<string> {
    set n | n in s.objects && n.InProgress? && !Gcs.IsOrphaned(s.objects[n].meta, now) :: n.key
  }

  /** The keys that are in progress without an unexpired lease. */
  ghost function OrphanedKeys(s: Store, now: Time): set<string> {
    set n | n in s.objects && n.InProgress? && Gcs.IsOrphaned(s.objects[n].meta, now) :: n.key
  }

  function NameOf(o: Observed): string {
    o.name
  }

  /** Enumerate the bucket and run a round on what it says: every orphan is requeued, once, and nothing
      else. Whatever order the listing came in, the launched keys are those of the ideal scheduler, which
      ranks every eligible key. */
  method HandleAsync(wq: Gcs.WorkQueue, concurrency: int, now: Time)
    returns (requeued: seq<Observed>, launched: seq<string>)
    requires wq.limit >= concurrency
    ensures Distinct(Mapped(NameOf, requeued))
    ensures Elements(Mapped(NameOf, requeued)) == OrphanedKeys(wq.bucket, now)
    ensures forall full | IsTop(Gcs.Before, Gcs.Eligible(wq.bucket, now), |Gcs.Eligible(wq.bucket, now)|, full) ::
              launched == Launch(Mapped(Gcs.KeyOf, full), ActiveKeys(wq.bucket, now), concurrency)
  {
    hide Launch;
    var wip, next := wq.Enumerate(now);
    var observed := seq(|wip|, i requires 0 <= i < |wip| =>
                          Observed(wip[i].key, Gcs.IsOrphaned(wip[i].attrs.meta, now)));
    requeued, launched := Round(observed, Mapped(Gcs.KeyOf, next), concurrency);
    ObservedIsActual(wq.bucket, now, wip, observed);
    ObservedOnce(wq.bucket, now, wip, observed);
    OrphansAreObserved(observed);
    OrphansAreActual(wq.bucket, now, observed);
    forall full | IsTop(Gcs.Before, Gcs.Eligible(wq.bucket, now), |Gcs.Eligible(wq.bucket, now)|, full)
      ensures launched == Launch(Mapped(Gcs.KeyOf, full), ActiveKeys(wq.bucket, now), concurrency)
    {
      RoundIsIdeal(wq.bucket, now, wq.limit, concurrency, observed, next, full);
    }
  }

  lemma ObservedIsActual(s: Store, now: Time, wip: seq<Gcs.Candidate>, observed: seq<Observed>)
    requires Elements(wip) == Gcs.WorkInProgress(s)
    requires |observed| == |wip|
    requires forall i | 0 <= i < |wip| :: observed[i] == Observed(wip[i].key, Gcs.IsOrphaned(wip[i].attrs.meta, now))
    ensures Active(observed) == ActiveKeys(s, now)
    ensures forall o | o in observed :: InProgress(o.name) in s.objects
              && o.orphaned == Gcs.IsOrphaned(s.objects[InProgress(o.name)].meta, now)
    ensures forall n | n in s.objects && n.InProgress? ::
              Observed(n.key, Gcs.IsOrphaned(s.objects[n].meta, now)) in observed
  {
    hide Gcs.IsOrphaned, Gcs.PriorityOf;
    forall o | o in observed
      ensures InProgress(o.name) in s.objects && o.orphaned == Gcs.IsOrphaned(s.objects[InProgress(o.name)].meta, now)
    {
      var i :| 0 <= i < |observed| && observed[i] == o;
      assert wip[i] in Elements(wip);
    }
    forall n | n in s.objects && n.InProgress?
      ensures Observed(n.key, Gcs.IsOrphaned(s.objects[n].meta, now)) in observed
    {
      var c := Gcs.Listed(n.key, s.objects[n]);
      assert c in Elements(wip);
      var i :| 0 <= i < |wip| && wip[i] == c;
      assert observed[i] in observed;
    }
  }

  lemma ObservedOnce(s: Store, now: Time, wip: seq<Gcs.Candidate>, observed: seq<Observed>)
    requires Distinct(wip) && Elements(wip) == Gcs.WorkInProgress(s) && |observed| == |wip|
    requires forall i | 0 <= i < |wip| :: observed[i] == Observed(wip[i].key, Gcs.IsOrphaned(wip[i].attrs.meta, now))
    ensures Distinct(Mapped(NameOf, observed))
  {
    hide Gcs.IsOrphaned, Gcs.PriorityOf;
    forall i, j | 0 <= i < j < |wip|
      ensures wip[i].key != wip[j].key
    {
      assert wip[i] in Elements(wip) && wip[j] in Elements(wip);
    }
  }

  lemma {:induction false} OrphansAreObserved(wip: seq<Observed>)
    ensures forall o :: o in Orphans(wip) <==> o in wip && o.orphaned
    ensures Distinct(Mapped(NameOf, wip)) ==> Distinct(Mapped(NameOf, Orphans(wip)))
  {
    if wip != [] {
      var rest, last := wip[..|wip| - 1], wip[|wip| - 1];
      assert wip == rest + [last];
      OrphansAreObserved(rest);
      if Distinct(Mapped(NameOf, wip)) {
        assert forall i | 0 <= i < |rest| :: Mapped(NameOf, rest)[i] == Mapped(NameOf, wip)[i];
        forall o | o in Orphans(rest)
          ensures o.name != last.name
        {
          var i :| 0 <= i < |rest| && rest[i] == o;
          assert Mapped(NameOf, wip)[i] != Mapped(NameOf, wip)[|wip| - 1];
        }
      }
    }
  }

  lemma OrphansAreActual(s: Store, now: Time, observed: seq<Observed>)
    requires forall o | o in observed :: InProgress(o.name) in s.objects
               && o.orphaned == Gcs.IsOrphaned(s.objects[InProgress(o.name)].meta, now)
    requires forall n | n in s.objects && n.InProgress? ::
               Observed(n.key, Gcs.IsOrphaned(s.objects[n].meta, now)) in observed
    requires forall o :: o in Orphans(observed) <==> o in observed && o.orphaned
    ensures Elements(Mapped(NameOf, Orphans(observed))) == OrphanedKeys(s, now)
  {
    hide Gcs.IsOrphaned, Orphans;
    var orphans := Orphans(observed);
    forall key | key in Elements(Mapped(NameOf, orphans))
      ensures key in OrphanedKeys(s, now)
    {
      var i :| 0 <= i < |orphans| && Mapped(NameOf, orphans)[i] == key;
      assert orphans[i] in orphans;
    }
    forall n | n in s.objects && n.InProgress? && Gcs.IsOrphaned(s.objects[n].meta, now)
      ensures n.key in Elements(Mapped(NameOf, orphans))
    {
      var o := Observed(n.key, true);
      assert o in orphans;
      var i :| 0 <= i < |orphans| && orphans[i] == o;
      assert Mapped(NameOf, orphans)[i] == n.key;
    }
  }

  // What becomes of a launched key

  /** The callback's result, as the dispatcher tells them apart. */
  datatype Outcome = Succeeded | RequeueAfter(delay: Time) | NonRetriable | Failed

  datatype Disposal = Complete | Deadletter | Requeue(opts: Options)

  /** A requested delay comes first, then the retry limit, then the non-retriable mark. */
  function Dispose(outcome: Outcome, attempts: int, priority: int, maxRetry: int): Disposal {
    match outcome
    case Succeeded => Complete
    case RequeueAfter(delay) => Requeue(Options(priority, 0, delay))
    case _ =>
      if maxRetry > 0 && attempts >= maxRetry then Deadletter
      else if outcome.NonRetriable? then Complete
      else Requeue(NO_OPTIONS)
  }

  /** The launched goroutine on the in-memory queue: start, call back, dispose. A failed start means
      someone else was first. The result is the attempt the callback was invoked with, if it was. */
  function AfterProcess(s: Inmem.State, k: Inmem.QueuedKey, outcome: Outcome, maxRetry: int, now: Time)
    : (Inmem.State, Option<int>)
  {
    match Inmem.AfterStart(s, k)
    case None => (s, None)
    case Some(started) =>
      var owned := started.1;
      var after := match Dispose(outcome, owned.attempts, owned.priority, maxRetry)
        case Requeue(opts) => Inmem.AfterRequeue(started.0, owned, opts, now)
        case _ => Inmem.AfterFinish(started.0, owned);
      (after, Some(owned.attempts))
  }

  method Process(wq: Inmem.WorkQueue, k: Inmem.QueuedKey, outcome: Outcome, maxRetry: int, now: Time)
    returns (invoked: Option<int>)
    modifies wq
    ensures (wq.Contents(), invoked) == AfterProcess(old(wq.Contents()), k, outcome, maxRetry, now)
  {
    var owned := wq.Start(k);
    if owned.None? {
      return None;
    }
    var oip := owned.value;
    invoked := Some(oip.attempts);
    if outcome.Succeeded? {
      wq.Complete(oip);
    } else if outcome.RequeueAfter? {
      wq.RequeueWithOptions(oip, Options(oip.priority, 0, outcome.delay), now);
    } else if maxRetry > 0 && oip.attempts >= maxRetry {
      wq.Deadletter(oip);
    } else if outcome.NonRetriable? {
      wq.Complete(oip);
    } else {
      wq.RequeueWithOptions(oip, NO_OPTIONS, now);
    }
  }

  /** The same goroutine on the bucket. */
  function AfterGcsProcess(s: Store, c: Gcs.Candidate, outcome: Outcome, maxRetry: int, now: Time)
    : (Store, Option<int>)
  {
    match Gcs.AfterStart(s, c.key, c.attrs, now)
    case None => (s, None)
    case Some(started) =>
      var (store, attrs) := started;
      var attempts := Gcs.AttemptsOf(attrs.meta);
      var after := match Dispose(outcome, attempts, c.priority, maxRetry)
        case Complete => Gcs.AfterComplete(store, c.key)
        case Deadletter => Gcs.AfterDeadletter(store, c.key, attrs, now).GetOr(store)
        case Requeue(opts) => Gcs.AfterRequeue(store, c.key, attrs, opts, now).GetOr(store);
      (after, Some(attempts))
  }

  method ProcessOnBucket(wq: Gcs.WorkQueue, c: Gcs.Candidate, outcome: Outcome, maxRetry: int, now: Time)
    returns (invoked: Option<int>)
    modifies wq
    ensures (wq.bucket, invoked) == AfterGcsProcess(old(wq.bucket), c, outcome, maxRetry, now)
  {
    hide Gcs.AfterStart, Gcs.AfterComplete, Gcs.AfterDeadletter, Gcs.AfterRequeue, Gcs.AttemptsOf;
    var key := new Gcs.QueuedKey(wq, c);
    var oip := key.Start(now);
    if oip == null {
      return None;
    }
    var attempts := Gcs.AttemptsOf(oip.attrs.meta);
    invoked := Some(attempts);
    var ok: bool;
    if outcome.Succeeded? {
      ok := oip.Complete();
    } else if outcome.RequeueAfter? {
      ok := oip.RequeueWithOptions(Options(oip.priority, 0, outcome.delay), now);
    } else if maxRetry > 0 && attempts >= maxRetry {
      ok := oip.Deadletter(now);
    } else if outcome.NonRetriable? {
      ok := oip.Complete();
    } else {
      ok := oip.RequeueWithOptions(NO_OPTIONS, now);
    }
  }
}
