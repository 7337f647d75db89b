/** The bucket-backed queue under concurrency: callers, workers and orphan collectors interleave one
    object operation at a time, and any of them may stop for ever between two operations.

    An actor is one call in flight, described by what it will do next. Two hypotheses about time are
    switches, so that what depends on them can be told apart from what does not:
    H1: an owner deletes objects and refreshes its lease only while its own lease is unexpired;
    H2: an orphan collector's check, and the delete that ends its requeue, see the in-progress
        object it listed and not a later one. */
module Protocol {
  import opened Wrappers
  import opened Timestamp
  import opened Workqueue
  import opened Bucket
  import opened Gcs

  datatype Hypotheses = Hypotheses(h1: bool, h2: bool)

  /** An in-progress key as its owner created it, or as a collector listed it. */
  datatype Claim = Claim(key: string, attrs: Obj, owner: bool)

  datatype Actor =
    | Finished
      // Queue
    | QueueCreate(key: string, request: Meta)
    | QueueRead(key: string, request: Meta)
    | QueuePatch(key: string, request: Meta, merged: Meta)
      // Start, with the metadata listed for the key and then with the rewritten one
    | StartPrepare(key: string, meta: Meta)
    | StartCopy(key: string, meta: Meta)
    | StartDelete(claim: Claim)
    | StartReturn(claim: Claim)
      // the callback runs; `begun` is how many requests for the key came before it
    | Working(claim: Claim, live: bool, begun: nat)
    | CompleteDead(claim: Claim, begun: nat)
    | CompleteDelete(claim: Claim, begun: nat)
    | DeadletterCopy(claim: Claim, begun: nat)
    | DeadletterDelete(claim: Claim, begun: nat)
      // an in-progress key listed by a dispatcher
    | Observed(key: string, attrs: Obj)
      // a requeue, by the owner or by a collector; `meta` is the handle's metadata
    | RequeuePrepare(claim: Claim, meta: Meta, opts: Options)
    | RequeueCopy(claim: Claim, meta: Meta, opts: Options)
    | RequeueRead(claim: Claim, meta: Meta, opts: Options)
    | RequeuePatch(claim: Claim, meta: Meta, opts: Options, merged: Meta)
    | RequeueDelete(claim: Claim)
  {
    predicate Claims() {
      StartDelete? || StartReturn? || Working? || CompleteDead? || CompleteDelete? || DeadletterCopy?
      || DeadletterDelete?
      || RequeuePrepare? || RequeueCopy? || RequeueRead? || RequeuePatch? || RequeueDelete?
    }

    predicate Owns() {
      Claims() && claim.owner
    }

    /** The callback has begun and no requeue was asked for. */
    predicate Begun() {
      Working? || CompleteDead? || CompleteDelete? || DeadletterCopy? || DeadletterDelete?
    }
  }

  /** `asked` counts the create-if-absent operations of `Queue` per key; `answered` is the largest
      number of them that came before a callback which ended in `Complete` or `Deadletter`. */
  datatype System = System(
    now: Time,
    bucket: Store,
    actors: map<nat, Actor>,
    asked: map<string, nat>,
    answered: map<string, nat>)

  /** What the callback makes its worker do. */
  datatype Verdict = Complete | Deadletter | Requeue(opts: Options)

  datatype Label =
    | Tick(to: Time)
    | CallQueue(a: nat, key: string, opts: Options)
    | ListQueued(a: nat, key: string)
    | ListInProgress(a: nat, key: string)
    | Step(a: nat)
      // the copy of a requeue finds its source gone and its target there, and reports the latter
    | CopyExists(a: nat)
    | Heartbeat(a: nat)
    | Return(a: nat, verdict: Verdict)
    | Crash(a: nat)

  /** Far enough from both ends of time for leases, delays and backoffs to be printable. */
  const FIRST: Time := TWO_63
  const LAST: Time := END_OF_TIME - TWO_63

  function Init(): System {
    System(FIRST, EMPTY, map[], map[], map[])
  }

  predicate ValidOptions(o: Options) {
    InRange(o.notBefore) && -TWO_63 <= o.priority < TWO_63 && -TWO_63 <= o.delay < TWO_63
  }

  function Count(m: map<string, nat>, key: string): nat {
    if key in m then m[key] else 0
  }

  function Max(a: nat, b: nat): nat {
    if a < b then b else a
  }

  /** A key that has just been started is not orphaned. */
  lemma FreshLease(m: Meta, now: Time)
    requires FIRST <= now <= LAST
    ensures !IsOrphaned(StartMeta(m, now), now)
  {
    hide FormatTime, ParseTime;
    ParseInvertsFormat(now + 3 * REFRESH_INTERVAL);
  }

  // The steps

  function Become(s: System, a: nat, next: Actor): System {
    s.(actors := s.actors[a := next])
  }

  function QueueSteps(s: System, a: nat, act: Actor): System
    requires act.QueueCreate? || act.QueueRead? || act.QueuePatch?
  {
    var n := Queued(act.key);
    match act
    case QueueCreate(key, request) =>
      var s := s.(asked := s.asked[key := Count(s.asked, key) + 1]);
      if n !in s.bucket.objects then Become(s.(bucket := Put(s.bucket, n, request, s.now)), a, Finished)
      else if HasOptions(request) then Become(s, a, QueueRead(key, request))
      else Become(s, a, Finished)
    case QueueRead(key, request) =>
      if n !in s.bucket.objects then Become(s, a, QueueCreate(key, request))
      else
        var current := s.bucket.objects[n].meta;
        if Updates(current, request) then Become(s, a, QueuePatch(key, request, Merge(current, request)))
        else Become(s, a, Finished)
    case QueuePatch(key, request, merged) =>
      if n !in s.bucket.objects then Become(s, a, QueueCreate(key, request))
      else Become(s.(bucket := Update(s.bucket, n, merged)), a, Finished)
  }

  /** The copy fails when its source is gone or its target exists; so does the delete when its object is gone. */
  function StartSteps(s: System, a: nat, act: Actor): System
    requires act.StartPrepare? || act.StartCopy? || act.StartDelete? || act.StartReturn?
  {
    match act
    case StartPrepare(key, meta) => Become(s, a, StartCopy(key, StartMeta(meta, s.now)))
    case StartCopy(key, meta) =>
      if Queued(key) !in s.bucket.objects || InProgress(key) in s.bucket.objects then Become(s, a, Finished)
      else
        var s := s.(bucket := Put(s.bucket, InProgress(key), meta, s.now));
        Become(s, a, StartDelete(Claim(key, s.bucket.objects[InProgress(key)], true)))
    case StartDelete(claim) =>
      if Queued(claim.key) !in s.bucket.objects then Become(s, a, Finished)
      else Become(s.(bucket := Delete(s.bucket, Queued(claim.key))), a, StartReturn(claim))
    case StartReturn(claim) => Become(s, a, Working(claim, true, Count(s.asked, claim.key)))
  }

  function FinishSteps(s: System, a: nat, act: Actor): System
    requires act.CompleteDead? || act.CompleteDelete? || act.DeadletterCopy? || act.DeadletterDelete?
  {
    var key := act.claim.key;
    match act
    case CompleteDead(claim, begun) =>
      Become(s.(bucket := Delete(s.bucket, DeadLetter(key))), a, CompleteDelete(claim, begun))
    case CompleteDelete(claim, begun) =>
      Become(s.(bucket := Delete(s.bucket, InProgress(key))), a, Finished)
    case DeadletterCopy(claim, begun) =>
      if InProgress(key) !in s.bucket.objects then Become(s, a, Finished)
      else Become(s.(bucket := Put(s.bucket, DeadLetter(key), DeadMeta(claim.attrs.meta, s.now), s.now)),
                  a, DeadletterDelete(claim, begun))
    case DeadletterDelete(claim, begun) =>
      Become(s.(bucket := Delete(s.bucket, InProgress(key))), a, Finished)
  }

  /** The target of a requeue's copy exists: merge into it if there is anything to merge. */
  function AfterExists(claim: Claim, meta: Meta, opts: Options): Actor {
    if HasOptions(meta) then RequeueRead(claim, meta, opts) else RequeueDelete(claim)
  }

  function RequeueSteps(s: System, a: nat, act: Actor): System
    requires act.RequeuePrepare? || act.RequeueCopy? || act.RequeueRead? || act.RequeuePatch? || act.RequeueDelete?
  {
    var key := act.claim.key;
    var n := Queued(key);
    match act
    case RequeuePrepare(claim, meta, opts) => Become(s, a, RequeueCopy(claim, RequeueMeta(meta, opts, s.now), opts))
    case RequeueCopy(claim, meta, opts) =>
      if InProgress(key) !in s.bucket.objects then Become(s, a, Finished)
      else if n !in s.bucket.objects then Become(s.(bucket := Put(s.bucket, n, meta, s.now)), a, RequeueDelete(claim))
      else Become(s, a, AfterExists(claim, meta, opts))
    case RequeueRead(claim, meta, opts) =>
      if n !in s.bucket.objects then Become(s, a, RequeuePrepare(claim, meta, opts))
      else
        var current := s.bucket.objects[n].meta;
        if Updates(current, meta) then Become(s, a, RequeuePatch(claim, meta, opts, Merge(current, meta)))
        else Become(s, a, RequeueDelete(claim))
    case RequeuePatch(claim, meta, opts, merged) =>
      if n !in s.bucket.objects then Become(s, a, RequeuePrepare(claim, meta, opts))
      else Become(s.(bucket := Update(s.bucket, n, merged)), a, RequeueDelete(claim))
    case RequeueDelete(claim) => Become(s.(bucket := Delete(s.bucket, InProgress(key))), a, Finished)
  }

  /** The object a collector listed is still the one in the bucket. */
  predicate StillListed(s: System, key: string, attrs: Obj) {
    InProgress(key) in s.bucket.objects && s.bucket.objects[InProgress(key)] == attrs
  }

  predicate SameInstance(s: System, c: Claim) {
    InProgress(c.key) in s.bucket.objects && s.bucket.objects[InProgress(c.key)].instance == c.attrs.instance
  }

  /** The owner's lease, as the owner itself last wrote it, has not expired. */
  predicate Unexpired(s: System, c: Claim) {
    !IsOrphaned(c.attrs.meta, s.now)
  }

  /** Which steps the hypotheses rule out. */
  predicate Timely(h: Hypotheses, s: System, act: Actor) {
    && (h.h1 && (act.StartDelete? || act.CompleteDelete? || act.DeadletterDelete?
                 || (act.RequeueDelete? && act.claim.owner))
        ==> Unexpired(s, act.claim))
    && (h.h2 && act.RequeueDelete? && !act.claim.owner ==> SameInstance(s, act.claim))
    && (h.h2 && act.Observed? ==> StillListed(s, act.key, act.attrs))
  }

  /** An actor's next operation. A worker inside its callback and a finished call have none. */
  function Act(h: Hypotheses, s: System, a: nat): Option<System>
    requires a in s.actors
  {
    var act := s.actors[a];
    if !Timely(h, s, act) then None
    else if act.QueueCreate? || act.QueueRead? || act.QueuePatch? then Some(QueueSteps(s, a, act))
    else if act.StartPrepare? || act.StartCopy? || act.StartDelete? || act.StartReturn? then Some(StartSteps(s, a, act))
    else if act.CompleteDead? || act.CompleteDelete? || act.DeadletterCopy? || act.DeadletterDelete? then
      Some(FinishSteps(s, a, act))
    else if act.Claims() && !act.Working? then Some(RequeueSteps(s, a, act))
    else if act.Observed? then
      if IsOrphaned(act.attrs.meta, s.now) then
        Some(Become(s, a, RequeuePrepare(Claim(act.key, act.attrs, false), act.attrs.meta, NO_OPTIONS)))
      else Some(Become(s, a, Finished))
    else None
  }

  /** A requeue whose source is gone and whose target exists goes on as if the source were there. */
  function Exists(s: System, a: nat): Option<System>
    requires a in s.actors
  {
    var act := s.actors[a];
    if act.RequeueCopy? && InProgress(act.claim.key) !in s.bucket.objects && Queued(act.claim.key) in s.bucket.objects
    then Some(Become(s, a, AfterExists(act.claim, act.meta, act.opts)))
    else None
  }

  /** A heartbeat whose precondition fails cancels the worker's context and is the last one. */
  function Beat(h: Hypotheses, s: System, a: nat): Option<System>
    requires a in s.actors
  {
    var act := s.actors[a];
    if !act.Working? || !act.live || (h.h1 && !Unexpired(s, act.claim)) then None
    else match AfterHeartbeat(s.bucket, act.claim.key, act.claim.attrs, s.now)
      case None => Some(Become(s, a, Working(act.claim, false, act.begun)))
      case Some(r) => Some(Become(s.(bucket := r.0), a, Working(act.claim.(attrs := r.1), act.live, act.begun)))
  }

  function Finish(s: System, a: nat, verdict: Verdict): Option<System>
    requires a in s.actors
  {
    var act := s.actors[a];
    if !act.Working? then None
    else
      var key := act.claim.key;
      var answered := s.(answered := s.answered[key := Max(Count(s.answered, key), act.begun)]);
      match verdict
      case Complete => Some(Become(answered, a, CompleteDead(act.claim, act.begun)))
      case Deadletter => Some(Become(answered, a, DeadletterCopy(act.claim, act.begun)))
      case Requeue(opts) =>
        if ValidOptions(opts) then Some(Become(s, a, RequeuePrepare(act.claim, act.claim.attrs.meta, opts))) else None
  }

  function Next(h: Hypotheses, s: System, l: Label): Option<System> {
    match l
    case Tick(to) => if s.now <= to <= LAST then Some(s.(now := to)) else None
    case CallQueue(a, key, opts) =>
      if a !in s.actors && ValidOptions(opts) then Some(Become(s, a, QueueCreate(key, QueueMeta(opts)))) else None
    case ListQueued(a, key) =>
      if a !in s.actors && Queued(key) in s.bucket.objects then
        Some(Become(s, a, StartPrepare(key, s.bucket.objects[Queued(key)].meta)))
      else None
    case ListInProgress(a, key) =>
      if a !in s.actors && InProgress(key) in s.bucket.objects then
        Some(Become(s, a, Observed(key, s.bucket.objects[InProgress(key)])))
      else None
    case Step(a) => if a in s.actors then Act(h, s, a) else None
    case CopyExists(a) => if a in s.actors then Exists(s, a) else None
    case Heartbeat(a) => if a in s.actors then Beat(h, s, a) else None
    case Return(a, verdict) => if a in s.actors then Finish(s, a, verdict) else None
    case Crash(a) => if a in s.actors then Some(Become(s, a, Finished)) else None
  }

  /** The state after a run, if every label of the run was possible. */
  function Run(h: Hypotheses, s: System, labels: seq<Label>): Option<System>
    decreases |labels|
  {
    if labels == [] then Some(s)
    else
      var t := Next(h, s, labels[0]);
      if t.None? then None else Run(h, t.value, labels[1..])
  }

  /** Some run leads from `s` to `t`. */
  ghost predicate Reaches(h: Hypotheses, s: System, t: System) {
    exists labels :: Run(h, s, labels) == Some(t)
  }

  /** Every prefix of a run is a run, so what holds of all reachable states holds after every single
      operation. */
  ghost predicate Reachable(h: Hypotheses, t: System) {
    Reaches(h, Init(), t)
  }

  lemma {:induction false} RunOneMore(h: Hypotheses, s: System, labels: seq<Label>, l: Label)
    requires Run(h, s, labels).Some?
    ensures Run(h, s, labels + [l]) == Next(h, Run(h, s, labels).value, l)
    decreases |labels|
  {
    hide Next;
    if labels == [] {
      assert labels + [l] == [l] && [l][1..] == [];
    } else {
      assert (labels + [l])[1..] == labels[1..] + [l];
      RunOneMore(h, Next(h, s, labels[0]).value, labels[1..], l);
    }
  }

  lemma {:induction false} RunAppend(h: Hypotheses, s: System, a: seq<Label>, b: seq<Label>)
    requires Run(h, s, a).Some?
    ensures Run(h, s, a + b) == Run(h, Run(h, s, a).value, b)
    decreases |a|
  {
    hide Next;
    if a == [] {
      assert a + b == b;
    } else {
      assert (a + b)[1..] == a[1..] + b;
      RunAppend(h, Next(h, s, a[0]).value, a[1..], b);
    }
  }

  lemma ReachesTogether(h: Hypotheses, s: System, t: System, u: System)
    requires Reaches(h, s, t) && Reaches(h, t, u)
    ensures Reaches(h, s, u)
  {
    hide Run;
    var a :| Run(h, s, a) == Some(t);
    var b :| Run(h, t, b) == Some(u);
    RunAppend(h, s, a, b);
  }

  lemma ReachesSelf(h: Hypotheses, s: System)
    ensures Reaches(h, s, s)
  {
    assert Run(h, s, []) == Some(s);
  }

  lemma ReachesNext(h: Hypotheses, s: System, t: System, l: Label)
    requires Reaches(h, s, t) && Next(h, t, l).Some?
    ensures Reaches(h, s, Next(h, t, l).value)
  {
    hide Next;
    var labels :| Run(h, s, labels) == Some(t);
    RunOneMore(h, s, labels, l);
  }
}
