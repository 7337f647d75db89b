/** The in-memory work queue: the reference behaviour of the interface.

    `State` and the functions on it say what one call does to the two maps that the queue's lock
    guards; the class below does it in place. */
module Inmem {
  import opened Wrappers
  import opened Timestamp
  import opened Workqueue
  import opened TopK

  datatype QueueItem = QueueItem(priority: int, notBefore: Time, attempts: int, queued: Time)

  datatype State = State(queue: map<string, QueueItem>, wip: set<string>)

  /** A key handed out by `Enumerate`: its options and attempts are copied at that moment. */
  datatype QueuedKey = QueuedKey(key: string, priority: int, notBefore: Time, attempts: int)

  /** A key handed out by `Start`. */
  datatype OwnedKey = OwnedKey(key: string, priority: int, attempts: int)

  /** Queueing a queued key raises its priority or, failing that, its not-before: one call never raises both. */
  function AfterQueue(s: State, key: string, opts: Options, now: Time): State {
    if key !in s.queue then
      s.(queue := s.queue[key := QueueItem(opts.priority, opts.notBefore, 0, now)])
    else
      var item := s.queue[key];
      if item.priority < opts.priority then s.(queue := s.queue[key := item.(priority := opts.priority)])
      else if item.notBefore < opts.notBefore then s.(queue := s.queue[key := item.(notBefore := opts.notBefore)])
      else s
  }

  /** Starting fails when the key is in progress already or has left the backlog. */
  function AfterStart(s: State, k: QueuedKey): Option<(State, OwnedKey)> {
    if k.key in s.wip || k.key !in s.queue then None
    else Some((State(s.queue - {k.key}, s.wip + {k.key}), OwnedKey(k.key, k.priority, k.attempts + 1)))
  }

  /** The options a requeue stores: the priority defaults to the key's own, and the not-before to its backoff. */
  function RequeueItem(k: OwnedKey, opts: Options, now: Time): QueueItem {
    var priority := if opts.priority == 0 then k.priority else opts.priority;
    var notBefore :=
      if opts.delay > 0 then now + opts.delay
      else if priority > 0 then now + Backoff(k.attempts)
      else opts.notBefore;
    QueueItem(priority, notBefore, k.attempts, now)
  }

  /** Requeueing onto a queued key raises its priority and its not-before independently. */
  function Raise(item: QueueItem, more: QueueItem): QueueItem {
    var item := if item.priority < more.priority then item.(priority := more.priority) else item;
    if more.notBefore > item.notBefore then item.(notBefore := more.notBefore) else item
  }

  function AfterRequeue(s: State, k: OwnedKey, opts: Options, now: Time): State {
    var item := RequeueItem(k, opts, now);
    var queue := s.queue[k.key := if k.key in s.queue then Raise(s.queue[k.key], item) else item];
    State(queue, s.wip - {k.key})
  }

  /** Completing and dead-lettering both forget the key. */
  function AfterFinish(s: State, k: OwnedKey): State {
    s.(wip := s.wip - {k.key})
  }

  /** The order of the queue: higher priority first, then the older key. Ties stay unbroken. */
  datatype Candidate = Candidate(key: string, item: QueueItem)

  predicate Before(a: Candidate, b: Candidate) {
    if a.item.priority == b.item.priority then a.item.queued < b.item.queued
    else a.item.priority > b.item.priority
  }

  /** The queued keys whose not-before has come. */
  ghost function Eligible(s: State, now: Time): set<Candidate> {
    set k | k in s.queue && !(now < s.queue[k].notBefore) :: Candidate(k, s.queue[k])
  }

  function Handle(c: Candidate): QueuedKey {
    QueuedKey(c.key, c.item.priority, c.item.notBefore, c.item.attempts)
  }

  lemma BeforeIsWeakOrder()
    ensures StrictWeakOrder(Before)
  {
  }

  /** `Before` breaks no ties, so `Enumerate` may answer in more than one way. */
  ghost predicate MayEnumerate(s: State, limit: nat, now: Time, next: seq<QueuedKey>) {
    exists top: seq<Candidate> ::
      IsTop(Before, Eligible(s, now), limit, top) && next == Mapped(Handle, top)
  }

  class WorkQueue {
    const limit: nat
    var wip: set<string>
    var queue: map<string, QueueItem>

    constructor (limit: nat)
      ensures this.limit == limit && Contents() == State(map[], {})
    {
      this.limit, wip, queue := limit, {}, map[];
    }

    function Contents(): State
      reads this
    {
      State(queue, wip)
    }

    method Queue(key: string, opts: Options, now: Time)
      modifies this
      ensures Contents() == AfterQueue(old(Contents()), key, opts, now)
    {
      if key !in queue {
        queue := queue[key := QueueItem(opts.priority, opts.notBefore, 0, now)];
      } else {
        var item := queue[key];
        if item.priority < opts.priority {
          item := item.(priority := opts.priority);
          queue := queue[key := item];
        } else if item.notBefore < opts.notBefore {
          item := item.(notBefore := opts.notBefore);
          queue := queue[key := item];
        }
      }
    }

    /** The keys in progress and an admissible choice of the next `limit` keys, whatever the order
        in which the map is walked. */
    method Enumerate(now: Time) returns (inProgress: set<string>, next: seq<QueuedKey>)
      ensures inProgress == wip
      ensures MayEnumerate(Contents(), limit, now, next)
    {
      BeforeIsWeakOrder();
      inProgress := wip;
      var qd: seq<Candidate> := [];
      var rest := queue.Keys;
      ghost var seen: set<Candidate> := {};
      while rest != {}
        invariant rest <= queue.Keys
        invariant seen == set k | k in queue.Keys - rest && !(now < queue[k].notBefore) :: Candidate(k, queue[k])
        invariant IsTop(Before, seen, limit, qd)
        decreases rest
      {
        var k :| k in rest;
        rest := rest - {k};
        if !(now < queue[k].notBefore) {
          var c := Candidate(k, queue[k]);
          qd := Admit(seen, qd, c, limit, Before);
          seen := seen + {c};
        }
      }
      assert seen == Eligible(Contents(), now);
      next := Mapped(Handle, qd);
    }

    method Start(k: QueuedKey) returns (owned: Option<OwnedKey>)
      modifies this
      ensures match AfterStart(old(Contents()), k)
              case None => owned == None && Contents() == old(Contents())
              case Some(r) => Contents() == r.0 && owned == Some(r.1)
    {
      if k.key in wip {
        return None;
      }
      if k.key !in queue {
        return None;
      }
      queue := queue - {k.key};
      wip := wip + {k.key};
      owned := Some(OwnedKey(k.key, k.priority, k.attempts + 1));
    }

    method RequeueWithOptions(k: OwnedKey, options: Options, now: Time)
      modifies this
      ensures Contents() == AfterRequeue(old(Contents()), k, options, now)
    {
      var opts := options;
      if opts.priority == 0 {
        opts := opts.(priority := k.priority);
      }
      if opts.delay > 0 {
        opts := opts.(notBefore := now + opts.delay);
      } else if opts.priority > 0 {
        opts := opts.(notBefore := now + Backoff(k.attempts));
      }
      if k.key !in queue {
        queue := queue[k.key := QueueItem(opts.priority, opts.notBefore, k.attempts, now)];
      } else {
        var item := queue[k.key];
        if item.priority < opts.priority {
          item := item.(priority := opts.priority);
        }
        if opts.notBefore > item.notBefore {
          item := item.(notBefore := opts.notBefore);
        }
        queue := queue[k.key := item];
      }
      wip := wip - {k.key};
    }

    method Complete(k: OwnedKey)
      modifies this
      ensures Contents() == AfterFinish(old(Contents()), k)
    {
      wip := wip - {k.key};
    }

    method Deadletter(k: OwnedKey)
      modifies this
      ensures Contents() == AfterFinish(old(Contents()), k)
    {
      wip := wip - {k.key};
    }
  }
}
