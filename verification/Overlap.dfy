/** The overlapping rounds of the module Rounds, taken by the in-memory queue itself: its calls, made by
    rounds, by the goroutines they launched and by anyone who queues a key, are the abstract steps on the
    ranking of its keys. */
module Overlap {
  import opened Wrappers
  import opened Timestamp
  import opened Workqueue
  import opened TopK
  import opened Dispatcher
  import Inmem
  import Rounds

  /** `pending` holds the keys of the launched goroutines that have not called `Start` yet. */
  datatype State = State(now: Time, queue: Inmem.State, pending: multiset<string>)

  /** `next` is what the enumeration of a round answered. `Finish` is `Complete` or `Deadletter`. */
  datatype Label =
    | Tick(to: Time)
    | Queue(key: string, opts: Options)
    | Dispatch(next: seq<Inmem.QueuedKey>)
    | Start(k: Inmem.QueuedKey)
    | Finish(owned: Inmem.OwnedKey)
    | Requeue(owned: Inmem.OwnedKey, opts: Options)

  function Init(now: Time): State {
    State(now, Inmem.State(map[], {}), multiset{})
  }

  function HandleKey(k: Inmem.QueuedKey): string {
    k.key
  }

  ghost function Next(s: State, limit: nat, concurrency: nat, l: Label): Option<State> {
    match l
    case Tick(to) => if s.now <= to then Some(s.(now := to)) else None
    case Queue(key, opts) => Some(s.(queue := Inmem.AfterQueue(s.queue, key, opts, s.now)))
    case Dispatch(next) =>
      if !Inmem.MayEnumerate(s.queue, limit, s.now, next) then None
      else Some(s.(pending := s.pending + multiset(Launch(Mapped(HandleKey, next), s.queue.wip, concurrency))))
    case Start(k) =>
      if k.key !in s.pending then None
      else
        var t := s.(pending := s.pending[k.key := s.pending[k.key] - 1]);
        (match Inmem.AfterStart(s.queue, k)
        case None => Some(t)
        case Some(r) => Some(t.(queue := r.0)))
    case Finish(owned) =>
      if owned.key in s.queue.wip then Some(s.(queue := Inmem.AfterFinish(s.queue, owned))) else None
    case Requeue(owned, opts) =>
      if owned.key in s.queue.wip then Some(s.(queue := Inmem.AfterRequeue(s.queue, owned, opts, s.now))) else None
  }

  /** No two keys are queued at the same instant, so the queue has no ties. */
  predicate Apart(m: Inmem.State) {
    forall j, k | j in m.queue && k in m.queue && j != k :: m.queue[j].queued != m.queue[k].queued
  }

  // The ranking of the keys that a round may launch

  function KeyOf(c: Inmem.Candidate): string {
    c.key
  }

  function Entry(m: Inmem.State, key: string): Inmem.Candidate
    requires key in m.queue
  {
    Inmem.Candidate(key, m.queue[key])
  }

  /** The ready keys that are not in progress. */
  ghost function Idlers(m: Inmem.State, now: Time): set<Inmem.Candidate> {
    set c | c in Inmem.Eligible(m, now) && c.key !in m.wip
  }

  /** The keys not in progress that wait for their not-before. */
  function Waiting(m: Inmem.State, now: Time): set<string> {
    set k | k in m.queue && now < m.queue[k].notBefore && k !in m.wip
  }

  ghost predicate IsRanking(m: Inmem.State, now: Time, full: seq<Inmem.Candidate>) {
    IsTop(Inmem.Before, Idlers(m, now), |Idlers(m, now)|, full)
  }

  ghost function Ranking(m: Inmem.State, now: Time): (full: seq<Inmem.Candidate>)
    ensures IsRanking(m, now, full)
  {
    HasRanking(m, now);
    var full :| IsRanking(m, now, full);
    full
  }

  lemma HasRanking(m: Inmem.State, now: Time)
    ensures exists full :: IsRanking(m, now, full)
  {
    hide Idlers;
    Inmem.BeforeIsWeakOrder();
    var full := RankingExists(Inmem.Before, Idlers(m, now));
    assert IsRanking(m, now, full);
  }

  /** What the rounds see of the queue. */
  ghost function View(s: State): Rounds.State {
    Rounds.State(Mapped(KeyOf, Ranking(s.queue, s.now)), Waiting(s.queue, s.now), s.queue.wip, s.pending)
  }

  lemma IdlerMember(m: Inmem.State, now: Time, c: Inmem.Candidate)
    ensures c in Idlers(m, now) <==>
            c.key in m.queue && c == Entry(m, c.key) && !(now < m.queue[c.key].notBefore) && c.key !in m.wip
  {
  }

  lemma NoTies(m: Inmem.State, now: Time)
    requires Apart(m)
    ensures TotalOn(Inmem.Before, Idlers(m, now)) && TotalOn(Inmem.Before, Inmem.Eligible(m, now))
  {
  }

  lemma ViewIs(s: State, full: seq<Inmem.Candidate>)
    requires Apart(s.queue) && IsRanking(s.queue, s.now, full)
    ensures Ranking(s.queue, s.now) == full && View(s).ready == Mapped(KeyOf, full)
  {
    hide Idlers, Ranking, Inmem.Before;
    Inmem.BeforeIsWeakOrder();
    NoTies(s.queue, s.now);
    RankingIsUnique(Inmem.Before, Idlers(s.queue, s.now), full, Ranking(s.queue, s.now));
  }

  lemma RankingHasAll(m: Inmem.State, now: Time, full: seq<Inmem.Candidate>)
    requires IsRanking(m, now, full)
    ensures forall i | 0 <= i < |full| ::
              full[i] in Idlers(m, now) && full[i].key in m.queue && full[i] == Entry(m, full[i].key)
    ensures forall c | c in Idlers(m, now) :: c in full && c.key in Mapped(KeyOf, full)
    ensures Distinct(Mapped(KeyOf, full))
  {
    DistinctElements(full);
    SubsetSameSize(Elements(full), Idlers(m, now));
    forall i | 0 <= i < |full|
      ensures full[i] in Idlers(m, now) && full[i].key in m.queue && full[i] == Entry(m, full[i].key)
    {
      assert full[i] in Elements(full);
      IdlerMember(m, now, full[i]);
    }
    forall c | c in Idlers(m, now)
      ensures c in full && c.key in Mapped(KeyOf, full)
    {
      assert c in Elements(full);
      var i :| 0 <= i < |full| && full[i] == c;
      assert Mapped(KeyOf, full)[i] == c.key;
    }
  }

  lemma ViewHasKeys(s: State)
    ensures forall k :: k in View(s).ready <==>
              k in s.queue.queue && !(s.now < s.queue.queue[k].notBefore) && k !in s.queue.wip
    ensures Rounds.WellFormed(View(s))
  {
    hide Ranking, Idlers;
    var full := Ranking(s.queue, s.now);
    RankingHasAll(s.queue, s.now, full);
    forall k
      ensures k in View(s).ready <==>
              k in s.queue.queue && !(s.now < s.queue.queue[k].notBefore) && k !in s.queue.wip
    {
      if k in View(s).ready {
        var i :| 0 <= i < |full| && Mapped(KeyOf, full)[i] == k;
        IdlerMember(s.queue, s.now, full[i]);
      }
      if k in s.queue.queue {
        IdlerMember(s.queue, s.now, Entry(s.queue, k));
      }
    }
  }

  // How the ranking changes

  lemma IndexIsPlace(ready: seq<string>, i: nat)
    requires Distinct(ready) && i < |ready|
    ensures Rounds.IndexOf(ready, ready[i]) == i
  {
  }

  lemma KeysInsert(full: seq<Inmem.Candidate>, at: nat, c: Inmem.Candidate)
    requires at <= |full| && Distinct(Mapped(KeyOf, full[..at] + [c] + full[at..]))
    ensures var keys := Mapped(KeyOf, full[..at] + [c] + full[at..]);
            && keys == Rounds.InsertAt(Mapped(KeyOf, full), at, c.key)
            && c.key in keys && Rounds.IndexOf(keys, c.key) == at
  {
    var keys := Mapped(KeyOf, full[..at] + [c] + full[at..]);
    assert keys[at] == c.key;
    IndexIsPlace(keys, at);
    assert keys == Rounds.InsertAt(Mapped(KeyOf, full), at, c.key);
  }

  lemma KeysWithout(full: seq<Inmem.Candidate>, i: nat)
    requires i < |full| && Distinct(Mapped(KeyOf, full))
    ensures full[i].key in Mapped(KeyOf, full) && Rounds.IndexOf(Mapped(KeyOf, full), full[i].key) == i
    ensures Mapped(KeyOf, full[..i] + full[i + 1..]) == Rounds.Without(Mapped(KeyOf, full), full[i].key)
  {
    var keys := Mapped(KeyOf, full);
    assert keys[i] == full[i].key;
    IndexIsPlace(keys, i);
    assert Mapped(KeyOf, full[..i] + full[i + 1..]) == Rounds.Without(keys, full[i].key);
  }

  lemma StaysRanked(s: State, t: State)
    requires Apart(s.queue) && Apart(t.queue) && Idlers(t.queue, t.now) == Idlers(s.queue, s.now)
    ensures View(t).ready == View(s).ready
  {
    hide Idlers, Ranking;
    ViewIs(t, Ranking(s.queue, s.now));
  }

  lemma EntersRanking(s: State, t: State, c: Inmem.Candidate)
    requires Apart(s.queue) && Apart(t.queue) && c !in Idlers(s.queue, s.now)
    requires Idlers(t.queue, t.now) == Idlers(s.queue, s.now) + {c}
    ensures c.key in View(t).ready && Rounds.IndexOf(View(t).ready, c.key) <= |View(s).ready|
    ensures View(t).ready == Rounds.InsertAt(View(s).ready, Rounds.IndexOf(View(t).ready, c.key), c.key)
  {
    hide Idlers, Ranking, Inmem.Before, IsTop, Distinct, Rounds.InsertAt, Rounds.IndexOf, Apart;
    var full := Ranking(s.queue, s.now);
    Inmem.BeforeIsWeakOrder();
    var at := NewcomerTakesPlace(Inmem.Before, Idlers(s.queue, s.now), full, c);
    var more := full[..at] + [c] + full[at..];
    ViewIs(t, more);
    RankingHasAll(t.queue, t.now, more);
    KeysInsert(full, at, c);
  }

  lemma RankedAt(m: Inmem.State, now: Time, full: seq<Inmem.Candidate>, c: Inmem.Candidate) returns (i: nat)
    requires IsRanking(m, now, full) && c in Idlers(m, now)
    ensures i < |full| && full[i] == c && Distinct(Mapped(KeyOf, full))
  {
    hide Idlers, IsRanking, Distinct;
    RankingHasAll(m, now, full);
    i :| 0 <= i < |full| && full[i] == c;
  }

  lemma LeavesRanking(s: State, t: State, c: Inmem.Candidate)
    requires Apart(s.queue) && Apart(t.queue) && c in Idlers(s.queue, s.now)
    requires Idlers(t.queue, t.now) == Idlers(s.queue, s.now) - {c}
    ensures c.key in View(s).ready && View(t).ready == Rounds.Without(View(s).ready, c.key)
  {
    hide Idlers, Ranking, Inmem.Before, IsTop, Distinct, Rounds.Without, Rounds.IndexOf, Apart;
    var full := Ranking(s.queue, s.now);
    var i := RankedAt(s.queue, s.now, full, c);
    LeaverLeavesRanking(Inmem.Before, Idlers(s.queue, s.now), full, i);
    KeysWithout(full, i);
    ViewIs(t, full[..i] + full[i + 1..]);
  }

  /** A key that comes before everyone it came before does not fall back. */
  lemma RaisesInRanking(s: State, t: State, c: Inmem.Candidate, d: Inmem.Candidate)
    requires Apart(s.queue) && Apart(t.queue) && c in Idlers(s.queue, s.now) && d.key == c.key
    requires Idlers(t.queue, t.now) == Idlers(s.queue, s.now) - {c} + {d}
    requires forall x :: Inmem.Before(c, x) ==> Inmem.Before(d, x)
    ensures c.key in View(s).ready && c.key in View(t).ready
    ensures Rounds.IndexOf(View(t).ready, c.key) <= Rounds.IndexOf(View(s).ready, c.key)
    ensures View(t).ready
            == Rounds.InsertAt(Rounds.Without(View(s).ready, c.key), Rounds.IndexOf(View(t).ready, c.key), c.key)
  {
    hide Idlers, Ranking, Inmem.Before, IsTop, Distinct, Rounds.Without, Rounds.InsertAt, Rounds.IndexOf, Apart;
    var full := Ranking(s.queue, s.now);
    var i := RankedAt(s.queue, s.now, full, c);
    KeysWithout(full, i);
    Inmem.BeforeIsWeakOrder();
    OneEntryPerKey(s, c, d);
    var rest, at := MemberMoves(Inmem.Before, Idlers(s.queue, s.now), full, i, d);
    var more := rest[..at] + [d] + rest[at..];
    ViewIs(t, more);
    RankingHasAll(t.queue, t.now, more);
    KeysInsert(rest, at, d);
    NotFurtherBack(s.queue, s.now, full, i, rest, at, d);
  }

  lemma NotFurtherBack(m: Inmem.State, now: Time, full: seq<Inmem.Candidate>, i: nat,
                       rest: seq<Inmem.Candidate>, at: nat, d: Inmem.Candidate)
    requires Apart(m) && IsRanking(m, now, full) && i < |full|
    requires rest == full[..i] + full[i + 1..] && at <= |rest|
    requires exists s, k :: IsTop(Inmem.Before, s, k, rest[..at] + [d] + rest[at..])
    requires forall x :: Inmem.Before(full[i], x) ==> Inmem.Before(d, x)
    ensures at <= i
  {
    hide Inmem.Before, Idlers;
    var more := rest[..at] + [d] + rest[at..];
    if at > i {
      assert more[i] == full[i + 1] && more[at] == d;
      NoTies(m, now);
      RankingHasAll(m, now, full);
      assert false;
    }
  }

  lemma OneEntryPerKey(s: State, c: Inmem.Candidate, d: Inmem.Candidate)
    requires c in Idlers(s.queue, s.now) && d.key == c.key
    ensures d !in Idlers(s.queue, s.now) - {c}
  {
    IdlerMember(s.queue, s.now, c);
    IdlerMember(s.queue, s.now, d);
  }

  // What a round launches

  /** The idle ones of a ranking are a ranking of the idle ones. */
  lemma {:induction false} IdleRanking(all: set<Inmem.Candidate>, full: seq<Inmem.Candidate>, wip: set<string>)
    returns (idle: seq<Inmem.Candidate>)
    requires IsTop(Inmem.Before, all, |all|, full)
    ensures var some := set c | c in all && c.key !in wip;
            IsTop(Inmem.Before, some, |some|, idle)
    ensures Mapped(KeyOf, idle) == Idle(Mapped(KeyOf, full), wip)
    decreases |full|
  {
    hide Inmem.Before;
    var some := set c | c in all && c.key !in wip;
    if full == [] {
      idle := [];
      assert all == {} && some == {};
    } else {
      var n := |full| - 1;
      var last, front := full[n], full[..n];
      assert front == full[..n] + full[n + 1..];
      LeaverLeavesRanking(Inmem.Before, all, full, n);
      assert last in Elements(full);
      assert |all - {last}| == |all| - 1;
      idle := IdleRanking(all - {last}, front, wip);
      assert Mapped(KeyOf, full)[..n] == Mapped(KeyOf, front);
      var rest := set c | c in all - {last} && c.key !in wip;
      if last.key in wip {
        assert some == rest;
      } else {
        assert some == rest + {last};
        LastIsLast(all, full, rest);
        NewcomerRanksLast(Inmem.Before, rest, idle, last);
        idle := idle + [last];
      }
    }
  }

  lemma LastIsLast(all: set<Inmem.Candidate>, full: seq<Inmem.Candidate>, rest: set<Inmem.Candidate>)
    requires IsTop(Inmem.Before, all, |all|, full) && full != []
    requires rest <= all - {full[|full| - 1]}
    ensures forall y | y in rest :: !Inmem.Before(full[|full| - 1], y)
  {
    hide Inmem.Before;
    DistinctElements(full);
    SubsetSameSize(Elements(full), all);
    forall y | y in rest
      ensures !Inmem.Before(full[|full| - 1], y)
    {
      assert y in Elements(full);
      var i :| 0 <= i < |full| && full[i] == y;
    }
  }

  /** Whatever an enumeration answers, the round launches what the abstract round does. */
  lemma RoundLaunches(s: State, limit: nat, concurrency: nat, next: seq<Inmem.QueuedKey>)
    requires Apart(s.queue) && limit >= concurrency && Inmem.MayEnumerate(s.queue, limit, s.now, next)
    ensures var ready := View(s).ready;
            Launch(Mapped(HandleKey, next), s.queue.wip, concurrency)
            == Launch(ready[..Min(limit, |ready|)], s.queue.wip, concurrency)
  {
    hide Inmem.Eligible, Inmem.Before, Ranking, Launch;
    var all, wip := Inmem.Eligible(s.queue, s.now), s.queue.wip;
    Inmem.BeforeIsWeakOrder();
    NoTies(s.queue, s.now);
    var top: seq<Inmem.Candidate> :|
      IsTop(Inmem.Before, all, limit, top) && next == Mapped(Inmem.Handle, top);
    var full := RankingExists(Inmem.Before, all);
    TopIsPrefixOfRanking(Inmem.Before, all, limit, top, full);
    var keys := Mapped(KeyOf, full);
    assert Mapped(HandleKey, next) == keys[..Min(limit, |keys|)];
    ListedOnce(s.queue, s.now, full);
    TruncateThenSkip(keys, limit, wip, concurrency);
    var idle := IdleRanking(all, full, wip);
    ViewIs(s, idle);
    ViewHasKeys(s);
    TruncateThenSkip(View(s).ready, limit, wip, concurrency);
    IdleOfOthers(View(s).ready, wip);
    SameLaunch(keys, View(s).ready, wip, concurrency);
  }

  lemma SameLaunch(a: seq<string>, b: seq<string>, active: set<string>, concurrency: int)
    requires Idle(a, active) == Idle(b, active)
    ensures Launch(a, active, concurrency) == Launch(b, active, concurrency)
  {
  }

  lemma ListedOnce(m: Inmem.State, now: Time, full: seq<Inmem.Candidate>)
    requires Distinct(full) && Elements(full) <= Inmem.Eligible(m, now)
    ensures Distinct(Mapped(KeyOf, full))
  {
    forall i, j | 0 <= i < j < |full|
      ensures full[i].key != full[j].key
    {
      assert full[i] in Elements(full) && full[j] in Elements(full);
    }
  }

  // The calls are the abstract steps

  /** What a call about one key that is not launching or starting it does to the rounds' view. */
  function Moves(a: Rounds.State, b: Rounds.State, key: string): seq<Rounds.Label> {
    if key in a.wip && key !in b.wip then
      if key in b.ready then [Rounds.Label.Requeue(key, Rounds.IndexOf(b.ready, key))]
      else if key in b.delayed then [Rounds.RequeueDelayed(key)]
      else [Rounds.Label.Finish(key)]
    else if key in a.ready then
      if key in b.ready then [Rounds.Raise(key, Rounds.IndexOf(b.ready, key))] else [Rounds.Delay(key)]
    else if key in b.ready then [Rounds.Arrive(key, Rounds.IndexOf(b.ready, key))]
    else if key in b.delayed && key !in a.delayed then [Rounds.ArriveDelayed(key)]
    else []
  }

  /** The two states differ in what they know of one key only. */
  ghost predicate OnlyKey(s: State, t: State, key: string) {
    && t.now == s.now && t.pending == s.pending
    && forall k | k != key ::
         && (k in t.queue.queue <==> k in s.queue.queue)
         && (k in s.queue.queue ==> t.queue.queue[k] == s.queue.queue[k])
         && (k in t.queue.wip <==> k in s.queue.wip)
  }

  lemma IdlersAfter(s: State, t: State, key: string)
    requires OnlyKey(s, t, key)
    ensures key in View(s).ready ==> key in s.queue.queue && Entry(s.queue, key) in Idlers(s.queue, s.now)
    ensures key in View(t).ready ==> key in t.queue.queue && Entry(t.queue, key) in Idlers(t.queue, t.now)
    ensures Idlers(t.queue, t.now)
            == Idlers(s.queue, s.now) - (if key in View(s).ready then {Entry(s.queue, key)} else {})
               + (if key in View(t).ready then {Entry(t.queue, key)} else {})
    ensures key !in View(s).ready ==> forall c | c in Idlers(s.queue, s.now) :: c.key != key
  {
    hide Idlers, View, Inmem.Eligible;
    ViewHasKeys(s);
    ViewHasKeys(t);
    forall c: Inmem.Candidate
      ensures c.key != key ==> (c in Idlers(t.queue, t.now) <==> c in Idlers(s.queue, s.now))
      ensures c.key == key ==> (c in Idlers(s.queue, s.now) <==> key in View(s).ready && c == Entry(s.queue, key))
      ensures c.key == key ==> (c in Idlers(t.queue, t.now) <==> key in View(t).ready && c == Entry(t.queue, key))
    {
      IdlerMember(s.queue, s.now, c);
      IdlerMember(t.queue, t.now, c);
    }
  }

  lemma WaitingAfter(s: State, t: State, key: string)
    requires OnlyKey(s, t, key)
    ensures Waiting(t.queue, t.now)
            == Waiting(s.queue, s.now) - {key} + (if key in Waiting(t.queue, t.now) then {key} else {})
    ensures key !in t.queue.wip ==> t.queue.wip == s.queue.wip - {key}
    ensures key in t.queue.wip ==> t.queue.wip == s.queue.wip + {key}
  {
  }

  /** A queued key stays queued, does not come back from its delay, and does not fall back in the ranking. */
  ghost predicate NoLoss(s: State, t: State, key: string) {
    && (key !in s.queue.wip ==> key !in t.queue.wip)
    && (key in s.queue.queue && key !in s.queue.wip ==>
          && key in t.queue.queue && s.queue.queue[key].notBefore <= t.queue.queue[key].notBefore
          && forall x :: Inmem.Before(Entry(s.queue, key), x) ==> Inmem.Before(Entry(t.queue, key), x))
  }

  lemma KeyMoves(s: State, t: State, limit: nat, concurrency: nat, key: string)
    requires OnlyKey(s, t, key) && NoLoss(s, t, key) && Apart(s.queue) && Apart(t.queue)
    ensures Rounds.Run(View(s), limit, concurrency, Moves(View(s), View(t), key)) == Some(View(t))
  {
    hide Idlers, Ranking, Inmem.Before, Rounds.InsertAt, Rounds.Without, Rounds.IndexOf, Waiting, Launch, Apart;
    IdlersAfter(s, t, key);
    WaitingAfter(s, t, key);
    ReadyMoves(s, t, key);
    var a, b := View(s), View(t);
    ViewHasKeys(s);
    ViewHasKeys(t);
    WaitingIs(s, key);
    WaitingIs(t, key);
    OneStep(a, b, limit, concurrency, key);
  }

  lemma WaitingIs(s: State, key: string)
    ensures key in Waiting(s.queue, s.now) <==>
            key in s.queue.queue && s.now < s.queue.queue[key].notBefore && key !in s.queue.wip
  {
  }

  lemma ReadyMoves(s: State, t: State, key: string)
    requires OnlyKey(s, t, key) && NoLoss(s, t, key) && Apart(s.queue) && Apart(t.queue)
    ensures var (a, b) := (View(s).ready, View(t).ready);
            if key in a then
              if key in b then
                Rounds.IndexOf(b, key) <= Rounds.IndexOf(a, key)
                && b == Rounds.InsertAt(Rounds.Without(a, key), Rounds.IndexOf(b, key), key)
              else b == Rounds.Without(a, key)
            else if key in b then
              Rounds.IndexOf(b, key) <= |a| && b == Rounds.InsertAt(a, Rounds.IndexOf(b, key), key)
            else b == a
  {
    hide Idlers, View, Inmem.Before, Rounds.InsertAt, Rounds.Without, Rounds.IndexOf, Apart;
    IdlersAfter(s, t, key);
    if key in View(s).ready {
      ViewHasKeys(s);
      var c := Entry(s.queue, key);
      if key in View(t).ready {
        RaisesInRanking(s, t, c, Entry(t.queue, key));
      } else {
        assert Idlers(t.queue, t.now) == Idlers(s.queue, s.now) - {c};
        LeavesRanking(s, t, c);
      }
    } else if key in View(t).ready {
      assert Idlers(t.queue, t.now) == Idlers(s.queue, s.now) + {Entry(t.queue, key)};
      EntersRanking(s, t, Entry(t.queue, key));
    } else {
      assert Idlers(t.queue, t.now) == Idlers(s.queue, s.now);
      StaysRanked(s, t);
    }
  }

  /** The abstract part: these changes of a view are the step named by `Moves`. */
  lemma OneStep(a: Rounds.State, b: Rounds.State, limit: nat, concurrency: nat, key: string)
    requires Rounds.WellFormed(a) && Rounds.WellFormed(b) && b.pending == a.pending
    requires b.delayed == a.delayed - {key} + (if key in b.delayed then {key} else {})
    requires key !in b.wip ==> b.wip == a.wip - {key}
    requires key in b.wip ==> key in a.wip && b.wip == a.wip
    requires if key in a.ready then
               if key in b.ready then
                 Rounds.IndexOf(b.ready, key) <= Rounds.IndexOf(a.ready, key)
                 && b.ready == Rounds.InsertAt(Rounds.Without(a.ready, key), Rounds.IndexOf(b.ready, key), key)
               else b.ready == Rounds.Without(a.ready, key) && key in b.delayed
             else if key in b.ready then
               Rounds.IndexOf(b.ready, key) <= |a.ready|
               && b.ready == Rounds.InsertAt(a.ready, Rounds.IndexOf(b.ready, key), key)
             else b.ready == a.ready
    requires key in a.delayed ==> key in b.delayed
    ensures Rounds.Run(a, limit, concurrency, Moves(a, b, key)) == Some(b)
  {
    hide Rounds.InsertAt, Rounds.Without, Rounds.IndexOf, Launch;
    var labels := Moves(a, b, key);
    assert labels != [] ==> labels[1..] == [];
    assert b.delayed == if key in b.delayed then a.delayed + {key} else a.delayed;
    assert key !in a.wip ==> b.wip == a.wip;
    assert key in a.delayed ==> b.delayed == a.delayed;
    if labels == [] {
      assert b == a;
    } else {
      assert Rounds.Next(a, limit, concurrency, labels[0]) == Some(b);
    }
  }

  lemma StartIsStart(s: State, t: State, limit: nat, concurrency: nat, k: Inmem.QueuedKey)
    requires Apart(s.queue) && Next(s, limit, concurrency, Start(k)) == Some(t)
    ensures Apart(t.queue) && Rounds.Next(View(s), limit, concurrency, Rounds.Start(k.key)) == Some(View(t))
  {
    hide Idlers, Ranking, Inmem.Before, Rounds.Without, Waiting;
    ViewHasKeys(s);
    WaitingIs(s, k.key);
    if Inmem.AfterStart(s.queue, k).None? {
      StaysRanked(s, t);
      assert !Rounds.Idles(View(s), k.key);
      assert View(t) == View(s).(pending := t.pending);
    } else {
      StartedKey(s, t, k);
      assert Rounds.Idles(View(s), k.key) && View(t).wip == View(s).wip + {k.key};
      assert k.key in View(s).ready ==> View(s).delayed - {k.key} == View(s).delayed;
    }
  }

  lemma StartedKey(s: State, t: State, k: Inmem.QueuedKey)
    requires Apart(s.queue) && Inmem.AfterStart(s.queue, k).Some? && t.now == s.now
    requires t.queue == Inmem.AfterStart(s.queue, k).value.0
    ensures Apart(t.queue)
    ensures View(t).ready
            == if k.key in View(s).ready then Rounds.Without(View(s).ready, k.key) else View(s).ready
    ensures View(t).delayed == View(s).delayed - {k.key}
  {
    hide View, Idlers, Inmem.Before, Rounds.Without;
    var u := t.(pending := s.pending);
    IdlersAfter(s, u, k.key);
    ViewHasKeys(s);
    ViewHasKeys(u);
    if k.key in View(s).ready {
      assert Idlers(t.queue, t.now) == Idlers(s.queue, s.now) - {Entry(s.queue, k.key)};
      LeavesRanking(s, t, Entry(s.queue, k.key));
    } else {
      assert Idlers(t.queue, t.now) == Idlers(s.queue, s.now);
      StaysRanked(s, t);
    }
    DelayedIsWaiting(s);
    DelayedIsWaiting(t);
  }

  lemma DelayedIsWaiting(s: State)
    ensures View(s).delayed == Waiting(s.queue, s.now)
  {
  }

  predicate OnlyWakes(labels: seq<Rounds.Label>) {
    forall i | 0 <= i < |labels| :: labels[i].Wake?
  }

  function KeysOf(some: set<Inmem.Candidate>): set<string> {
    set c | c in some :: c.key
  }

  /** The keys in `more` become ready, one after the other. */
  lemma {:induction false} Wakes(a: Rounds.State, all: set<Inmem.Candidate>, full: seq<Inmem.Candidate>,
                                 more: set<Inmem.Candidate>, limit: nat, concurrency: nat)
    returns (labels: seq<Rounds.Label>, fuller: seq<Inmem.Candidate>)
    requires IsTop(Inmem.Before, all, |all|, full) && a.ready == Mapped(KeyOf, full) && all !! more
    requires KeysOf(more) <= a.delayed
    requires forall c, d | c in more && d in more && c != d :: c.key != d.key
    ensures IsTop(Inmem.Before, all + more, |all + more|, fuller)
    ensures forall l | l in labels :: l.Wake? && l.key in KeysOf(more)
    ensures Rounds.Run(a, limit, concurrency, labels)
            == Some(a.(ready := Mapped(KeyOf, fuller), delayed := a.delayed - KeysOf(more)))
    decreases more
  {
    hide Inmem.Before, IsTop, Rounds.Next, KeysOf, KeyOf;
    labels, fuller := [], full;
    if more == {} {
      assert all + more == all;
      assert KeysOf(more) == {} by {
        NoKeys();
      }
      assert a.delayed - KeysOf(more) == a.delayed;
    } else {
      var c :| c in more;
      KeysLeft(more, c);
      var next, l := WakesOne(a, all, full, c, limit, concurrency);
      var b := a.(ready := Mapped(KeyOf, next), delayed := a.delayed - {c.key});
      labels, fuller := Wakes(b, all + {c}, next, more - {c}, limit, concurrency);
      assert all + {c} + (more - {c}) == all + more;
      assert b.delayed - KeysOf(more - {c}) == a.delayed - KeysOf(more);
      assert ([l] + labels)[1..] == labels;
      labels := [l] + labels;
    }
  }

  lemma NoKeys()
    ensures KeysOf({}) == {}
  {
  }

  lemma KeysLeft(more: set<Inmem.Candidate>, c: Inmem.Candidate)
    requires c in more && forall c, d | c in more && d in more && c != d :: c.key != d.key
    ensures c.key in KeysOf(more) && KeysOf(more - {c}) == KeysOf(more) - {c.key}
  {
    forall k | k in KeysOf(more) && k != c.key
      ensures k in KeysOf(more - {c})
    {
      var d :| d in more && d.key == k;
      assert d in more - {c};
    }
  }

  lemma WakesOne(a: Rounds.State, all: set<Inmem.Candidate>, full: seq<Inmem.Candidate>, c: Inmem.Candidate,
                 limit: nat, concurrency: nat)
    returns (next: seq<Inmem.Candidate>, l: Rounds.Label)
    requires IsTop(Inmem.Before, all, |all|, full) && a.ready == Mapped(KeyOf, full) && c !in all && c.key in a.delayed
    ensures IsTop(Inmem.Before, all + {c}, |all + {c}|, next) && l.Wake? && l.key == c.key
    ensures Rounds.Next(a, limit, concurrency, l)
            == Some(a.(ready := Mapped(KeyOf, next), delayed := a.delayed - {c.key}))
  {
    hide Inmem.Before, IsTop;
    Inmem.BeforeIsWeakOrder();
    var at := NewcomerTakesPlace(Inmem.Before, all, full, c);
    next := full[..at] + [c] + full[at..];
    l := Rounds.Wake(c.key, at);
    assert Mapped(KeyOf, next) == Rounds.InsertAt(a.ready, at, c.key);
  }

  lemma WakesInTurn(a: Rounds.State, all: set<Inmem.Candidate>, full: seq<Inmem.Candidate>,
                    first: set<Inmem.Candidate>, others: set<Inmem.Candidate>, limit: nat, concurrency: nat)
    returns (before: seq<Rounds.Label>, after: seq<Rounds.Label>, fuller: seq<Inmem.Candidate>)
    requires IsTop(Inmem.Before, all, |all|, full) && a.ready == Mapped(KeyOf, full)
    requires all !! first && all !! others && first !! others
    requires KeysOf(first) <= a.delayed && KeysOf(others) <= a.delayed - KeysOf(first)
    requires forall c, d | c in first + others && d in first + others && c != d :: c.key != d.key
    ensures IsTop(Inmem.Before, all + first + others, |all + first + others|, fuller)
    ensures forall l | l in before :: l.Wake? && l.key in KeysOf(first)
    ensures forall l | l in after :: l.Wake? && l.key in KeysOf(others)
    ensures var delayed := a.delayed - KeysOf(first) - KeysOf(others);
            Rounds.Run(a, limit, concurrency, before + after)
            == Some(a.(ready := Mapped(KeyOf, fuller), delayed := delayed))
  {
    hide Inmem.Before, IsTop, Rounds.Next, KeysOf;
    var more;
    before, more := Wakes(a, all, full, first, limit, concurrency);
    var b := Rounds.Run(a, limit, concurrency, before).value;
    after, fuller := Wakes(b, all + first, more, others, limit, concurrency);
    Rounds.RunAppend(a, limit, concurrency, before, after);
  }

  lemma TickWakesInTurn(s: State, to: Time, limit: nat, concurrency: nat)
    returns (before: seq<Rounds.Label>, after: seq<Rounds.Label>)
    requires Apart(s.queue) && s.now <= to
    ensures forall l | l in before :: l.Wake? && l.key in s.pending
    ensures forall l | l in after :: l.Wake? && l.key !in s.pending
    ensures Rounds.Run(View(s), limit, concurrency, before + after) == Some(View(s.(now := to)))
  {
    hide Ranking, Inmem.Before, Idlers, Waiting, IsTop, KeysOf, Rounds.Run;
    var t := s.(now := to);
    var all, woken := Idlers(s.queue, s.now), Idlers(t.queue, to) - Idlers(s.queue, s.now);
    var first := set c | c in woken && c.key in s.pending;
    WokenKeys(s, to);
    SplitKeys(woken, first);
    FirstKeys(s, woken, first);
    var fuller;
    before, after, fuller :=
      WakesInTurn(View(s), all, Ranking(s.queue, s.now), first, woken - first, limit, concurrency);
    AllOfThem(all, Idlers(t.queue, to), first);
    ViewIs(t, fuller);
    TakenInTurn(Waiting(s.queue, s.now), KeysOf(first), KeysOf(woken));
  }

  /** Time wakes first the launched keys, which is always harmless, and then the others, each of which
      leaves an unsafe view unsafe. */
  lemma TickWakes(s: State, to: Time, limit: nat, concurrency: nat) returns (labels: seq<Rounds.Label>)
    requires Apart(s.queue) && s.now <= to
    ensures OnlyWakes(labels) && Rounds.Run(View(s), limit, concurrency, labels) == Some(View(s.(now := to)))
    ensures limit >= concurrency && Rounds.Safe(View(s), concurrency)
            && Rounds.Safe(View(s.(now := to)), concurrency) ==>
              Rounds.AllKeep(View(s), limit, concurrency, labels)
  {
    hide Rounds.Run, Rounds.Safe, Rounds.AllKeep, Rounds.WellFormed;
    var before, after := TickWakesInTurn(s, to, limit, concurrency);
    labels := before + after;
    ViewHasKeys(s);
    if limit >= concurrency && Rounds.Safe(View(s), concurrency) && Rounds.Safe(View(s.(now := to)), concurrency) {
      Rounds.WakesKeep(View(s), limit, concurrency, before, after);
    }
  }

  lemma AllOfThem<T>(some: set<T>, all: set<T>, part: set<T>)
    requires some <= all && part <= all - some
    ensures some + part + (all - some - part) == all
  {
  }

  lemma TakenInTurn<T>(all: set<T>, part: set<T>, whole: set<T>)
    requires part <= whole
    ensures all - part - (whole - part) == all - whole
  {
  }

  lemma SplitKeys(woken: set<Inmem.Candidate>, first: set<Inmem.Candidate>)
    requires first <= woken && forall c, d | c in woken && d in woken && c != d :: c.key != d.key
    ensures KeysOf(first) <= KeysOf(woken) && KeysOf(woken - first) == KeysOf(woken) - KeysOf(first)
  {
    forall k | k in KeysOf(woken) && k !in KeysOf(first)
      ensures k in KeysOf(woken - first)
    {
      var d :| d in woken && d.key == k;
      assert d !in first;
    }
  }

  lemma FirstKeys(s: State, woken: set<Inmem.Candidate>, first: set<Inmem.Candidate>)
    requires first == set c | c in woken && c.key in s.pending
    ensures forall k | k in KeysOf(first) :: k in s.pending
    ensures forall k | k in KeysOf(woken - first) :: k !in s.pending
  {
  }

  lemma WokenKeys(s: State, to: Time)
    requires s.now <= to
    ensures Idlers(s.queue, s.now) <= Idlers(s.queue, to)
    ensures var woken := Idlers(s.queue, to) - Idlers(s.queue, s.now);
            && KeysOf(woken) <= Waiting(s.queue, s.now)
            && (forall c, d | c in woken && d in woken && c != d :: c.key != d.key)
            && Waiting(s.queue, to) == Waiting(s.queue, s.now) - KeysOf(woken)
  {
    var woken := Idlers(s.queue, to) - Idlers(s.queue, s.now);
    forall k | k in Waiting(s.queue, s.now) && k !in Waiting(s.queue, to)
      ensures exists c :: c in woken && c.key == k
    {
      IdlerMember(s.queue, to, Entry(s.queue, k));
      IdlerMember(s.queue, s.now, Entry(s.queue, k));
      assert Entry(s.queue, k) in woken;
    }
  }

  // Steps and runs

  /** The condition a call has to meet, in terms of the ranking before and after it. Rounds and starts need
      none; keys that become ready at one instant must do so harmlessly one by one. */
  ghost predicate Harmless(s: State, limit: nat, concurrency: nat, l: Label)
    requires Next(s, limit, concurrency, l).Some?
  {
    var a, b := View(s), View(Next(s, limit, concurrency, l).value);
    match l
    case Tick(_) =>
      exists labels | OnlyWakes(labels) && Rounds.Run(a, limit, concurrency, labels) == Some(b) ::
        Rounds.AllKeep(a, limit, concurrency, labels)
    case Queue(key, _) => MovesKeep(a, b, concurrency, key)
    case Finish(owned) => MovesKeep(a, b, concurrency, owned.key)
    case Requeue(owned, _) => MovesKeep(a, b, concurrency, owned.key)
    case Dispatch(_) => true
    case Start(_) => true
  }

  predicate MovesKeep(a: Rounds.State, b: Rounds.State, concurrency: nat, key: string) {
    forall move | move in Moves(a, b, key) :: Rounds.Keeps(a, concurrency, move)
  }

  /** A key that is put into the queue gets an instant of its own. */
  predicate OwnInstant(s: State, l: Label) {
    (l.Queue? ==> forall k | k in s.queue.queue && k != l.key :: s.queue.queue[k].queued != s.now)
    && (l.Requeue? ==> forall k | k in s.queue.queue && k != l.owned.key :: s.queue.queue[k].queued != s.now)
  }

  lemma CallIsMove(s: State, limit: nat, concurrency: nat, l: Label, key: string)
    requires Apart(s.queue) && OwnInstant(s, l) && Next(s, limit, concurrency, l).Some?
    requires (l.Queue? && l.key == key) || (l.Finish? && l.owned.key == key) || (l.Requeue? && l.owned.key == key)
    ensures var t := Next(s, limit, concurrency, l).value;
            && Apart(t.queue)
            && Rounds.Run(View(s), limit, concurrency, Moves(View(s), View(t), key)) == Some(View(t))
  {
    hide View, Moves, Backoff;
    KeyMoves(s, Next(s, limit, concurrency, l).value, limit, concurrency, key);
  }

  lemma RoundIsRound(s: State, limit: nat, concurrency: nat, next: seq<Inmem.QueuedKey>)
    requires Apart(s.queue) && limit >= concurrency && Next(s, limit, concurrency, Dispatch(next)).Some?
    ensures var t := Next(s, limit, concurrency, Dispatch(next)).value;
            Apart(t.queue) && Rounds.Next(View(s), limit, concurrency, Rounds.Dispatch) == Some(View(t))
  {
    hide Ranking, Launch, Inmem.MayEnumerate;
    RoundLaunches(s, limit, concurrency, next);
  }

  lemma SingleStep(a: Rounds.State, limit: nat, concurrency: nat, l: Rounds.Label)
    requires Rounds.Next(a, limit, concurrency, l).Some?
    ensures Rounds.Run(a, limit, concurrency, [l]) == Rounds.Next(a, limit, concurrency, l)
    ensures Rounds.AllKeep(a, limit, concurrency, [l]) <==> Rounds.Keeps(a, concurrency, l)
  {
    hide Rounds.Next, Rounds.Keeps;
    assert [l][1..] == [];
  }

  lemma MoveIsRun(s: State, limit: nat, concurrency: nat, l: Label, key: string) returns (labels: seq<Rounds.Label>)
    requires Apart(s.queue) && OwnInstant(s, l) && Next(s, limit, concurrency, l).Some?
    requires (l.Queue? && l.key == key) || (l.Finish? && l.owned.key == key) || (l.Requeue? && l.owned.key == key)
    ensures |labels| <= 1
    ensures var t := Next(s, limit, concurrency, l).value;
            && Apart(t.queue)
            && Rounds.Run(View(s), limit, concurrency, labels) == Some(View(t))
            && (Harmless(s, limit, concurrency, l) <==> Rounds.AllKeep(View(s), limit, concurrency, labels))
  {
    hide View, Next, Rounds.Next, Rounds.Keeps;
    CallIsMove(s, limit, concurrency, l, key);
    labels := Moves(View(s), View(Next(s, limit, concurrency, l).value), key);
    assert |labels| <= 1;
    if labels != [] {
      assert labels == [labels[0]];
      assert Rounds.Run(View(s), limit, concurrency, labels).Some?;
      SingleStep(View(s), limit, concurrency, labels[0]);
    }
  }

  lemma TickIsRun(s: State, limit: nat, concurrency: nat, to: Time) returns (labels: seq<Rounds.Label>)
    requires Apart(s.queue) && s.now <= to && limit >= concurrency
    ensures Rounds.Run(View(s), limit, concurrency, labels) == Some(View(s.(now := to)))
    ensures Harmless(s, limit, concurrency, Tick(to)) <==> Rounds.AllKeep(View(s), limit, concurrency, labels)
  {
    hide View, Rounds.Run, Rounds.AllKeep, OnlyWakes;
    var a, b := View(s), View(s.(now := to));
    labels := TickWakes(s, to, limit, concurrency);
    if Harmless(s, limit, concurrency, Tick(to)) {
      labels :| OnlyWakes(labels) && Rounds.Run(a, limit, concurrency, labels) == Some(b)
                && Rounds.AllKeep(a, limit, concurrency, labels);
    }
  }

  lemma ShortRunIsExact(a: Rounds.State, limit: nat, concurrency: nat, labels: seq<Rounds.Label>)
    requires Rounds.WellFormed(a) && Rounds.Safe(a, concurrency) && limit >= concurrency && |labels| <= 1
    requires Rounds.Run(a, limit, concurrency, labels).Some?
    ensures Rounds.Safe(Rounds.Run(a, limit, concurrency, labels).value, concurrency)
            <==> Rounds.AllKeep(a, limit, concurrency, labels)
  {
    hide Rounds.WellFormed, Rounds.Safe, Rounds.Next, Rounds.Keeps;
    if labels != [] {
      assert labels == [labels[0]];
      SingleStep(a, limit, concurrency, labels[0]);
      Rounds.KeepsIsExact(a, limit, concurrency, labels[0]);
    }
  }

  /** Every call is a run of abstract steps, which meet their conditions if and only if the call meets its own. */
  lemma StepIsRun(s: State, limit: nat, concurrency: nat, l: Label) returns (labels: seq<Rounds.Label>)
    requires Apart(s.queue) && OwnInstant(s, l) && limit >= concurrency && Next(s, limit, concurrency, l).Some?
    ensures !l.Tick? ==> |labels| <= 1
    ensures var t := Next(s, limit, concurrency, l).value;
            && Apart(t.queue)
            && Rounds.Run(View(s), limit, concurrency, labels) == Some(View(t))
            && (Harmless(s, limit, concurrency, l) <==> Rounds.AllKeep(View(s), limit, concurrency, labels))
  {
    hide View, Rounds.Next, Moves;
    var t := Next(s, limit, concurrency, l).value;
    match l
    case Tick(to) => labels := TickIsRun(s, limit, concurrency, to);
    case Dispatch(next) =>
      labels := [Rounds.Dispatch];
      RoundIsRound(s, limit, concurrency, next);
      SingleStep(View(s), limit, concurrency, labels[0]);
    case Start(k) =>
      labels := [Rounds.Start(k.key)];
      StartIsStart(s, t, limit, concurrency, k);
      SingleStep(View(s), limit, concurrency, labels[0]);
    case Queue(key, _) => labels := MoveIsRun(s, limit, concurrency, l, key);
    case Finish(owned) => labels := MoveIsRun(s, limit, concurrency, l, owned.key);
    case Requeue(owned, _) => labels := MoveIsRun(s, limit, concurrency, l, owned.key);
  }

  /** The condition of a call is exact: from a state that is safe for the rounds it leads to one that is
      safe if and only if it is harmless. */
  lemma HarmlessIsExact(s: State, limit: nat, concurrency: nat, l: Label)
    requires Apart(s.queue) && OwnInstant(s, l) && limit >= concurrency && Next(s, limit, concurrency, l).Some?
    requires Rounds.Safe(View(s), concurrency)
    ensures Rounds.Safe(View(Next(s, limit, concurrency, l).value), concurrency) <==> Harmless(s, limit, concurrency, l)
  {
    hide View, Rounds.Next, Rounds.Safe, Rounds.Keeps, Rounds.WellFormed;
    ViewHasKeys(s);
    var labels := StepIsRun(s, limit, concurrency, l);
    Rounds.RunKeeps(View(s), limit, concurrency, labels);
    if l.Tick? {
      var wakes := TickWakes(s, l.to, limit, concurrency);
    } else if labels != [] {
      ShortRunIsExact(View(s), limit, concurrency, labels);
    }
  }

  ghost function Run(s: State, limit: nat, concurrency: nat, labels: seq<Label>): Option<State>
    decreases |labels|
  {
    if labels == [] then Some(s)
    else
      var t := Next(s, limit, concurrency, labels[0]);
      if t.None? then None else Run(t.value, limit, concurrency, labels[1..])
  }

  ghost predicate AllHarmless(s: State, limit: nat, concurrency: nat, labels: seq<Label>)
    requires Run(s, limit, concurrency, labels).Some?
    decreases |labels|
  {
    labels == []
    || (Harmless(s, limit, concurrency, labels[0])
        && AllHarmless(Next(s, limit, concurrency, labels[0]).value, limit, concurrency, labels[1..]))
  }

  ghost predicate OwnInstants(s: State, limit: nat, concurrency: nat, labels: seq<Label>)
    requires Run(s, limit, concurrency, labels).Some?
    decreases |labels|
  {
    labels == []
    || (OwnInstant(s, labels[0])
        && OwnInstants(Next(s, limit, concurrency, labels[0]).value, limit, concurrency, labels[1..]))
  }

  lemma {:induction false} HarmlessRunKeeps(s: State, limit: nat, concurrency: nat, labels: seq<Label>)
    requires Apart(s.queue) && limit >= concurrency && Rounds.Safe(View(s), concurrency)
    requires Run(s, limit, concurrency, labels).Some?
    requires OwnInstants(s, limit, concurrency, labels) && AllHarmless(s, limit, concurrency, labels)
    ensures Rounds.Safe(View(Run(s, limit, concurrency, labels).value), concurrency)
    decreases |labels|
  {
    hide Next, View, Rounds.Safe, Harmless, OwnInstant, Apart;
    if labels != [] {
      HarmlessIsExact(s, limit, concurrency, labels[0]);
      var steps := StepIsRun(s, limit, concurrency, labels[0]);
      HarmlessRunKeeps(Next(s, limit, concurrency, labels[0]).value, limit, concurrency, labels[1..]);
    }
  }

  lemma InitIsSafe(now: Time, concurrency: nat)
    ensures Apart(Init(now).queue) && Rounds.Safe(View(Init(now)), concurrency)
  {
    assert IsRanking(Init(now).queue, now, []);
    ViewIs(Init(now), []);
    assert Rounds.Stray(View(Init(now))) == {};
  }

  lemma SafeBounds(s: State, concurrency: nat)
    requires Rounds.Safe(View(s), concurrency)
    ensures |s.queue.wip| <= concurrency
  {
  }

  /** Overlapping rounds over the in-memory queue never have more keys in progress than the concurrency,
      in any interleaving of rounds and starts with harmless calls. */
  lemma QueueKeepsBound(start: Time, limit: nat, concurrency: nat, labels: seq<Label>)
    requires limit >= concurrency && Run(Init(start), limit, concurrency, labels).Some?
    requires OwnInstants(Init(start), limit, concurrency, labels)
    requires AllHarmless(Init(start), limit, concurrency, labels)
    ensures |Run(Init(start), limit, concurrency, labels).value.queue.wip| <= concurrency
  {
    hide Run, OwnInstants, AllHarmless, View, Rounds.Safe;
    InitIsSafe(start, concurrency);
    HarmlessRunKeeps(Init(start), limit, concurrency, labels);
    SafeBounds(Run(Init(start), limit, concurrency, labels).value, concurrency);
  }

  // And the other way round: after a harmful call the bound may break

  lemma EnumerationExists(m: Inmem.State, limit: nat, now: Time) returns (next: seq<Inmem.QueuedKey>)
    ensures Inmem.MayEnumerate(m, limit, now, next)
  {
    hide Inmem.Eligible, Inmem.Before;
    Inmem.BeforeIsWeakOrder();
    var full := RankingExists(Inmem.Before, Inmem.Eligible(m, now));
    var top := full[..Min(limit, |full|)];
    HeadIsTop(Inmem.Eligible(m, now), full, limit);
    next := Mapped(Inmem.Handle, top);
  }

  lemma HeadIsTop(all: set<Inmem.Candidate>, full: seq<Inmem.Candidate>, limit: nat)
    requires IsTop(Inmem.Before, all, |all|, full)
    ensures IsTop(Inmem.Before, all, limit, full[..Min(limit, |full|)])
  {
    hide Inmem.Before;
    var top := full[..Min(limit, |full|)];
    DistinctElements(full);
    SubsetSameSize(Elements(full), all);
    assert forall x | x in top :: x in full;
    assert forall n | 0 <= n < |top| :: full[n] in Elements(top);
    forall x, y | x in top && y in all - Elements(top)
      ensures !Inmem.Before(y, x)
    {
      assert y in Elements(full);
      var i :| 0 <= i < |top| && top[i] == x;
      var j :| 0 <= j < |full| && full[j] == y;
      assert full[i] == x && j >= |top|;
    }
  }

  predicate OnlyLaunches(labels: seq<Label>) {
    forall i | 0 <= i < |labels| :: labels[i].Dispatch? || labels[i].Start?
  }

  /** Abstract rounds and starts can be taken by the queue. */
  lemma {:induction false} LaunchesAreReal(s: State, limit: nat, concurrency: nat, steps: seq<Rounds.Label>)
    returns (labels: seq<Label>)
    requires Apart(s.queue) && limit >= concurrency && Rounds.OnlyLaunches(steps)
    requires Rounds.Run(View(s), limit, concurrency, steps).Some?
    ensures OnlyLaunches(labels) && Run(s, limit, concurrency, labels).Some?
    ensures View(Run(s, limit, concurrency, labels).value) == Rounds.Run(View(s), limit, concurrency, steps).value
    decreases |steps|
  {
    hide View, Rounds.Next;
    labels := [];
    if steps != [] {
      var l := LaunchIsReal(s, limit, concurrency, steps[0]);
      var rest := LaunchesAreReal(Next(s, limit, concurrency, l).value, limit, concurrency, steps[1..]);
      labels := [l] + rest;
      assert labels[1..] == rest;
    }
  }

  lemma LaunchIsReal(s: State, limit: nat, concurrency: nat, step: Rounds.Label) returns (l: Label)
    requires Apart(s.queue) && limit >= concurrency && (step.Dispatch? || step.Start?)
    requires Rounds.Next(View(s), limit, concurrency, step).Some?
    ensures (l.Dispatch? || l.Start?) && Next(s, limit, concurrency, l).Some?
    ensures var t := Next(s, limit, concurrency, l).value;
            Apart(t.queue) && Rounds.Next(View(s), limit, concurrency, step) == Some(View(t))
  {
    hide Ranking, Launch;
    if step.Dispatch? {
      var next := EnumerationExists(s.queue, limit, s.now);
      l := Dispatch(next);
      RoundIsRound(s, limit, concurrency, next);
    } else {
      l := Start(Inmem.QueuedKey(step.key, 0, 0, 0));
      StartIsStart(s, Next(s, limit, concurrency, l).value, limit, concurrency, l.k);
    }
  }

  /** A state is safe for the rounds if and only if no harmless continuation breaks the bound; in any other
      state rounds and starts alone may. */
  lemma SafeQueueIsExact(s: State, limit: nat, concurrency: nat)
    requires Apart(s.queue) && limit >= concurrency
    ensures Rounds.Safe(View(s), concurrency) <==>
            forall labels | Run(s, limit, concurrency, labels).Some?
                            && OwnInstants(s, limit, concurrency, labels)
                            && AllHarmless(s, limit, concurrency, labels) ::
              |Run(s, limit, concurrency, labels).value.queue.wip| <= concurrency
    ensures !Rounds.Safe(View(s), concurrency) ==>
              exists labels :: OnlyLaunches(labels) && Run(s, limit, concurrency, labels).Some?
                               && |Run(s, limit, concurrency, labels).value.queue.wip| > concurrency
  {
    hide Run, OwnInstants, AllHarmless, View, Rounds.Safe, OnlyLaunches, Rounds.WellFormed;
    if Rounds.Safe(View(s), concurrency) {
      forall labels | Run(s, limit, concurrency, labels).Some?
                      && OwnInstants(s, limit, concurrency, labels) && AllHarmless(s, limit, concurrency, labels)
        ensures |Run(s, limit, concurrency, labels).value.queue.wip| <= concurrency
      {
        HarmlessRunKeeps(s, limit, concurrency, labels);
        SafeBounds(Run(s, limit, concurrency, labels).value, concurrency);
      }
    } else {
      ViewHasKeys(s);
      var steps := Rounds.UnsafeBreaks(View(s), limit, concurrency);
      var labels := LaunchesAreReal(s, limit, concurrency, steps);
      ViewWip(Run(s, limit, concurrency, labels).value);
      LaunchesAreHarmless(s, limit, concurrency, labels);
    }
  }

  lemma ViewWip(s: State)
    ensures View(s).wip == s.queue.wip
  {
  }

  lemma {:induction false} LaunchesAreHarmless(s: State, limit: nat, concurrency: nat, labels: seq<Label>)
    requires OnlyLaunches(labels) && Run(s, limit, concurrency, labels).Some?
    ensures OwnInstants(s, limit, concurrency, labels) && AllHarmless(s, limit, concurrency, labels)
    decreases |labels|
  {
    hide Next;
    if labels != [] {
      LaunchesAreHarmless(Next(s, limit, concurrency, labels[0]).value, limit, concurrency, labels[1..]);
    }
  }
}
