/** Overlapping dispatcher rounds: launched goroutines call `Start` after their round has returned, so
    several rounds' launches may be in flight at once.

    The queue is kept as a ranking. A round is one step, at its enumeration. */
module Rounds {
  import opened Wrappers
  import opened TopK
  import opened Dispatcher

  /** `ready` ranks the queued keys that a round may launch, and `delayed` holds those that wait for their
      not-before; a key in progress is in neither, even while it is queued again. `pending` has one entry
      per launched goroutine that has not called `Start` yet. */
  datatype State = State(ready: seq<string>, delayed: set<string>, wip: set<string>, pending: multiset<string>)

  datatype Label =
    | Dispatch
    | Start(key: string)
    | Finish(key: string)
      // a key is queued that is neither queued nor in progress
    | Arrive(key: string, at: nat)
    | ArriveDelayed(key: string)
      // a key in progress goes back to the queue
    | Requeue(key: string, at: nat)
    | RequeueDelayed(key: string)
      // a delayed key becomes ready
    | Wake(key: string, at: nat)
      // a ready key is queued again with a later not-before, or with a higher priority
    | Delay(key: string)
    | Raise(key: string, at: nat)

  const EMPTY := State([], {}, {}, multiset{})

  function InsertAt(s: seq<string>, at: nat, key: string): (r: seq<string>)
    requires at <= |s|
    ensures |r| == |s| + 1
    ensures forall i | 0 <= i < |r| :: r[i] == if i < at then s[i] else if i == at then key else s[i - 1]
  {
    s[..at] + [key] + s[at..]
  }

  function IndexOf(s: seq<string>, key: string): (i: nat)
    requires key in s
    ensures i < |s| && s[i] == key
  {
    if s[0] == key then 0 else IndexOf(s[1..], key) + 1
  }

  function Without(s: seq<string>, key: string): (r: seq<string>)
    requires key in s
    ensures |r| == |s| - 1
    ensures forall i | 0 <= i < |r| :: r[i] == if i < IndexOf(s, key) then s[i] else s[i + 1]
  {
    s[..IndexOf(s, key)] + s[IndexOf(s, key) + 1..]
  }

  predicate Idles(s: State, key: string) {
    key in s.ready || key in s.delayed
  }

  function Next(s: State, limit: nat, concurrency: nat, l: Label): Option<State> {
    match l
    case Dispatch =>
      Some(s.(pending := s.pending + multiset(Launch(s.ready[..Min(limit, |s.ready|)], s.wip, concurrency))))
    case Start(key) =>
      if key !in s.pending then None
      else
        var t := s.(pending := s.pending[key := s.pending[key] - 1]);
        if key in s.ready then Some(t.(ready := Without(s.ready, key), wip := s.wip + {key}))
        else if key in s.delayed then Some(t.(delayed := s.delayed - {key}, wip := s.wip + {key}))
        else Some(t)
    case Finish(key) => if key in s.wip then Some(s.(wip := s.wip - {key})) else None
    case Arrive(key, at) =>
      if Idles(s, key) || key in s.wip || at > |s.ready| then None
      else Some(s.(ready := InsertAt(s.ready, at, key)))
    case ArriveDelayed(key) =>
      if Idles(s, key) || key in s.wip then None else Some(s.(delayed := s.delayed + {key}))
    case Requeue(key, at) =>
      if key !in s.wip || at > |s.ready| then None
      else Some(s.(wip := s.wip - {key}, ready := InsertAt(s.ready, at, key)))
    case RequeueDelayed(key) =>
      if key !in s.wip then None else Some(s.(wip := s.wip - {key}, delayed := s.delayed + {key}))
    case Wake(key, at) =>
      if key !in s.delayed || at > |s.ready| then None
      else Some(s.(delayed := s.delayed - {key}, ready := InsertAt(s.ready, at, key)))
    case Delay(key) =>
      if key !in s.ready then None
      else Some(s.(ready := Without(s.ready, key), delayed := s.delayed + {key}))
    case Raise(key, at) =>
      if key !in s.ready || at > IndexOf(s.ready, key) then None
      else Some(s.(ready := InsertAt(Without(s.ready, key), at, key)))
  }

  /** The state after a run, if every label of the run was possible. */
  function Run(s: State, limit: nat, concurrency: nat, labels: seq<Label>): Option<State>
    decreases |labels|
  {
    if labels == [] then Some(s)
    else
      var t := Next(s, limit, concurrency, labels[0]);
      if t.None? then None else Run(t.value, limit, concurrency, labels[1..])
  }

  ghost predicate WellFormed(s: State) {
    && Distinct(s.ready) && s.delayed !! s.wip
    && forall k | k in s.ready :: k !in s.delayed && k !in s.wip
  }

  // What is safe

  function Slots(s: State, concurrency: nat): int {
    concurrency - |s.wip|
  }

  /** Delayed keys that were launched before they were delayed: `Start` does not look at a not-before. */
  function Stray(s: State): set<string> {
    set k | k in s.delayed && k in s.pending
  }

  predicate Within(ready: seq<string>, pending: multiset<string>, slots: int) {
    forall i | 0 <= i < |ready| && ready[i] in pending :: i < slots
  }

  /** Every launched key is among the first of the queue, one for each open slot; and if a launched key is
      delayed, the slots take it beside everything that is ready. */
  predicate Safe(s: State, concurrency: nat) {
    && |s.wip| <= concurrency
    && Within(s.ready, s.pending, Slots(s, concurrency))
    && (Stray(s) != {} ==> |s.ready| + |Stray(s)| <= Slots(s, concurrency))
  }

  /** A key that enters the ranking at `at`, having left it at `from`, pushes no launched key off the last slot. */
  predicate PushesNone(s: State, concurrency: nat, at: nat, from: nat)
    requires from <= |s.ready|
  {
    var slots := Slots(s, concurrency);
    !(at < slots <= from && s.ready[slots - 1] in s.pending)
  }

  predicate RoomForOne(s: State, concurrency: nat) {
    |s.ready| + |Stray(s)| < Slots(s, concurrency)
  }

  predicate RoomForAll(s: State, concurrency: nat) {
    |s.ready| + |Stray(s)| <= Slots(s, concurrency)
  }

  /** Which steps keep a safe state safe. */
  predicate Keeps(s: State, concurrency: nat, l: Label) {
    var slots := Slots(s, concurrency);
    match l
    case Dispatch => true
    case Start(_) => true
    case Finish(_) => true
    case Arrive(key, at) =>
      && (key in s.pending ==> at < slots)
      && PushesNone(s, concurrency, at, |s.ready|)
      && (Stray(s) != {} ==> RoomForOne(s, concurrency))
    case ArriveDelayed(key) => key in s.pending ==> RoomForOne(s, concurrency)
    case Requeue(key, at) => key in s.pending ==> at <= slots
    case RequeueDelayed(key) => key in s.pending ==> RoomForAll(s, concurrency)
    case Wake(key, at) =>
      key in s.pending
      || (PushesNone(s, concurrency, at, |s.ready|) && (Stray(s) != {} ==> RoomForOne(s, concurrency)))
    case Delay(key) => key in s.pending ==> RoomForAll(s, concurrency)
    case Raise(key, at) => key in s.ready ==> PushesNone(s, concurrency, at, IndexOf(s.ready, key))
  }

  // The steps, one by one

  /** A round launches the head of the ranking, one key for each open slot. */
  lemma LaunchesHead(s: State, limit: nat, concurrency: nat) returns (q: nat)
    requires WellFormed(s) && limit >= concurrency
    ensures q == if Slots(s, concurrency) <= 0 then 0 else Min(Slots(s, concurrency), |s.ready|)
    ensures Next(s, limit, concurrency, Dispatch) == Some(s.(pending := s.pending + multiset(s.ready[..q])))
  {
    var next := s.ready[..Min(limit, |s.ready|)];
    assert forall k | k in next :: k in s.ready;
    IdleOfOthers(next, s.wip);
    q := |Launch(next, s.wip, concurrency)|;
    assert Launch(next, s.wip, concurrency) == s.ready[..q];
  }

  lemma HeadJoins(ready: seq<string>, pending: multiset<string>, q: nat)
    requires Distinct(ready) && q <= |ready|
    ensures forall i | 0 <= i < |ready| :: ready[i] in pending + multiset(ready[..q]) <==> ready[i] in pending || i < q
    ensures forall k | k !in ready :: k in pending + multiset(ready[..q]) <==> k in pending
  {
    forall i | 0 <= i < |ready|
      ensures ready[i] in multiset(ready[..q]) <==> i < q
    {
      if ready[i] in ready[..q] {
        var j :| 0 <= j < q && ready[..q][j] == ready[i];
      }
    }
    forall k | k !in ready
      ensures k !in multiset(ready[..q])
    {
      assert forall i | 0 <= i < q :: ready[..q][i] == ready[i];
    }
  }

  lemma DispatchKeeps(s: State, limit: nat, concurrency: nat)
    requires WellFormed(s) && limit >= concurrency
    ensures var t := Next(s, limit, concurrency, Dispatch).value;
            WellFormed(t) && (Safe(s, concurrency) ==> Safe(t, concurrency))
  {
    hide Launch;
    var t := Next(s, limit, concurrency, Dispatch).value;
    var q := LaunchesHead(s, limit, concurrency);
    HeadJoins(s.ready, s.pending, q);
    assert Stray(t) == Stray(s);
  }

  /** Inserting a key shifts what is behind it by one place. */
  lemma Shifts(ready: seq<string>, pending: multiset<string>, slots: int, at: nat, key: string)
    requires at <= |ready| && Within(ready, pending, slots)
    ensures Within(InsertAt(ready, at, key), pending, slots)
            <==> (key in pending ==> at < slots) && !(at < slots <= |ready| && ready[slots - 1] in pending)
    ensures slots >= 0 ==> (Within(InsertAt(ready, at, key), pending, slots + 1) <==> (key in pending ==> at <= slots))
  {
    var r := InsertAt(ready, at, key);
    assert r[at] == key;
    if at < slots <= |ready| {
      assert r[slots] == ready[slots - 1];
    }
    if Within(r, pending, slots) {
    } else {
      var i :| 0 <= i < |r| && r[i] in pending && i >= slots;
      assert i > at ==> ready[i - 1] in pending && i - 1 < slots;
    }
  }

  lemma InsertedMembers(ready: seq<string>, at: nat, key: string)
    requires at <= |ready|
    ensures forall k :: k in InsertAt(ready, at, key) <==> k in ready || k == key
  {
    assert ready == ready[..at] + ready[at..];
  }

  lemma InsertedDistinct(ready: seq<string>, at: nat, key: string)
    requires at <= |ready| && Distinct(ready) && key !in ready
    ensures Distinct(InsertAt(ready, at, key))
  {
    var r := InsertAt(ready, at, key);
    forall i, j | 0 <= i < j < |r|
      ensures r[i] != r[j]
    {
      var i', j' := if i < at then i else i - 1, if j < at then j else j - 1;
      if i != at && j != at {
        assert ready[i'] != ready[j'];
      }
    }
  }

  /** Removing a key moves what is behind it up by one place; if it was launched, one slot fewer will do. */
  lemma Closes(ready: seq<string>, pending: multiset<string>, slots: int, key: string)
    requires Distinct(ready) && key in ready && Within(ready, pending, slots)
    ensures Distinct(Without(ready, key)) && key !in Without(ready, key)
    ensures forall k :: k in Without(ready, key) <==> k in ready && k != key
    ensures Within(Without(ready, key), pending, slots)
    ensures key in pending ==> Within(Without(ready, key), pending, slots - 1)
  {
    var r, p := Without(ready, key), IndexOf(ready, key);
    forall k
      ensures k in r <==> k in ready && k != key
    {
      if k in ready && k != key {
        var i :| 0 <= i < |ready| && ready[i] == k;
        assert r[if i < p then i else i - 1] == k;
      }
    }
  }

  lemma StartKeeps(s: State, limit: nat, concurrency: nat, key: string)
    requires WellFormed(s) && Next(s, limit, concurrency, Start(key)).Some?
    ensures var t := Next(s, limit, concurrency, Start(key)).value;
            WellFormed(t) && (Safe(s, concurrency) ==> Safe(t, concurrency))
  {
    hide Without, Distinct;
    var t := Next(s, limit, concurrency, Start(key)).value;
    if key in s.ready {
      StartReadyKeeps(s, limit, concurrency, key);
    } else if key in s.delayed {
      assert Stray(t) == Stray(s) - {key} && key in Stray(s);
      assert Within(s.ready, s.pending, Slots(s, concurrency)) ==> Within(t.ready, t.pending, |s.ready|);
    } else {
      assert Stray(t) == Stray(s);
    }
  }

  lemma StartReadyKeeps(s: State, limit: nat, concurrency: nat, key: string)
    requires WellFormed(s) && key in s.ready && key in s.pending
    ensures var t := Next(s, limit, concurrency, Start(key)).value;
            WellFormed(t) && (Safe(s, concurrency) ==> Safe(t, concurrency))
  {
    hide Without, Distinct;
    var t := Next(s, limit, concurrency, Start(key)).value;
    assert Stray(t) == Stray(s);
    var slots := if Within(s.ready, s.pending, Slots(s, concurrency)) then Slots(s, concurrency) else |s.ready|;
    Closes(s.ready, s.pending, slots, key);
    assert WellFormed(t);
    assert Within(t.ready, t.pending, slots - 1);
  }

  /** A key that enters the ranking from elsewhere, with or without giving up a slot. */
  lemma EnterKeeps(s: State, t: State, concurrency: nat, key: string, at: nat)
    requires WellFormed(s) && key !in s.ready && at <= |s.ready|
    requires t.ready == InsertAt(s.ready, at, key) && t.pending == s.pending
    requires t.wip == s.wip - {key} && t.delayed == s.delayed - {key}
    ensures WellFormed(t)
    ensures Safe(s, concurrency) ==>
              (Safe(t, concurrency) <==>
               if key in s.wip then Keeps(s, concurrency, Label.Requeue(key, at))
               else if key in s.delayed then Keeps(s, concurrency, Wake(key, at))
               else Keeps(s, concurrency, Arrive(key, at)))
  {
    hide InsertAt, Distinct, Safe, Keeps;
    InsertedMembers(s.ready, at, key);
    InsertedDistinct(s.ready, at, key);
    if Safe(s, concurrency) {
      EnteredSafely(s, t, concurrency, key, at);
    }
  }

  lemma EnteredSafely(s: State, t: State, concurrency: nat, key: string, at: nat)
    requires Safe(s, concurrency) && at <= |s.ready| && s.delayed !! s.wip
    requires t.ready == InsertAt(s.ready, at, key) && t.pending == s.pending
    requires t.wip == s.wip - {key} && t.delayed == s.delayed - {key}
    ensures Safe(t, concurrency) <==>
            if key in s.wip then Keeps(s, concurrency, Label.Requeue(key, at))
            else if key in s.delayed then Keeps(s, concurrency, Wake(key, at))
            else Keeps(s, concurrency, Arrive(key, at))
  {
    hide InsertAt, Within;
    Shifts(s.ready, s.pending, Slots(s, concurrency), at, key);
    StrayWithout(s, t, key);
    assert |t.wip| == |s.wip| - if key in s.wip then 1 else 0;
    hide Stray;
  }

  lemma StrayWithout(s: State, t: State, key: string)
    requires t.delayed == s.delayed - {key} && t.pending == s.pending
    ensures Stray(t) == Stray(s) - {key}
    ensures |Stray(t)| == |Stray(s)| - if key in s.delayed && key in s.pending then 1 else 0
  {
    assert Stray(t) == Stray(s) - {key};
  }

  lemma StrayWith(s: State, t: State, key: string)
    requires t.delayed == s.delayed + {key} && t.pending == s.pending && key !in s.delayed
    ensures Stray(t) == if key in s.pending then Stray(s) + {key} else Stray(s)
    ensures |Stray(t)| == |Stray(s)| + if key in s.pending then 1 else 0
  {
    assert Stray(t) == if key in s.pending then Stray(s) + {key} else Stray(s);
  }

  /** A key that goes to the delayed ones from elsewhere. */
  lemma PostponeKeeps(s: State, t: State, concurrency: nat, key: string)
    requires WellFormed(s) && key !in s.delayed
    requires t.ready == (if key in s.ready then Without(s.ready, key) else s.ready) && t.pending == s.pending
    requires t.wip == s.wip - {key} && t.delayed == s.delayed + {key}
    ensures WellFormed(t)
    ensures Safe(s, concurrency) ==>
              (Safe(t, concurrency) <==>
               if key in s.wip then Keeps(s, concurrency, RequeueDelayed(key))
               else if key in s.ready then Keeps(s, concurrency, Delay(key))
               else Keeps(s, concurrency, ArriveDelayed(key)))
  {
    hide Distinct, Within, Stray, Safe;
    WithoutMaybe(s, t, key);
    if Safe(s, concurrency) {
      PostponedSafely(s, t, concurrency, key);
    }
  }

  lemma WithoutMaybe(s: State, t: State, key: string)
    requires WellFormed(s)
    requires t.ready == if key in s.ready then Without(s.ready, key) else s.ready
    ensures Distinct(t.ready) && key !in t.ready && forall k | k in t.ready :: k in s.ready
    ensures |t.ready| == |s.ready| - if key in s.ready then 1 else 0
    ensures forall slots | Within(s.ready, s.pending, slots) :: Within(t.ready, s.pending, slots)
  {
    hide Distinct, Within;
    forall slots | Within(s.ready, s.pending, slots)
      ensures Within(t.ready, s.pending, slots)
    {
      if key in s.ready {
        Closes(s.ready, s.pending, slots, key);
      }
    }
    if key in s.ready {
      assert Within(s.ready, s.pending, |s.ready|) by {
        InLength(s.ready, s.pending);
      }
      Closes(s.ready, s.pending, |s.ready|, key);
    }
  }

  lemma InLength(ready: seq<string>, pending: multiset<string>)
    ensures Within(ready, pending, |ready|)
  {
  }

  lemma PostponedSafely(s: State, t: State, concurrency: nat, key: string)
    requires WellFormed(s) && Safe(s, concurrency) && key !in s.delayed
    requires |t.ready| == (|s.ready| - if key in s.ready then 1 else 0) && t.pending == s.pending
    requires forall slots | Within(s.ready, s.pending, slots) :: Within(t.ready, s.pending, slots)
    requires t.wip == s.wip - {key} && t.delayed == s.delayed + {key}
    ensures Safe(t, concurrency) <==>
            if key in s.wip then Keeps(s, concurrency, RequeueDelayed(key))
            else if key in s.ready then Keeps(s, concurrency, Delay(key))
            else Keeps(s, concurrency, ArriveDelayed(key))
  {
    StrayWith(s, t, key);
    assert Within(t.ready, t.pending, Slots(s, concurrency));
    assert |t.wip| == |s.wip| - if key in s.wip then 1 else 0;
    hide WellFormed, Stray;
  }

  lemma RaiseKeeps(s: State, limit: nat, concurrency: nat, key: string, at: nat)
    requires WellFormed(s) && Next(s, limit, concurrency, Raise(key, at)).Some?
    ensures var t := Next(s, limit, concurrency, Raise(key, at)).value;
            && WellFormed(t)
            && (Safe(s, concurrency) ==> (Safe(t, concurrency) <==> Keeps(s, concurrency, Raise(key, at))))
  {
    hide Distinct, Within;
    var t := Next(s, limit, concurrency, Raise(key, at)).value;
    var rest := Without(s.ready, key);
    WithoutMaybe(s, s.(ready := rest), key);
    InsertedMembers(rest, at, key);
    InsertedDistinct(rest, at, key);
    assert Stray(t) == Stray(s);
    if Safe(s, concurrency) {
      RaisedWithin(s.ready, s.pending, Slots(s, concurrency), key, at);
    }
  }

  lemma RaisedWithin(ready: seq<string>, pending: multiset<string>, slots: int, key: string, at: nat)
    requires key in ready && at <= IndexOf(ready, key) && Within(ready, pending, slots)
    requires Within(Without(ready, key), pending, slots)
    ensures Within(InsertAt(Without(ready, key), at, key), pending, slots)
            <==> !(at < slots <= IndexOf(ready, key) && ready[slots - 1] in pending)
  {
    hide Within;
    var p, rest := IndexOf(ready, key), Without(ready, key);
    Shifts(rest, pending, slots, at, key);
    assert at < slots <= p ==> rest[slots - 1] == ready[slots - 1];
    assert p < slots <= |rest| ==> rest[slots - 1] == ready[slots];
    assert Within(ready, pending, slots) ==>
        (p < slots || key !in pending) && (p < slots < |ready| ==> ready[slots] !in pending) by {
      PlacesWithin(ready, pending, slots);
    }
  }

  lemma PlacesWithin(ready: seq<string>, pending: multiset<string>, slots: int)
    requires Within(ready, pending, slots)
    ensures forall i | 0 <= i < |ready| && i >= slots :: ready[i] !in pending
  {
  }

  /** The conditions are exact: a step from a safe state ends in a safe state if and only if it meets its own. */
  lemma KeepsIsExact(s: State, limit: nat, concurrency: nat, l: Label)
    requires WellFormed(s) && Safe(s, concurrency) && limit >= concurrency && Next(s, limit, concurrency, l).Some?
    ensures Safe(Next(s, limit, concurrency, l).value, concurrency) <==> Keeps(s, concurrency, l)
  {
    NextKeepsWellFormed(s, limit, concurrency, l);
  }

  lemma NextKeepsWellFormed(s: State, limit: nat, concurrency: nat, l: Label)
    requires WellFormed(s) && limit >= concurrency && Next(s, limit, concurrency, l).Some?
    ensures var t := Next(s, limit, concurrency, l).value;
            && WellFormed(t)
            && (Safe(s, concurrency) ==> (Safe(t, concurrency) <==> Keeps(s, concurrency, l)))
  {
    hide Safe, WellFormed, Launch, InsertAt, Without, PushesNone, RoomForOne, RoomForAll;
    var t := Next(s, limit, concurrency, l).value;
    match l
    case Dispatch => DispatchKeeps(s, limit, concurrency);
    case Start(key) => StartKeeps(s, limit, concurrency, key);
    case Finish(key) => FinishKeeps(s, concurrency, key);
    case Arrive(key, at) => Enters(s, limit, concurrency, l, key, at);
    case Requeue(key, at) => Enters(s, limit, concurrency, l, key, at);
    case Wake(key, at) => Enters(s, limit, concurrency, l, key, at);
    case ArriveDelayed(key) => Postpones(s, limit, concurrency, l, key);
    case RequeueDelayed(key) => Postpones(s, limit, concurrency, l, key);
    case Delay(key) => Postpones(s, limit, concurrency, l, key);
    case Raise(key, at) => RaiseKeeps(s, limit, concurrency, key, at);
  }

  lemma FinishKeeps(s: State, concurrency: nat, key: string)
    requires WellFormed(s) && key in s.wip
    ensures var t := s.(wip := s.wip - {key}); WellFormed(t) && (Safe(s, concurrency) ==> Safe(t, concurrency))
  {
    assert Stray(s.(wip := s.wip - {key})) == Stray(s);
  }

  lemma Enters(s: State, limit: nat, concurrency: nat, l: Label, key: string, at: nat)
    requires WellFormed(s) && Next(s, limit, concurrency, l).Some?
    requires l == Arrive(key, at) || l == Label.Requeue(key, at) || l == Wake(key, at)
    ensures var t := Next(s, limit, concurrency, l).value;
            && WellFormed(t)
            && (Safe(s, concurrency) ==> (Safe(t, concurrency) <==> Keeps(s, concurrency, l)))
  {
    hide Safe, InsertAt, PushesNone, RoomForOne;
    EnterKeeps(s, Next(s, limit, concurrency, l).value, concurrency, key, at);
  }

  lemma Postpones(s: State, limit: nat, concurrency: nat, l: Label, key: string)
    requires WellFormed(s) && Next(s, limit, concurrency, l).Some?
    requires l == ArriveDelayed(key) || l == RequeueDelayed(key) || l == Delay(key)
    ensures var t := Next(s, limit, concurrency, l).value;
            && WellFormed(t)
            && (Safe(s, concurrency) ==> (Safe(t, concurrency) <==> Keeps(s, concurrency, l)))
  {
    hide Safe, Without, RoomForOne, RoomForAll;
    PostponeKeeps(s, Next(s, limit, concurrency, l).value, concurrency, key);
  }

  // Runs

  /** Every step of the run meets its condition. */
  predicate AllKeep(s: State, limit: nat, concurrency: nat, labels: seq<Label>)
    requires Run(s, limit, concurrency, labels).Some?
    decreases |labels|
  {
    labels == []
    || (Keeps(s, concurrency, labels[0])
        && AllKeep(Next(s, limit, concurrency, labels[0]).value, limit, concurrency, labels[1..]))
  }

  lemma {:induction false} RunKeeps(s: State, limit: nat, concurrency: nat, labels: seq<Label>)
    requires WellFormed(s) && limit >= concurrency && Run(s, limit, concurrency, labels).Some?
    ensures var t := Run(s, limit, concurrency, labels).value;
            && WellFormed(t)
            && (Safe(s, concurrency) && AllKeep(s, limit, concurrency, labels) ==> Safe(t, concurrency))
    decreases |labels|
  {
    hide Next, WellFormed, Safe, Keeps;
    if labels != [] {
      NextKeepsWellFormed(s, limit, concurrency, labels[0]);
      RunKeeps(Next(s, limit, concurrency, labels[0]).value, limit, concurrency, labels[1..]);
    }
  }

  lemma {:induction false} RunAppend(s: State, limit: nat, concurrency: nat, a: seq<Label>, b: seq<Label>)
    requires Run(s, limit, concurrency, a).Some?
    ensures Run(s, limit, concurrency, a + b) == Run(Run(s, limit, concurrency, a).value, limit, concurrency, b)
    decreases |a|
  {
    hide Next;
    if a == [] {
      assert a + b == b;
    } else {
      assert (a + b)[1..] == a[1..] + b;
      RunAppend(Next(s, limit, concurrency, a[0]).value, limit, concurrency, a[1..], b);
    }
  }

  /** Goroutines that were launched may all start next. */
  lemma {:induction false} StartAll(s: State, limit: nat, concurrency: nat, keys: set<string>)
    returns (labels: seq<Label>)
    requires WellFormed(s) && limit >= concurrency
    requires forall k | k in keys :: Idles(s, k) && k in s.pending
    ensures OnlyLaunches(labels) && Run(s, limit, concurrency, labels).Some?
    ensures |Run(s, limit, concurrency, labels).value.wip| == |s.wip| + |keys|
    decreases keys
  {
    labels := [];
    if keys != {} {
      var k :| k in keys;
      var t := Next(s, limit, concurrency, Start(k)).value;
      NextKeepsWellFormed(s, limit, concurrency, Start(k));
      StartedOne(s, limit, concurrency, k, keys - {k});
      var rest := StartAll(t, limit, concurrency, keys - {k});
      labels := [Start(k)] + rest;
      assert labels[1..] == rest;
    }
  }

  lemma StartedOne(s: State, limit: nat, concurrency: nat, k: string, keys: set<string>)
    requires WellFormed(s) && Idles(s, k) && k in s.pending && k !in keys
    requires forall j | j in keys :: Idles(s, j) && j in s.pending
    ensures var t := Next(s, limit, concurrency, Start(k)).value;
            |t.wip| == |s.wip| + 1 && forall j | j in keys :: Idles(t, j) && j in t.pending
  {
    hide Without;
    if k in s.ready {
      Closes(s.ready, s.pending, |s.ready|, k);
    }
  }

  predicate OnlyLaunches(labels: seq<Label>) {
    forall i | 0 <= i < |labels| :: labels[i].Dispatch? || labels[i].Start?
  }

  lemma HeadAndMore(ready: seq<string>, q: nat, more: set<string>) returns (keys: set<string>)
    requires Distinct(ready) && q <= |ready|
    requires forall i | 0 <= i < q :: ready[i] !in more
    ensures |keys| == q + |more|
    ensures forall k | k in keys :: k in more || exists i :: 0 <= i < q && ready[i] == k
  {
    DistinctElements(ready[..q]);
    keys := Elements(ready[..q]) + more;
    forall k | k in keys && k !in more
      ensures exists i :: 0 <= i < q && ready[i] == k
    {
      var i :| 0 <= i < q && ready[..q][i] == k;
    }
    assert Elements(ready[..q]) !! more;
  }

  /** In an unsafe state more keys may start than there are slots: those a round launches, and the ones
      launched before. */
  lemma TooMany(s: State, limit: nat, concurrency: nat) returns (keys: set<string>)
    requires WellFormed(s) && limit >= concurrency && !Safe(s, concurrency) && |s.wip| <= concurrency
    ensures |keys| > Slots(s, concurrency)
    ensures var t := Next(s, limit, concurrency, Dispatch).value;
            forall k | k in keys :: Idles(t, k) && k in t.pending
  {
    hide Next, Distinct;
    var q := LaunchesHead(s, limit, concurrency);
    HeadJoins(s.ready, s.pending, q);
    if Within(s.ready, s.pending, Slots(s, concurrency)) {
      assert forall k | k in Stray(s) :: k !in s.ready;
      keys := HeadAndMore(s.ready, q, Stray(s));
    } else {
      var i :| 0 <= i < |s.ready| && s.ready[i] in s.pending && i >= Slots(s, concurrency);
      DifferentPlaces(s.ready, q, i);
      keys := HeadAndMore(s.ready, q, {s.ready[i]});
    }
  }

  lemma DifferentPlaces(ready: seq<string>, q: nat, i: nat)
    requires Distinct(ready) && q <= i < |ready|
    ensures forall j | 0 <= j < q :: ready[j] !in {ready[i]}
  {
  }

  /** And then dispatches and starts alone lead over the bound. */
  lemma UnsafeBreaks(s: State, limit: nat, concurrency: nat) returns (labels: seq<Label>)
    requires WellFormed(s) && limit >= concurrency && !Safe(s, concurrency)
    ensures OnlyLaunches(labels) && Run(s, limit, concurrency, labels).Some?
    ensures |Run(s, limit, concurrency, labels).value.wip| > concurrency
  {
    hide Safe, Launch, WellFormed;
    labels := [];
    if |s.wip| <= concurrency {
      var keys := TooMany(s, limit, concurrency);
      var t := Next(s, limit, concurrency, Dispatch).value;
      NextKeepsWellFormed(s, limit, concurrency, Dispatch);
      var rest := StartAll(t, limit, concurrency, keys);
      labels := [Dispatch] + rest;
      assert labels[1..] == rest;
    }
  }

  lemma {:induction false} LaunchesKeep(s: State, limit: nat, concurrency: nat, labels: seq<Label>)
    requires OnlyLaunches(labels) && Run(s, limit, concurrency, labels).Some?
    ensures AllKeep(s, limit, concurrency, labels)
    decreases |labels|
  {
    hide Next;
    if labels != [] {
      LaunchesKeep(Next(s, limit, concurrency, labels[0]).value, limit, concurrency, labels[1..]);
    }
  }

  // The theorems

  /** A state is safe if and only if no continuation breaks the bound, whatever rounds, starts and finishes
      it has, and whatever arrivals and requeues that meet their conditions. */
  lemma SafeIsExact(s: State, limit: nat, concurrency: nat)
    requires WellFormed(s) && limit >= concurrency
    ensures Safe(s, concurrency) <==>
            forall labels | Run(s, limit, concurrency, labels).Some? && AllKeep(s, limit, concurrency, labels) ::
              |Run(s, limit, concurrency, labels).value.wip| <= concurrency
  {
    hide Run, AllKeep, WellFormed;
    if Safe(s, concurrency) {
      forall labels | Run(s, limit, concurrency, labels).Some? && AllKeep(s, limit, concurrency, labels)
        ensures |Run(s, limit, concurrency, labels).value.wip| <= concurrency
      {
        RunKeeps(s, limit, concurrency, labels);
      }
    } else {
      var labels := UnsafeBreaks(s, limit, concurrency);
      LaunchesKeep(s, limit, concurrency, labels);
    }
  }

  /** Overlapping rounds keep the bound as long as every arrival, requeue, delay and raise meets its own
      condition, however they interleave with rounds, starts and finishes. */
  lemma OverlappingRoundsKeepBound(limit: nat, concurrency: nat, labels: seq<Label>)
    requires limit >= concurrency && Run(EMPTY, limit, concurrency, labels).Some?
    requires AllKeep(EMPTY, limit, concurrency, labels)
    ensures var s := Run(EMPTY, limit, concurrency, labels).value; |s.wip| <= concurrency && Safe(s, concurrency)
  {
    hide Run, AllKeep;
    assert Stray(EMPTY) == {};
    RunKeeps(EMPTY, limit, concurrency, labels);
  }

  /** And after the first step that does not, dispatches and starts alone may break it. */
  lemma UnkeptStepBreaksBound(s: State, limit: nat, concurrency: nat, l: Label) returns (labels: seq<Label>)
    requires WellFormed(s) && Safe(s, concurrency) && limit >= concurrency && Next(s, limit, concurrency, l).Some?
    requires !Keeps(s, concurrency, l)
    ensures OnlyLaunches(labels) && Run(s, limit, concurrency, [l] + labels).Some?
    ensures |Run(s, limit, concurrency, [l] + labels).value.wip| > concurrency
  {
    hide Next, Safe, Keeps, WellFormed;
    NextKeepsWellFormed(s, limit, concurrency, l);
    labels := UnsafeBreaks(Next(s, limit, concurrency, l).value, limit, concurrency);
    assert ([l] + labels)[1..] == labels;
  }

  // The shape of orderly runs

  /** The keys launched and not yet started are the first `p` of the ranking. */
  ghost predicate LaunchedPrefix(s: State, p: nat) {
    p <= |s.ready| && forall i | 0 <= i < |s.ready| :: s.ready[i] in s.pending <==> i < p
  }

  /** Keys arrive behind everything that is ready, not while they are launched, and none goes back. */
  predicate Orderly(s: State, l: Label) {
    l.Dispatch? || l.Start? || l.Finish? || (l.Arrive? && l.at == |s.ready| && l.key !in s.pending)
  }

  predicate AllOrderly(s: State, limit: nat, concurrency: nat, labels: seq<Label>)
    requires Run(s, limit, concurrency, labels).Some?
    decreases |labels|
  {
    labels == []
    || (Orderly(s, labels[0])
        && AllOrderly(Next(s, limit, concurrency, labels[0]).value, limit, concurrency, labels[1..]))
  }

  lemma StartKeepsPrefix(s: State, limit: nat, concurrency: nat, key: string, p: nat) returns (q: nat)
    requires WellFormed(s) && LaunchedPrefix(s, p) && Next(s, limit, concurrency, Start(key)).Some?
    ensures LaunchedPrefix(Next(s, limit, concurrency, Start(key)).value, q)
  {
    var t := Next(s, limit, concurrency, Start(key)).value;
    q := p;
    if key in s.ready {
      q := p - 1;
      Closes(s.ready, s.pending, p, key);
      forall i | 0 <= i < |t.ready|
        ensures t.ready[i] in t.pending <==> i < q
      {
        assert t.ready[i] == s.ready[if i < IndexOf(s.ready, key) then i else i + 1];
        assert t.ready[i] in t.ready;
      }
    }
  }

  lemma OrderlyKeepsPrefix(s: State, limit: nat, concurrency: nat, l: Label, p: nat) returns (q: nat)
    requires WellFormed(s) && LaunchedPrefix(s, p) && s.delayed == {} && limit >= concurrency
    requires Orderly(s, l) && Next(s, limit, concurrency, l).Some?
    ensures var t := Next(s, limit, concurrency, l).value; LaunchedPrefix(t, q) && t.delayed == {}
    ensures Keeps(s, concurrency, l)
  {
    hide Launch, Without;
    q := p;
    if l.Dispatch? {
      var head := LaunchesHead(s, limit, concurrency);
      HeadJoins(s.ready, s.pending, head);
      q := if p < head then head else p;
    } else if l.Start? {
      q := StartKeepsPrefix(s, limit, concurrency, l.key, p);
    }
  }

  lemma {:induction false} OrderlyRunKeepsPrefix(s: State, limit: nat, concurrency: nat, labels: seq<Label>, p: nat)
    returns (q: nat)
    requires WellFormed(s) && LaunchedPrefix(s, p) && s.delayed == {} && limit >= concurrency
    requires Run(s, limit, concurrency, labels).Some? && AllOrderly(s, limit, concurrency, labels)
    ensures LaunchedPrefix(Run(s, limit, concurrency, labels).value, q)
    ensures AllKeep(s, limit, concurrency, labels)
    decreases |labels|
  {
    hide Next, WellFormed, LaunchedPrefix, Keeps, Orderly;
    q := p;
    if labels != [] {
      var t := Next(s, limit, concurrency, labels[0]).value;
      NextKeepsWellFormed(s, limit, concurrency, labels[0]);
      q := OrderlyKeepsPrefix(s, limit, concurrency, labels[0], p);
      q := OrderlyRunKeepsPrefix(t, limit, concurrency, labels[1..], q);
    }
  }

  /** In orderly runs the launches in flight are the head of the ranking, and there is room for all of them. */
  lemma OrderlyLaunchesAreHead(limit: nat, concurrency: nat, labels: seq<Label>) returns (p: nat)
    requires limit >= concurrency && Run(EMPTY, limit, concurrency, labels).Some?
    requires AllOrderly(EMPTY, limit, concurrency, labels)
    ensures var s := Run(EMPTY, limit, concurrency, labels).value;
            LaunchedPrefix(s, p) && |s.wip| + p <= concurrency
  {
    hide Run, AllOrderly, AllKeep;
    p := OrderlyRunKeepsPrefix(EMPTY, limit, concurrency, labels, 0);
    OverlappingRoundsKeepBound(limit, concurrency, labels);
    var s := Run(EMPTY, limit, concurrency, labels).value;
    assert p > 0 ==> s.ready[p - 1] in s.pending;
  }

  // Keys that become ready together

  lemma WakeReflects(s: State, limit: nat, concurrency: nat, key: string, at: nat)
    requires Next(s, limit, concurrency, Wake(key, at)).Some? && key !in s.pending
    requires Safe(Next(s, limit, concurrency, Wake(key, at)).value, concurrency)
    ensures Safe(s, concurrency)
  {
    var t := Next(s, limit, concurrency, Wake(key, at)).value;
    forall i | 0 <= i < |s.ready| && s.ready[i] in s.pending
      ensures i < Slots(s, concurrency)
    {
      assert t.ready[if i < at then i else i + 1] == s.ready[i];
    }
    assert Stray(t) == Stray(s);
  }

  lemma {:induction false} OthersReflect(s: State, limit: nat, concurrency: nat, labels: seq<Label>)
    requires WellFormed(s) && limit >= concurrency
    requires forall l | l in labels :: l.Wake? && l.key !in s.pending
    requires Run(s, limit, concurrency, labels).Some? && Safe(Run(s, limit, concurrency, labels).value, concurrency)
    ensures Safe(s, concurrency) && AllKeep(s, limit, concurrency, labels)
    decreases |labels|
  {
    hide Safe, WellFormed, Keeps, InsertAt;
    if labels != [] {
      var t := Next(s, limit, concurrency, labels[0]).value;
      assert labels[0] in labels && forall l | l in labels[1..] :: l in labels;
      NextKeepsWellFormed(s, limit, concurrency, labels[0]);
      OthersReflect(t, limit, concurrency, labels[1..]);
      WakeReflects(s, limit, concurrency, labels[0].key, labels[0].at);
    }
  }

  /** Keys that become ready together do so harmlessly, the launched ones first, if the outcome is safe. */
  lemma {:induction false} WakesKeep(s: State, limit: nat, concurrency: nat, first: seq<Label>, others: seq<Label>)
    requires WellFormed(s) && limit >= concurrency
    requires forall l | l in first :: l.Wake? && l.key in s.pending
    requires forall l | l in others :: l.Wake? && l.key !in s.pending
    requires Run(s, limit, concurrency, first + others).Some?
    requires Safe(Run(s, limit, concurrency, first + others).value, concurrency)
    ensures AllKeep(s, limit, concurrency, first + others)
    decreases |first|
  {
    hide Safe, WellFormed, InsertAt;
    var labels := first + others;
    if first == [] {
      assert labels == others;
      OthersReflect(s, limit, concurrency, others);
    } else {
      assert labels[0] == first[0] && first[0] in first && labels[1..] == first[1..] + others;
      assert forall l | l in first[1..] :: l in first;
      NextKeepsWellFormed(s, limit, concurrency, labels[0]);
      WakesKeep(Next(s, limit, concurrency, labels[0]).value, limit, concurrency, first[1..], others);
    }
  }

  // Short runs to a step that breaks the bound, for a concurrency of one

  /** A chain of single steps is a run. */
  lemma {:induction false} Chain(states: seq<State>, labels: seq<Label>)
    requires |states| == |labels| + 1
    requires forall i | 0 <= i < |labels| :: Next(states[i], 1, 1, labels[i]) == Some(states[i + 1])
    ensures Run(states[0], 1, 1, labels) == Some(states[|labels|])
    decreases |labels|
  {
    hide Next;
    if labels != [] {
      Chain(states[1..], labels[1..]);
    }
  }

  /** A round with one open slot. */
  function Launched(s: State): State
    requires s.ready != []
  {
    s.(pending := s.pending + multiset{s.ready[0]})
  }

  /** With nothing in progress a round for one slot launches the first key. */
  lemma DispatchesFirst(s: State)
    requires WellFormed(s) && s.ready != [] && s.wip == {}
    ensures Next(s, 1, 1, Dispatch) == Some(Launched(s))
  {
    hide Launch;
    var q := LaunchesHead(s, 1, 1);
    assert s.ready[..q] == [s.ready[0]];
  }

  function Queued(ready: seq<string>): State {
    EMPTY.(ready := ready)
  }

  lemma Arrivals(a: string, b: string)
    requires a != b
    ensures Next(EMPTY, 1, 1, Arrive(a, 0)) == Some(Queued([a]))
    ensures Next(Queued([a]), 1, 1, Arrive(b, 1)) == Some(Queued([a, b]))
  {
    assert InsertAt([], 0, a) == [a] && InsertAt([a], 1, b) == [a, b];
  }

  lemma BreaksAfter(before: seq<Label>, s: State, l: Label) returns (labels: seq<Label>)
    requires Run(EMPTY, 1, 1, before) == Some(s) && WellFormed(s) && Safe(s, 1)
    requires Next(s, 1, 1, l).Some? && !Keeps(s, 1, l)
    ensures before + [l] <= labels && OnlyLaunches(labels[|before| + 1..])
    ensures Run(EMPTY, 1, 1, labels).Some? && |Run(EMPTY, 1, 1, labels).value.wip| > 1
  {
    hide Run, Next, Safe, Keeps;
    var rest := UnkeptStepBreaksBound(s, 1, 1, l);
    RunAppend(EMPTY, 1, 1, before, [l] + rest);
    labels := before + ([l] + rest);
    assert before + [l] == labels[..|before| + 1] && labels[|before| + 1..] == rest;
  }

  /** A key that arrives ahead of a launched one. */
  lemma OvertakingBreaksBound(a: string, b: string) returns (labels: seq<Label>)
    requires a != b
    ensures [Arrive(a, 0), Dispatch, Arrive(b, 0)] <= labels && OnlyLaunches(labels[3..])
    ensures Run(EMPTY, 1, 1, labels).Some? && |Run(EMPTY, 1, 1, labels).value.wip| > 1
  {
    hide Run, Launch;
    var s := Launched(Queued([a]));
    Arrivals(a, b);
    DispatchesFirst(Queued([a]));
    Chain([EMPTY, Queued([a]), s], [Arrive(a, 0), Dispatch]);
    assert Stray(s) == {} && s.ready[0] in s.pending && b !in s.ready;
    labels := BreaksAfter([Arrive(a, 0), Dispatch], s, Arrive(b, 0));
    assert [Arrive(a, 0), Dispatch] + [Arrive(b, 0)] == [Arrive(a, 0), Dispatch, Arrive(b, 0)];
  }

  /** A key launched twice goes back behind another between its two starts. */
  lemma RequeueBreaksBound(a: string, b: string) returns (labels: seq<Label>)
    requires a != b
    ensures [Arrive(a, 0), Arrive(b, 1), Dispatch, Dispatch, Start(a), Label.Requeue(a, 1)] <= labels
    ensures OnlyLaunches(labels[6..])
    ensures Run(EMPTY, 1, 1, labels).Some? && |Run(EMPTY, 1, 1, labels).value.wip| > 1
  {
    hide Run, Launch, Safe, Keeps;
    var once := Launched(Queued([a, b]));
    var twice := Launched(once);
    var before := [Arrive(a, 0), Arrive(b, 1), Dispatch, Dispatch, Start(a)];
    Arrivals(a, b);
    DispatchesFirst(Queued([a, b]));
    DispatchesFirst(once);
    var s := Next(twice, 1, 1, Start(a)).value;
    StartsFirst(twice, a, b);
    Chain([EMPTY, Queued([a]), Queued([a, b]), once, twice, s], before);
    labels := BreaksAfter(before, s, Label.Requeue(a, 1));
    assert before + [Label.Requeue(a, 1)]
        == [Arrive(a, 0), Arrive(b, 1), Dispatch, Dispatch, Start(a), Label.Requeue(a, 1)];
  }

  lemma StartsFirst(s: State, a: string, b: string)
    requires a != b && s.ready == [a, b] && s.delayed == {} && s.wip == {} && s.pending[a] >= 2 && b !in s.pending
    ensures Next(s, 1, 1, Start(a)).Some?
    ensures var t := Next(s, 1, 1, Start(a)).value;
            WellFormed(t) && Safe(t, 1) && Next(t, 1, 1, Label.Requeue(a, 1)).Some? && !Keeps(t, 1, Label.Requeue(a, 1))
  {
    var t := Next(s, 1, 1, Start(a)).value;
    assert IndexOf([a, b], a) == 0 && Without([a, b], a) == [b];
    assert t.ready == [b] && t.wip == {a} && Stray(t) == {};
  }

  /** A launched key is queued again with a later not-before, and the next key is launched in its place. */
  lemma DelayBreaksBound(a: string, b: string) returns (labels: seq<Label>)
    requires a != b
    ensures [Arrive(a, 0), Arrive(b, 1), Dispatch, Delay(a)] <= labels && OnlyLaunches(labels[4..])
    ensures Run(EMPTY, 1, 1, labels).Some? && |Run(EMPTY, 1, 1, labels).value.wip| > 1
  {
    hide Run, Launch;
    var s := Launched(Queued([a, b]));
    var before := [Arrive(a, 0), Arrive(b, 1), Dispatch];
    Arrivals(a, b);
    DispatchesFirst(Queued([a, b]));
    Chain([EMPTY, Queued([a]), Queued([a, b]), s], before);
    assert Stray(s) == {} && s.ready[0] in s.pending && s.ready[1] !in s.pending;
    labels := BreaksAfter(before, s, Delay(a));
    assert before + [Delay(a)] == [Arrive(a, 0), Arrive(b, 1), Dispatch, Delay(a)];
  }
}
