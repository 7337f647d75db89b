/** The HTTP handler: one request dispatches, one waits, and the others are answered at once because
    the waiting one will dispatch for them. Every lock operation is one step. */
module WaitingRoom {
  import opened Wrappers

  /** What a request does next. */
  datatype Phase =
    | TryWork      // doWork.TryLock
    | TryWait      // doWait.TryLock
    | LockWork     // in the waiting room: doWork.Lock
    | LeaveRoom    // holding both locks: doWait.Unlock
    | Dispatch     // about to begin HandleAsync, which starts with Enumerate
    | UnlockWork   // HandleAsync returned: the deferred doWork.Unlock
    | Await        // waiting for the round's future
    | Answered

  datatype Request = Request(phase: Phase, arrived: nat)

  /** The holders of the two mutexes, the requests in order of arrival, a count of steps as clock, and
      the time at which the latest dispatch began. */
  datatype State = State(doWork: Option<nat>, doWait: Option<nat>, requests: seq<Request>, clock: nat,
                         lastDispatch: nat)

  const INIT := State(None, None, [], 1, 0)

  /** Go's TryLock may fail on a mutex that is free but contended; `Contend` is a failure of the one on
      doWork. Nothing ever waits for doWait, so the one on doWait fails only while that is held. */
  datatype Label = Arrive | Step(r: nat) | Contend(r: nat)

  function Become(s: State, r: nat, phase: Phase): State
    requires r < |s.requests|
  {
    s.(requests := s.requests[r := s.requests[r].(phase := phase)], clock := s.clock + 1)
  }

  function Next(s: State, l: Label): Option<State> {
    if l.Arrive? then Some(s.(requests := s.requests + [Request(TryWork, s.clock)], clock := s.clock + 1))
    else if l.r >= |s.requests| then None
    else if l.Contend? then
      if s.requests[l.r].phase.TryWork? then Some(Become(s, l.r, TryWait)) else None
    else
      var r := l.r;
      match s.requests[r].phase
      case TryWork =>
        if s.doWork.None? then Some(Become(s, r, Dispatch).(doWork := Some(r))) else Some(Become(s, r, TryWait))
      case TryWait =>
        if s.doWait.None? then Some(Become(s, r, LockWork).(doWait := Some(r))) else Some(Become(s, r, Answered))
      case LockWork =>
        if s.doWork.None? then Some(Become(s, r, LeaveRoom).(doWork := Some(r))) else None
      case LeaveRoom => Some(Become(s, r, Dispatch).(doWait := None))
      case Dispatch => Some(Become(s, r, UnlockWork).(lastDispatch := s.clock))
      case UnlockWork => Some(Become(s, r, Await).(doWork := None))
      case Await => Some(Become(s, r, Answered))
      case Answered => None
  }

  function Run(s: State, labels: seq<Label>): Option<State>
    decreases |labels|
  {
    if labels == [] then Some(s)
    else
      var t := Next(s, labels[0]);
      if t.None? then None else Run(t.value, labels[1..])
  }

  // The invariant

  predicate HoldsWork(p: Phase) {
    p.LeaveRoom? || p.Dispatch? || p.UnlockWork?
  }

  predicate HoldsWait(p: Phase) {
    p.LockWork? || p.LeaveRoom?
  }

  /** This request has yet to begin its dispatch and no longer depends on a TryLock. */
  predicate WillDispatch(p: Phase) {
    p.LockWork? || p.LeaveRoom? || p.Dispatch?
  }

  /** Past its own TryLocks. */
  predicate Committed(p: Phase) {
    !p.TryWork? && !p.TryWait?
  }

  /** A dispatch began after the request arrived, or some request is bound to begin one. */
  ghost predicate Served(s: State, r: nat)
    requires r < |s.requests|
  {
    s.requests[r].arrived < s.lastDispatch || exists w | 0 <= w < |s.requests| :: WillDispatch(s.requests[w].phase)
  }

  /** The mutexes are held by those who acquired them. */
  ghost predicate Locks(s: State) {
    && (forall r: nat | r < |s.requests| :: HoldsWork(s.requests[r].phase) <==> s.doWork == Some(r))
    && (forall r: nat | r < |s.requests| :: HoldsWait(s.requests[r].phase) <==> s.doWait == Some(r))
    && (s.doWork.Some? ==> s.doWork.value < |s.requests|)
    && (s.doWait.Some? ==> s.doWait.value < |s.requests|)
  }

  ghost predicate Inv(s: State) {
    && Locks(s)
    && (forall r: nat | r < |s.requests| :: s.requests[r].arrived < s.clock)
    && (forall r: nat | r < |s.requests| && Committed(s.requests[r].phase) :: Served(s, r))
  }

  lemma NextKeepsLocks(s: State, l: Label)
    requires Locks(s) && Next(s, l).Some?
    ensures Locks(Next(s, l).value)
  {
    var t := Next(s, l).value;
    forall r: nat | r < |t.requests|
      ensures HoldsWork(t.requests[r].phase) <==> t.doWork == Some(r)
      ensures HoldsWait(t.requests[r].phase) <==> t.doWait == Some(r)
    {
      if r < |s.requests| {
        assert HoldsWork(s.requests[r].phase) <==> s.doWork == Some(r);
        assert HoldsWait(s.requests[r].phase) <==> s.doWait == Some(r);
      }
    }
  }

  lemma NextKeepsInv(s: State, l: Label)
    requires Inv(s) && Next(s, l).Some?
    ensures Inv(Next(s, l).value)
  {
    hide Served, Locks;
    NextKeepsLocks(s, l);
    var t := Next(s, l).value;
    forall r: nat | r < |t.requests| && Committed(t.requests[r].phase)
      ensures Served(t, r)
    {
      if r < |s.requests| && Committed(s.requests[r].phase) {
        KeepsServed(s, l, r);
      } else {
        BecomesServed(s, l, r);
      }
    }
  }

  /** The request bound to dispatch stays bound until it does, and then everyone who is here is served. */
  lemma KeepsServed(s: State, l: Label, r: nat)
    requires Inv(s) && Next(s, l).Some? && r < |s.requests| && Served(s, r)
    ensures Served(Next(s, l).value, r)
  {
    var t := Next(s, l).value;
    if s.requests[r].arrived >= s.lastDispatch {
      var w :| 0 <= w < |s.requests| && WillDispatch(s.requests[w].phase);
      if l == Step(w) && s.requests[w].phase.Dispatch? {
        assert t.lastDispatch == s.clock;
      } else {
        assert WillDispatch(t.requests[w].phase);
      }
    }
  }

  /** Whoever gets past the TryLocks holds a lock, or found the waiting room occupied. */
  lemma BecomesServed(s: State, l: Label, r: nat)
    requires Inv(s) && Next(s, l).Some? && r < |Next(s, l).value.requests|
             && Committed(Next(s, l).value.requests[r].phase)
    requires r < |s.requests| ==> !Committed(s.requests[r].phase)
    ensures Served(Next(s, l).value, r)
  {
    var t := Next(s, l).value;
    if s.requests[r].phase.TryWait? && s.doWait.Some? {
      var w := s.doWait.value;
      assert HoldsWait(s.requests[w].phase);
      assert WillDispatch(t.requests[w].phase);
    } else {
      assert WillDispatch(t.requests[r].phase);
    }
  }

  lemma {:induction false} RunKeepsInv(s: State, labels: seq<Label>)
    requires Inv(s) && Run(s, labels).Some?
    ensures Inv(Run(s, labels).value)
    decreases |labels|
  {
    hide Next, Inv;
    if labels != [] {
      NextKeepsInv(s, labels[0]);
      RunKeepsInv(Next(s, labels[0]).value, labels[1..]);
    }
  }

  // The theorems

  /** At most one request holds the dispatch lock and at most one occupies the waiting room. */
  lemma OneDispatchesOneWaits(labels: seq<Label>, q: nat, r: nat)
    requires Run(INIT, labels).Some? && q < r < |Run(INIT, labels).value.requests|
    ensures var s := Run(INIT, labels).value;
            && !(HoldsWork(s.requests[q].phase) && HoldsWork(s.requests[r].phase))
            && !(HoldsWait(s.requests[q].phase) && HoldsWait(s.requests[r].phase))
  {
    hide Run;
    RunKeepsInv(INIT, labels);
  }

  /** A request that was answered has been followed by a dispatch that began after it arrived, or a
      request is present that has yet to begin one and will. */
  lemma NoLostTrigger(labels: seq<Label>, r: nat)
    requires Run(INIT, labels).Some? && r < |Run(INIT, labels).value.requests|
    requires Run(INIT, labels).value.requests[r].phase.Answered?
    ensures var s := Run(INIT, labels).value;
            s.requests[r].arrived < s.lastDispatch
            || exists w | 0 <= w < |s.requests| :: WillDispatch(s.requests[w].phase)
  {
    hide Run;
    RunKeepsInv(INIT, labels);
    assert Served(Run(INIT, labels).value, r);
  }

  /** No reachable state deadlocks: while a request is unanswered some request can take a step. */
  lemma NoDeadlock(labels: seq<Label>, r: nat) returns (mover: nat)
    requires Run(INIT, labels).Some? && r < |Run(INIT, labels).value.requests|
    requires !Run(INIT, labels).value.requests[r].phase.Answered?
    ensures Next(Run(INIT, labels).value, Step(mover)).Some?
  {
    hide Run;
    RunKeepsInv(INIT, labels);
    var s := Run(INIT, labels).value;
    if s.requests[r].phase.LockWork? && s.doWork.Some? {
      mover := s.doWork.value;
      assert HoldsWork(s.requests[mover].phase);
    } else {
      mover := r;
    }
  }

  /** How many steps a request has left at most. */
  function StepsLeft(p: Phase): nat {
    match p
    case TryWork => 7
    case TryWait => 6
    case LockWork => 5
    case LeaveRoom => 4
    case Dispatch => 3
    case UnlockWork => 2
    case Await => 1
    case Answered => 0
  }

  function Total(requests: seq<Request>): nat {
    if requests == [] then 0 else Total(requests[..|requests| - 1]) + StepsLeft(requests[|requests| - 1].phase)
  }

  lemma {:induction false} TotalChanges(requests: seq<Request>, r: nat, q: Request)
    requires r < |requests|
    ensures Total(requests[r := q]) == Total(requests) - StepsLeft(requests[r].phase) + StepsLeft(q.phase)
  {
    var n := |requests| - 1;
    var changed := requests[r := q];
    if r == n {
      assert changed[..n] == requests[..n];
    } else {
      TotalChanges(requests[..n], r, q);
      assert changed[..n] == requests[..n][r := q];
    }
  }

  predicate OnlySteps(labels: seq<Label>) {
    forall i | 0 <= i < |labels| :: !labels[i].Arrive?
  }

  /** Nothing spins: once requests stop arriving, only so many steps remain, in any interleaving. */
  lemma {:induction false} StepsAreBounded(s: State, labels: seq<Label>)
    requires Run(s, labels).Some? && OnlySteps(labels)
    ensures |labels| + Total(Run(s, labels).value.requests) <= Total(s.requests)
    ensures |Run(s, labels).value.requests| == |s.requests|
    ensures forall r | 0 <= r < |s.requests| :: Run(s, labels).value.requests[r].arrived == s.requests[r].arrived
    decreases |labels|
  {
    hide Next;
    if labels != [] {
      StepCounts(s, labels[0]);
      StepsAreBounded(Next(s, labels[0]).value, labels[1..]);
    }
  }

  lemma StepCounts(s: State, l: Label)
    requires !l.Arrive? && Next(s, l).Some?
    ensures var t := Next(s, l).value;
            && Total(t.requests) < Total(s.requests) && |t.requests| == |s.requests|
            && forall r | 0 <= r < |s.requests| :: t.requests[r].arrived == s.requests[r].arrived
  {
    hide Total;
    TotalChanges(s.requests, l.r, Next(s, l).value.requests[l.r]);
  }

  /** So a run that cannot go on without a new arrival has answered every request, and a dispatch began
      after each of them arrived. */
  lemma QuietMeansServed(labels: seq<Label>, r: nat)
    requires Run(INIT, labels).Some? && r < |Run(INIT, labels).value.requests|
    requires forall q: nat :: Next(Run(INIT, labels).value, Step(q)).None?
    ensures Run(INIT, labels).value.requests[r].phase.Answered?
    ensures Run(INIT, labels).value.requests[r].arrived < Run(INIT, labels).value.lastDispatch
  {
    hide Run, Next;
    var s := Run(INIT, labels).value;
    forall q: nat | q < |s.requests|
      ensures s.requests[q].phase.Answered?
    {
      if !s.requests[q].phase.Answered? {
        var mover := NoDeadlock(labels, q);
      }
    }
    NoLostTrigger(labels, r);
  }

  // What the handler does for single requests

  /** A request that finds no one dispatching dispatches at once, with a single lock operation; one that finds
      a dispatcher waits in the room if that is empty, and is answered if it is not. */
  lemma AdmittedExactly(s: State, r: nat)
    requires r < |s.requests|
    ensures s.requests[r].phase.TryWork? ==>
              Next(s, Step(r)).Some? && Next(s, Step(r)).value.requests[r].phase
                                        == if s.doWork.None? then Dispatch else TryWait
    ensures s.requests[r].phase.TryWait? ==>
              Next(s, Step(r)).Some? && Next(s, Step(r)).value.requests[r].phase
                                        == if s.doWait.None? then LockWork else Answered
  {
  }

  /** A lone request dispatches, lets go of its lock, waits for the round and is answered. */
  lemma LoneRequest()
    ensures var s := Run(INIT, [Arrive, Step(0), Step(0)]);
            s.Some? && s.value.lastDispatch > s.value.requests[0].arrived && s.value.doWork == Some(0)
    ensures var s := Run(INIT, [Arrive, Step(0), Step(0), Step(0), Step(0)]);
            s.Some? && s.value.requests[0].phase.Answered? && s.value.doWork.None? && s.value.doWait.None?
  {
    hide Next;
    var s1 := State(None, None, [Request(TryWork, 1)], 2, 0);
    var s2 := State(Some(0), None, [Request(Dispatch, 1)], 3, 0);
    var s3 := State(Some(0), None, [Request(UnlockWork, 1)], 4, 3);
    var s4 := State(None, None, [Request(Await, 1)], 5, 3);
    var s5 := State(None, None, [Request(Answered, 1)], 6, 3);
    LoneSteps(s1, s2, s3, s4, s5);
    Chain([INIT, s1, s2, s3], [Arrive, Step(0), Step(0)]);
    Chain([INIT, s1, s2, s3, s4, s5], [Arrive, Step(0), Step(0), Step(0), Step(0)]);
  }

  lemma LoneSteps(s1: State, s2: State, s3: State, s4: State, s5: State)
    requires s1 == State(None, None, [Request(TryWork, 1)], 2, 0)
    requires s2 == State(Some(0), None, [Request(Dispatch, 1)], 3, 0)
    requires s3 == State(Some(0), None, [Request(UnlockWork, 1)], 4, 3)
    requires s4 == State(None, None, [Request(Await, 1)], 5, 3)
    requires s5 == State(None, None, [Request(Answered, 1)], 6, 3)
    ensures Next(INIT, Arrive) == Some(s1) && Next(s1, Step(0)) == Some(s2) && Next(s2, Step(0)) == Some(s3)
    ensures Next(s3, Step(0)) == Some(s4) && Next(s4, Step(0)) == Some(s5)
  {
    assert Next(INIT, Arrive).value.requests == [Request(TryWork, 1)];
    assert Next(s1, Step(0)).value.requests == [Request(Dispatch, 1)];
    assert Next(s2, Step(0)).value.requests == [Request(UnlockWork, 1)];
    assert Next(s3, Step(0)).value.requests == [Request(Await, 1)];
    assert Next(s4, Step(0)).value.requests == [Request(Answered, 1)];
  }

  /** A chain of single steps is a run. */
  lemma {:induction false} Chain(states: seq<State>, labels: seq<Label>)
    requires |states| == |labels| + 1
    requires forall i | 0 <= i < |labels| :: Next(states[i], labels[i]) == Some(states[i + 1])
    ensures Run(states[0], labels) == Some(states[|labels|])
    decreases |labels|
  {
    hide Next;
    if labels != [] {
      Chain(states[1..], labels[1..]);
    }
  }

  /** The occupant of the waiting room gets the dispatch lock and only then leaves the room: for one step it
      holds both locks, and then it dispatches. */
  lemma OccupantGoesOn(s: State, r: nat)
    requires r < |s.requests| && s.requests[r].phase.LockWork? && s.doWork.None?
    ensures Next(s, Step(r)).Some? && Next(Next(s, Step(r)).value, Step(r)).Some?
    ensures var t := Next(s, Step(r)).value; t.doWork == Some(r) && t.doWait == s.doWait
    ensures var u := Next(Next(s, Step(r)).value, Step(r)).value;
            u.doWork == Some(r) && u.doWait.None? && u.requests[r].phase.Dispatch?
  {
  }
}
