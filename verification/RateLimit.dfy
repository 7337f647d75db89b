/** The pausing rate limiter. `PauseFor` and the end of each timer goroutine run under one mutex, so
    each is one step; timers may fire late and in any order.

    Channels are numbered in the order they are made. */
module RateLimit {
  import opened Wrappers
  import opened Timestamp

  /** `timers` holds, for each goroutine whose timer has not fired, the channel and the earliest
      instant it can. */
  datatype State = State(
    now: Time,
    pauseUntil: Time,
    pauseCh: Option<nat>,
    made: nat,
    closed: set<nat>,
    timers: map<nat, Time>)

  function AfterPauseFor(s: State, d: Time): State {
    var until := s.now + d;
    if until <= s.pauseUntil then s
    else s.(pauseUntil := until, pauseCh := Some(s.made), made := s.made + 1,
            closed := if s.pauseCh.Some? then s.closed + {s.pauseCh.value} else s.closed,
            timers := s.timers[s.made := until])
  }

  /** Only the timer of the current channel opens the gate; a superseded one does nothing. */
  function AfterTimer(s: State, ch: nat): State {
    var s := s.(timers := s.timers - {ch});
    if s.pauseCh != Some(ch) then s
    else s.(closed := s.closed + {ch}, pauseCh := None, pauseUntil := 0)
  }

  class Limiter {
    var now: Time
    var pauseUntil: Time
    var pauseCh: Option<nat>
    var made: nat
    var closed: set<nat>
    var timers: map<nat, Time>

    ghost function View(): State
      reads this
    {
      State(now, pauseUntil, pauseCh, made, closed, timers)
    }

    constructor (now: Time)
      requires now > 0
      ensures View() == Init(now) && Inv(View())
    {
      this.now, pauseUntil, pauseCh, made, closed, timers := now, 0, None, 0, {}, map[];
    }

    /** Closing a closed channel panics. */
    method Close(ch: nat)
      requires ch !in closed
      modifies this`closed
      ensures closed == old(closed) + {ch}
    {
      closed := closed + {ch};
    }

    method PauseFor(d: Time)
      requires Inv(View())
      modifies this
      ensures View() == AfterPauseFor(old(View()), d) && Inv(View())
    {
      PauseKeepsInv(View(), d);
      var until := now + d;
      if until > pauseUntil {
        pauseUntil := until;
        if pauseCh.Some? {
          Close(pauseCh.value);
        }
        pauseCh := Some(made);
        timers := timers[made := until];
        made := made + 1;
      }
    }

    /** What the goroutine of channel `ch` does once its timer has fired. */
    method Expire(ch: nat)
      requires Inv(View()) && ch in timers && timers[ch] <= now
      modifies this
      ensures View() == AfterTimer(old(View()), ch) && Inv(View())
    {
      TimerKeepsInv(View(), ch);
      timers := timers - {ch};
      if pauseCh == Some(ch) {
        Close(ch);
        pauseCh := None;
        pauseUntil := 0;
      }
    }

    /** The channel a caller of `Wait` blocks on, if it blocks: it is open at this moment. */
    method Wait() returns (ch: Option<nat>)
      requires Inv(View())
      ensures ch == pauseCh && (ch.Some? ==> ch.value !in closed)
    {
      ch := pauseCh;
    }
  }

  // Runs

  datatype Label = Tick(to: Time) | Pause(d: Time) | Fire(ch: nat)

  function Init(now: Time): State {
    State(now, 0, None, 0, {}, map[])
  }

  function Next(s: State, l: Label): Option<State> {
    match l
    case Tick(to) => if s.now <= to then Some(s.(now := to)) else None
    case Pause(d) => Some(AfterPauseFor(s, d))
    case Fire(ch) => if ch in s.timers && s.timers[ch] <= s.now then Some(AfterTimer(s, ch)) else None
  }

  function Run(s: State, labels: seq<Label>): Option<State>
    decreases |labels|
  {
    if labels == [] then Some(s)
    else
      var t := Next(s, labels[0]);
      if t.None? then None else Run(t.value, labels[1..])
  }

  /** The channel a step closes. */
  function Closes(s: State, l: Label): Option<nat> {
    match l
    case Tick(_) => None
    case Pause(d) => if s.now + d > s.pauseUntil then s.pauseCh else None
    case Fire(ch) => if s.pauseCh == Some(ch) then Some(ch) else None
  }

  /** The gate is shut: callers of `Wait` block. */
  predicate Shut(s: State) {
    s.pauseCh.Some? && s.pauseCh.value !in s.closed
  }

  /** The current channel is open and has a timer that fires no earlier than `pauseUntil`; every other
      channel made is closed. */
  ghost predicate Inv(s: State) {
    && s.now > 0
    && (forall ch: nat :: ch in s.closed <==> ch < s.made && s.pauseCh != Some(ch))
    && (forall ch | ch in s.timers :: ch < s.made)
    && (s.pauseCh.Some? ==> s.pauseCh.value < s.made && s.pauseCh.value in s.timers)
    && (s.pauseCh.Some? ==> s.timers[s.pauseCh.value] == s.pauseUntil)
    && (s.pauseCh.None? ==> s.pauseUntil == 0)
  }

  lemma PauseKeepsInv(s: State, d: Time)
    requires Inv(s)
    ensures Inv(AfterPauseFor(s, d))
    ensures s.now + d > s.pauseUntil && s.pauseCh.Some? ==> s.pauseCh.value !in s.closed
  {
  }

  lemma TimerKeepsInv(s: State, ch: nat)
    requires Inv(s)
    ensures Inv(AfterTimer(s, ch))
    ensures s.pauseCh == Some(ch) ==> ch !in s.closed
  {
  }

  lemma NextKeepsInv(s: State, l: Label)
    requires Inv(s) && Next(s, l).Some?
    ensures Inv(Next(s, l).value)
  {
    match l
    case Tick(to) =>
    case Pause(d) => PauseKeepsInv(s, d);
    case Fire(ch) => TimerKeepsInv(s, ch);
  }

  lemma {:induction false} RunKeepsInv(s: State, labels: seq<Label>)
    requires Inv(s) && Run(s, labels).Some?
    ensures Inv(Run(s, labels).value)
    decreases |labels|
  {
    if labels != [] {
      NextKeepsInv(s, labels[0]);
      RunKeepsInv(Next(s, labels[0]).value, labels[1..]);
    }
  }

  /** Until `u` the gate stays shut. */
  predicate PausedUntil(s: State, u: Time) {
    s.now < u ==> s.pauseCh.Some? && s.pauseUntil >= u
  }

  lemma {:induction false} RunKeepsPaused(s: State, labels: seq<Label>, u: Time)
    requires Inv(s) && PausedUntil(s, u) && Run(s, labels).Some?
    ensures PausedUntil(Run(s, labels).value, u) && Inv(Run(s, labels).value)
    decreases |labels|
  {
    if labels != [] {
      NextKeepsInv(s, labels[0]);
      RunKeepsPaused(Next(s, labels[0]).value, labels[1..], u);
    }
  }

  /** After `PauseFor(d)` at instant t the gate is shut at every instant before t + d, whatever other
      pauses and timers do meanwhile. */
  lemma PauseGate(start: Time, before: seq<Label>, d: Time, after: seq<Label>)
    requires start > 0 && Run(Init(start), before).Some?
    requires Run(AfterPauseFor(Run(Init(start), before).value, d), after).Some?
    ensures var paused := Run(Init(start), before).value;
            var s := Run(AfterPauseFor(paused, d), after).value;
            s.now < paused.now + d ==> Shut(s)
  {
    hide Run;
    RunKeepsInv(Init(start), before);
    var paused := Run(Init(start), before).value;
    PauseKeepsInv(paused, d);
    RunKeepsPaused(AfterPauseFor(paused, d), after, paused.now + d);
  }

  // How long a pause lasts, read off the labels of a run

  /** The clock after a run. */
  function Clock(start: Time, labels: seq<Label>): Time {
    if labels == [] then start
    else match labels[|labels| - 1]
      case Tick(to) => to
      case _ => Clock(start, labels[..|labels| - 1])
  }

  predicate ShutAfter(start: Time, labels: seq<Label>) {
    Run(Init(start), labels).Some? && Shut(Run(Init(start), labels).value)
  }

  /** The ends of the pauses asked for since the gate last opened: the instant of each call plus its duration. */
  function Asked(start: Time, labels: seq<Label>): set<Time> {
    if labels == [] then {}
    else
      var before, l := labels[..|labels| - 1], labels[|labels| - 1];
      if l.Pause? then Asked(start, before) + {Clock(start, before) + l.d}
      else if ShutAfter(start, before) && !ShutAfter(start, labels) then {}
      else Asked(start, before)
  }

  lemma {:induction false} RunSnoc(s: State, labels: seq<Label>)
    requires labels != []
    ensures var before := Run(s, labels[..|labels| - 1]);
            Run(s, labels) == if before.None? then None else Next(before.value, labels[|labels| - 1])
    decreases |labels|
  {
    hide Next;
    if |labels| == 1 {
      assert labels[..0] == [] && labels[1..] == [];
    } else {
      var t := Next(s, labels[0]);
      assert labels[1..][..|labels| - 2] == labels[..|labels| - 1][1..];
      if t.Some? {
        RunSnoc(t.value, labels[1..]);
      }
    }
  }

  /** While the gate is shut the pause ends at the latest end asked for since the gate last opened; while it
      is open no end asked for since lies in the future of the zero time. */
  lemma {:induction false} PauseUntilIsMaximum(start: Time, labels: seq<Label>)
    requires start > 0 && Run(Init(start), labels).Some?
    ensures var s := Run(Init(start), labels).value;
            && s.now == Clock(start, labels)
            && (forall u | u in Asked(start, labels) :: u <= s.pauseUntil)
            && (if Shut(s) then s.pauseUntil in Asked(start, labels) else s.pauseUntil == 0)
    decreases |labels|
  {
    hide Run;
    RunKeepsInv(Init(start), labels);
    if labels != [] {
      var before := labels[..|labels| - 1];
      RunSnoc(Init(start), labels);
      PauseUntilIsMaximum(start, before);
      RunKeepsInv(Init(start), before);
    } else {
      assert Run(Init(start), labels) == Some(Init(start)) by {
        EmptyRun(Init(start));
      }
    }
  }

  lemma EmptyRun(s: State)
    ensures Run(s, []) == Some(s)
  {
  }

  /** A pause ends as early as it may: from any reachable state, a pause that ends after the current one and
      is not negative can be over at the instant it was asked to end, when its timer leaves the gate open. */
  lemma PauseEndsInTime(start: Time, labels: seq<Label>, d: Time)
    requires start > 0 && Run(Init(start), labels).Some? && d >= 0
    requires forall u | u in Asked(start, labels) :: u < Clock(start, labels) + d
    ensures exists ch ::
              var end := Run(Init(start), labels + [Pause(d), Tick(Clock(start, labels) + d), Fire(ch)]);
              end.Some? && !Shut(end.value) && end.value.now == Clock(start, labels) + d
  {
    hide Run;
    PauseUntilIsMaximum(start, labels);
    RunKeepsInv(Init(start), labels);
    var s := Run(Init(start), labels).value;
    var until := Clock(start, labels) + d;
    var more := labels + [Pause(d), Tick(until), Fire(s.made)];
    assert more[..|more| - 1] == labels + [Pause(d), Tick(until)];
    assert (labels + [Pause(d), Tick(until)])[..|labels| + 1] == labels + [Pause(d)];
    assert (labels + [Pause(d)])[..|labels|] == labels;
    RunSnoc(Init(start), labels + [Pause(d)]);
    RunSnoc(Init(start), labels + [Pause(d), Tick(until)]);
    RunSnoc(Init(start), more);
  }

  /** No timer opens the gate before the latest end asked for, and the current channel's may from then on. */
  lemma OpensExactlyFrom(start: Time, labels: seq<Label>, l: Label)
    requires start > 0 && ShutAfter(start, labels) && Next(Run(Init(start), labels).value, l).Some?
    ensures var s := Run(Init(start), labels).value;
            !Shut(Next(s, l).value) ==> forall u | u in Asked(start, labels) :: u <= s.now
    ensures var s := Run(Init(start), labels).value;
            (forall u | u in Asked(start, labels) :: u <= s.now) ==>
              Next(s, Fire(s.pauseCh.value)).Some? && !Shut(Next(s, Fire(s.pauseCh.value)).value)
  {
    hide Run;
    PauseUntilIsMaximum(start, labels);
    RunKeepsInv(Init(start), labels);
  }

  /** Every channel is closed exactly once: every one but the current one is closed, and no step closes
      a closed one. */
  lemma ClosedExactlyOnce(start: Time, labels: seq<Label>, l: Label)
    requires start > 0 && Run(Init(start), labels).Some?
    ensures var s := Run(Init(start), labels).value;
            && (forall ch: nat | ch < s.made :: ch in s.closed <==> s.pauseCh != Some(ch))
            && (Closes(s, l).Some? ==> Closes(s, l).value !in s.closed)
            && (Next(s, l).Some? ==>
                  Next(s, l).value.closed == s.closed + (if Closes(s, l).Some? then {Closes(s, l).value} else {}))
  {
    hide Run;
    RunKeepsInv(Init(start), labels);
  }

  /** A caller blocked on the current channel is released by its timer or by a longer pause, and by
      nothing else. In the second case it is released although the gate is still shut, because `Wait`
      does not look again. */
  lemma WaiterIsReleased(start: Time, labels: seq<Label>, ch: nat, l: Label)
    requires start > 0 && Run(Init(start), labels).Some?
    requires var s := Run(Init(start), labels).value; s.pauseCh == Some(ch) && Next(s, l).Some?
    ensures var s := Run(Init(start), labels).value;
            && (ch in Next(s, l).value.closed <==> l == Fire(ch) || (l.Pause? && s.now + l.d > s.pauseUntil))
            && (l.Pause? ==> Shut(Next(s, l).value))
  {
    hide Run;
    RunKeepsInv(Init(start), labels);
  }
}
