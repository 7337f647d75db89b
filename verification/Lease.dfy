/** The heartbeat in real time: an owner renews its lease, or learns that it cannot, before anyone
    sees the key as orphaned, if storage calls are fast enough for the refresh interval. */
module Lease {
  import opened Wrappers
  import opened Timestamp
  import opened Bucket
  import opened Gcs

  /** One heartbeat: the tick is taken and the new expiry computed at `read`, the update call is over
      at `done`. A failed one cancels the owner's context and is the last. */
  datatype Beat = Beat(read: Time, done: Time, ok: bool)

  /** When the ticker, started at `s` with period `refresh`, fires for the (i+1)-th time. */
  function Tick(s: Time, refresh: Time, i: nat): Time {
    if i == 0 then s + refresh else Tick(s, refresh, i - 1) + refresh
  }

  function Later(a: Time, b: Time): Time {
    if a < b then b else a
  }

  /** The metadata a lease expiry is part of; the other entries do not matter. */
  function Leased(m: Meta, written: Time, refresh: Time): Meta {
    m.(lease := Some(FormatTime(written + 3 * refresh)))
  }

  /** Beat `i` takes its tick as soon as it has fired and the call before is over, and its own call
      takes at most `delta`. */
  predicate Paced(refresh: Time, delta: Time, s: Time, beats: seq<Beat>, i: nat)
    requires i < |beats|
  {
    && beats[i].read == Later(Tick(s, refresh, i), if i == 0 then s else beats[i - 1].done)
    && beats[i].read <= beats[i].done <= beats[i].read + delta
    && (i + 1 < |beats| ==> beats[i].ok)
    && InRange(beats[i].read + 3 * refresh)
  }

  /** The expiry was computed at `t0`; the copy and the delete of the start follow, each within `delta`,
      and then the ticker starts at `s`. */
  ghost predicate HeartbeatRun(refresh: Time, delta: Time, t0: Time, s: Time, beats: seq<Beat>) {
    && 0 <= t0 <= s <= t0 + 2 * delta
    && (forall i | 0 <= i < |beats| :: Paced(refresh, delta, s, beats, i))
    && InRange(t0 + 3 * refresh)
  }

  /** When the lease that is in force until the end of beat `i` was computed. */
  function Written(t0: Time, beats: seq<Beat>, i: nat): Time
    requires i <= |beats|
  {
    if i == 0 then t0 else beats[i - 1].read
  }

  /** At `t` neither the lease in force until the end of beat `i` nor the one that the beat writes has
      expired: the update may already have taken effect. */
  predicate LeasedAt(m: Meta, refresh: Time, t0: Time, beats: seq<Beat>, i: nat, t: Time)
    requires i < |beats|
  {
    && !IsOrphaned(Leased(m, Written(t0, beats, i), refresh), t)
    && !IsOrphaned(Leased(m, beats[i].read, refresh), t)
  }

  /** No one may see the key as orphaned before every beat is over, whether it renewed the lease or
      cancelled the owner. */
  ghost predicate NeverOrphaned(m: Meta, refresh: Time, t0: Time, beats: seq<Beat>) {
    forall i, t | 0 <= i < |beats| && t <= beats[i].done :: LeasedAt(m, refresh, t0, beats, i, t)
  }

  /** The storage calls are fast enough: a full cycle of start, tick and update, and the second lost
      to printing, fit into the three intervals of a lease. */
  predicate FastEnough(refresh: Time, delta: Time) {
    3 * delta + (SECOND - 1) <= 2 * refresh
  }

  /** No tick is late: a call is over before the next tick. */
  lemma {:induction false} TicksOnTime(refresh: Time, delta: Time, t0: Time, s: Time, beats: seq<Beat>, i: nat)
    requires HeartbeatRun(refresh, delta, t0, s, beats) && FastEnough(refresh, delta) && delta >= 0 && refresh >= 0
    requires i < |beats|
    ensures beats[i].read == Tick(s, refresh, i)
  {
    assert Paced(refresh, delta, s, beats, i);
    if i > 0 {
      TicksOnTime(refresh, delta, t0, s, beats, i - 1);
      assert Paced(refresh, delta, s, beats, i - 1);
    }
  }

  lemma LeaseLasts(m: Meta, written: Time, refresh: Time, t: Time)
    requires InRange(written + 3 * refresh)
    ensures IsOrphaned(Leased(m, written, refresh), t) <==> t > Truncate(written + 3 * refresh)
  {
    hide FormatTime, ParseTime;
    ParseInvertsFormat(written + 3 * refresh);
  }

  /** The length of the run does not matter. */
  lemma RenewedOrCancelledInTime(m: Meta, refresh: Time, delta: Time, t0: Time, s: Time, beats: seq<Beat>)
    requires HeartbeatRun(refresh, delta, t0, s, beats) && FastEnough(refresh, delta) && delta >= 0 && refresh >= 0
    ensures NeverOrphaned(m, refresh, t0, beats)
  {
    hide IsOrphaned, Leased;
    forall i, t | 0 <= i < |beats| && t <= beats[i].done
      ensures LeasedAt(m, refresh, t0, beats, i, t)
    {
      assert Paced(refresh, delta, s, beats, i);
      TicksOnTime(refresh, delta, t0, s, beats, i);
      if i > 0 {
        assert Paced(refresh, delta, s, beats, i - 1);
        TicksOnTime(refresh, delta, t0, s, beats, i - 1);
      }
      LeaseLasts(m, Written(t0, beats, i), refresh, t);
      LeaseLasts(m, beats[i].read, refresh, t);
    }
  }

  /** With slower calls some run is late: everything takes its full time and the start falls on the
      last nanosecond of a second. */
  lemma LateRun(m: Meta, refresh: Time, delta: Time) returns (t0: Time, s: Time, beats: seq<Beat>)
    requires !FastEnough(refresh, delta) && delta >= 0 && refresh > 0 && refresh % SECOND == 0
    requires InRange(5 * refresh + 3 * delta + SECOND)
    ensures HeartbeatRun(refresh, delta, t0, s, beats) && !NeverOrphaned(m, refresh, t0, beats)
  {
    hide IsOrphaned, Leased;
    t0 := SECOND - 1;
    s := t0 + 2 * delta;
    var read := s + refresh;
    beats := [Beat(read, read + delta, true)];
    assert Tick(s, refresh, 0) == read;
    assert (t0 + 3 * refresh) / SECOND == 3 * refresh / SECOND;
    assert Truncate(t0 + 3 * refresh) == 3 * refresh;
    LeaseLasts(m, t0, refresh, beats[0].done);
    assert Paced(refresh, delta, s, beats, 0);
    assert HeartbeatRun(refresh, delta, t0, s, beats);
    assert beats[0].done > 3 * refresh;
    assert Written(t0, beats, 0) == t0;
    assert !LeasedAt(m, refresh, t0, beats, 0, beats[0].done);
  }

  /** The margin is exact: for an interval of whole seconds, all runs are safe if and only if the calls
      are fast enough. The 5 minutes of the package leave calls 3 minutes and 19 seconds. */
  lemma MarginIsExact(m: Meta, refresh: Time, delta: Time)
    requires delta >= 0 && refresh > 0 && refresh % SECOND == 0 && InRange(5 * refresh + 3 * delta + SECOND)
    ensures FastEnough(refresh, delta) <==>
            forall t0, s, beats :: HeartbeatRun(refresh, delta, t0, s, beats) ==> NeverOrphaned(m, refresh, t0, beats)
    ensures refresh == REFRESH_INTERVAL && delta == 199 * SECOND ==> FastEnough(refresh, delta)
  {
    if FastEnough(refresh, delta) {
      forall t0, s, beats | HeartbeatRun(refresh, delta, t0, s, beats)
        ensures NeverOrphaned(m, refresh, t0, beats)
      {
        RenewedOrCancelledInTime(m, refresh, delta, t0, s, beats);
      }
    } else {
      var t0, s, beats := LateRun(m, refresh, delta);
    }
  }

  // The lease that the operations write

  /** The metadata of the in-progress object until the end of beat `i`: what the start wrote, patched by
      every beat before. */
  function InForce(m: Meta, t0: Time, beats: seq<Beat>, i: nat): Meta
    requires i <= |beats|
  {
    if i == 0 then StartMeta(m, t0) else Patched(InForce(m, t0, beats, i - 1), LeaseRefresh(beats[i - 1].read))
  }

  predicate HeldAt(m: Meta, t0: Time, beats: seq<Beat>, i: nat, t: Time)
    requires i < |beats|
  {
    !IsOrphaned(InForce(m, t0, beats, i), t) && !IsOrphaned(InForce(m, t0, beats, i + 1), t)
  }

  /** No one may see the key as orphaned before every beat is over, whether its update has already taken
      effect or not. */
  ghost predicate HeldThroughout(m: Meta, t0: Time, beats: seq<Beat>) {
    forall i, t | 0 <= i < |beats| && t <= beats[i].done :: HeldAt(m, t0, beats, i, t)
  }

  /** A started key is orphaned exactly from the first instant after three refresh intervals, cut to the
      second; a refreshed one again three intervals after the refresh. */
  lemma LeaseOfThreeIntervals(m: Meta, now: Time, t: Time)
    requires InRange(now + 15 * MINUTE)
    ensures IsOrphaned(StartMeta(m, now), t) <==> t > Truncate(now + 15 * MINUTE)
    ensures IsOrphaned(Patched(m, LeaseRefresh(now)), t) <==> t > Truncate(now + 15 * MINUTE)
  {
    hide FormatTime, ParseTime, NextAttempt;
    ParseInvertsFormat(now + 3 * REFRESH_INTERVAL);
  }

  lemma InForceLease(m: Meta, t0: Time, beats: seq<Beat>, i: nat, t: Time)
    requires i <= |beats|
    ensures IsOrphaned(InForce(m, t0, beats, i), t)
            <==> IsOrphaned(Leased(m, Written(t0, beats, i), REFRESH_INTERVAL), t)
  {
    hide FormatTime, ParseTime, NextAttempt;
  }

  /** The margin of the lease as written is exact: every heartbeat run keeps it or ends it in time if and only
      if the storage calls are fast enough for the refresh interval of the package. */
  lemma WrittenMarginIsExact(m: Meta, delta: Time)
    requires delta >= 0 && InRange(5 * REFRESH_INTERVAL + 3 * delta + SECOND)
    ensures 3 * delta + (SECOND - 1) <= 10 * MINUTE <==>
            forall t0, s, beats | HeartbeatRun(REFRESH_INTERVAL, delta, t0, s, beats) :: HeldThroughout(m, t0, beats)
  {
    hide IsOrphaned, Leased, StartMeta, Patched, LeaseRefresh, InForce;
    assert REFRESH_INTERVAL % SECOND == 0;
    MarginIsExact(m, REFRESH_INTERVAL, delta);
    forall t0, s, beats | HeartbeatRun(REFRESH_INTERVAL, delta, t0, s, beats)
      ensures HeldThroughout(m, t0, beats) <==> NeverOrphaned(m, REFRESH_INTERVAL, t0, beats)
    {
      HeldIsNeverOrphaned(m, t0, beats);
    }
  }

  lemma HeldIsNeverOrphaned(m: Meta, t0: Time, beats: seq<Beat>)
    ensures HeldThroughout(m, t0, beats) <==> NeverOrphaned(m, REFRESH_INTERVAL, t0, beats)
  {
    hide IsOrphaned, Leased, InForce;
    forall i, t | 0 <= i < |beats|
      ensures HeldAt(m, t0, beats, i, t) <==> LeasedAt(m, REFRESH_INTERVAL, t0, beats, i, t)
    {
      InForceLease(m, t0, beats, i, t);
      InForceLease(m, t0, beats, i + 1, t);
      assert Written(t0, beats, i + 1) == beats[i].read;
    }
  }
}
