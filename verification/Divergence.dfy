/** Runs from the empty queues: they agree as long as the calls do, and two short runs show calls on
    which they part. */
module Divergence {
  import opened Timestamp
  import opened Workqueue
  import opened Bucket
  import opened Refinement
  import Gcs
  import Inmem

  function EmptyBucket(now: Time): GcsRun {
    GcsRun(now, EMPTY, [], map[])
  }

  function EmptyMaps(now: Time): InmemRun {
    InmemRun(now, Inmem.State(map[], {}), [], map[])
  }

  /** The refinement, from the beginning: the bucket represents the maps after any run of agreed calls. */
  lemma RunsFromEmptyAgree(now: Time, ops: seq<Op>)
    requires AllAgreed(EmptyMaps(now), ops)
    ensures Represents(GcsRuns(EmptyBucket(now), ops).store, InmemRuns(EmptyMaps(now), ops).state)
    ensures GcsRuns(EmptyBucket(now), ops).owned.Keys == InmemRuns(EmptyMaps(now), ops).owned.Keys
  {
    hide GcsRuns, InmemRuns, AllAgreed;
    assert Simulates(EmptyBucket(now), EmptyMaps(now));
    RunsSimulate(EmptyBucket(now), EmptyMaps(now), ops);
  }

  const KEY := "k"

  /** A key queued with priority 1 and then with priority 2 and a not-before. */
  lemma QueuesPart()
    ensures var ops := [Op.Queue(KEY, Options(1, 0, 0)), Op.Queue(KEY, Options(2, SECOND, 0))];
            !Represents(GcsRuns(EmptyBucket(0), ops).store, InmemRuns(EmptyMaps(0), ops).state)
  {
    hide Gcs.AfterQueue, Represents;
    var first, second := Op.Queue(KEY, Options(1, 0, 0)), Op.Queue(KEY, Options(2, SECOND, 0));
    var g, m := GcsStep(EmptyBucket(0), first), InmemStep(EmptyMaps(0), first);
    EmptyRepresents();
    QueueRefines(EMPTY, EmptyMaps(0).state, KEY, Options(1, 0, 0), 0);
    QueueRefines(g.store, m.state, KEY, Options(2, SECOND, 0), 0);
    TwoOps(EmptyBucket(0), EmptyMaps(0), first, second);
  }

  lemma EmptyRepresents()
    ensures Represents(EMPTY, Inmem.State(map[], {}))
  {
  }

  lemma TwoOps(g: GcsRun, m: InmemRun, a: Op, b: Op)
    ensures GcsRuns(g, [a, b]) == GcsStep(GcsStep(g, a), b)
    ensures InmemRuns(m, [a, b]) == InmemStep(InmemStep(m, a), b)
  {
    hide GcsStep, InmemStep;
    assert [a, b][1..] == [b] && [b][1..] == [];
    assert GcsRuns(GcsStep(g, a), [b]) == GcsRuns(GcsStep(GcsStep(g, a), b), []);
    assert InmemRuns(InmemStep(m, a), [b]) == InmemRuns(InmemStep(InmemStep(m, a), b), []);
  }

  /** A key of priority 1, started once: its owner's delayed requeue, as the dispatcher asks for it, writes
      the priority without padding. */
  lemma RequeuesPart()
    ensures var started := [Op.Queue(KEY, Options(1, 0, 0)), Op.List(KEY), Op.Start(0)];
            var requeue := Op.Requeue(KEY, Options(1, 0, 30 * SECOND));
            var (g, m) := (GcsRuns(EmptyBucket(0), started), InmemRuns(EmptyMaps(0), started));
            Represents(g.store, m.state) && !Represents(GcsStep(g, requeue).store, InmemStep(m, requeue).state)
  {
    hide Gcs.AfterQueue, Gcs.AfterRequeue, Gcs.AfterStart, Represents, ShowsOwnedKey, GcsRuns, GcsStep;
    var started := [Op.Queue(KEY, Options(1, 0, 0)), Op.List(KEY), Op.Start(0)];
    var (g, m) := (GcsRuns(EmptyBucket(0), started), InmemRuns(EmptyMaps(0), started));
    StartedOnce();
    assert Simulates(EmptyBucket(0), EmptyMaps(0)) by {
      EmptyRepresents();
    }
    RunsSimulate(EmptyBucket(0), EmptyMaps(0), started);
    RequeueRefines(g.store, m.state, g.owned[KEY], m.owned[KEY], Options(1, 0, 30 * SECOND), 0);
    RequeueStep(g, KEY, Options(1, 0, 30 * SECOND));
  }

  lemma RequeueStep(g: GcsRun, key: string, opts: Options)
    requires key in g.owned && Gcs.AfterRequeue(g.store, key, g.owned[key], opts, g.now).Some?
    ensures GcsStep(g, Op.Requeue(key, opts)).store == Gcs.AfterRequeue(g.store, key, g.owned[key], opts, g.now).value
  {
    hide Gcs.AfterRequeue;
  }

  lemma StartedOnce()
    ensures var started := [Op.Queue(KEY, Options(1, 0, 0)), Op.List(KEY), Op.Start(0)];
            && AllAgreed(EmptyMaps(0), started)
            && InmemRuns(EmptyMaps(0), started)
               == InmemRun(0, Inmem.State(map[], {KEY}), [Inmem.QueuedKey(KEY, 1, 0, 0)],
                           map[KEY := Inmem.OwnedKey(KEY, 1, 1)])
  {
    var queue, list, start := Op.Queue(KEY, Options(1, 0, 0)), Op.List(KEY), Op.Start(0);
    assert [queue, list, start][1..] == [list, start] && [list, start][1..] == [start] && [start][1..] == [];
    var m1 := InmemStep(EmptyMaps(0), queue);
    var m2 := InmemStep(m1, list);
    var m3 := InmemStep(m2, start);
    assert m2.listed == [Inmem.QueuedKey(KEY, 1, 0, 0)];
    assert m3.state.queue == map[] && m3.state.wip == {KEY};
    assert InmemRuns(m2, [start]) == m3;
    assert AllAgreed(m2, [start]);
    assert AllAgreed(m1, [list, start]) && InmemRuns(m1, [list, start]) == m3;
  }
}
