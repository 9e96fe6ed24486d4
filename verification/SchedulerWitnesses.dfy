/** The hazards of deleting, suspending, resuming, exiting and ticking too early, each met
    on a run from `sched_init`. */
module SchedulerWitnesses {
  import opened Common
  import opened Masks
  import opened SchedulerSpec
  import opened SchedulerInvariant
  import opened SchedulerRuns
  import opened SchedulerHazards
  import opened Examples

  /** The idle thread and `peers` threads of priority 5, the first of which runs. */
  function Peers(peers: nat): (ps: seq<nat>)
    requires 0 < peers < 4
    ensures |ps| == peers + 1 && ps[0] == 31 && forall i | 0 < i <= peers :: ps[i] == 5
  {
    [31] + seq(peers, _ => 5)
  }

  function Started(peers: nat): Sched
    requires 0 < peers < 4
  {
    var ts := FreshRow(Peers(peers));
    At(ts[1 := ts[1].(state := Running)], 1, {31, 5}, NoCursor()[5 := 1], 0, [First(1)])
  }

  lemma StartedIsReached(peers: nat)
    requires 0 < peers < 4
    ensures Booted(Started(peers), {}) && Reachable(Started(peers), 0) && Inv(Started(peers))
  {
    var ps := Peers(peers);
    assert ps[1] == 5;
    assert Bits(ps) == {31, 5} by {
      assert ps[0] in ps && ps[1] in ps;
    }
    Boot(ps, 1, {});
    ReachableIsGood(Started(peers), 0);
  }

  /** `thread_delete`: two peers of equal priority, the running one deletes the other and
      yields. It is Ready and never picked again. */
  lemma DeleteLosesThePeer()
    ensures var s := Started(2);
            && Reachable(s, 0) && s.current == 1
            && Delete(s, 2).Done? && !Inv(Delete(s, 2).value)
            && Yield(Delete(s, 2).value).Done?
            && var s2 := Yield(Delete(s, 2).value).value;
               ReadyAt(s2.threads, 1, 5) && 5 !in s2.ready && PickNext(s2) != Some(1)
  {
    hide PickNext, DoSchedule, Delete, Yield, Inv;
    StartedIsReached(2);
    var s := Started(2);
    assert s.threads[1].value == Fresh(Running, 5) && s.threads[2].value == Fresh(Ready, 5);
    assert s.threads[0].value == Fresh(Ready, 31);
    assert ClearsCurrentBit(s, 2);
    DeleteKeepsInvIff(s, 2);
    DeleteThenYieldLosesThread(s, 2, 0);
  }

  /** `thread_suspend` of the only peer takes the running thread's bit in the same way. */
  lemma SuspendTakesTheBit()
    ensures var s := Started(2);
            Reachable(s, 0) && Suspend(s, 2).Done? && !Inv(Suspend(s, 2).value) && 5 !in Suspend(s, 2).value.ready
  {
    hide Inv;
    StartedIsReached(2);
    var s := Started(2);
    assert s.threads[1].value == Fresh(Running, 5) && s.threads[2].value == Fresh(Ready, 5);
    assert ClearsCurrentBit(s, 2);
    SuspendKeepsInvIff(s, 2);
    NoPeerClearsBit(s, 2, Some(s.threads[2].value.(state := Blocked)));
  }

  /** `thread_resume` of a suspended peer leaves two threads Running. */
  lemma ResumeLeavesTwoRunning()
    ensures var s := Started(3);
            && Reachable(s, 0) && Suspend(s, 2).Done? && Inv(Suspend(s, 2).value)
            && Resume(Suspend(s, 2).value, 2).Done? && !Inv(Resume(Suspend(s, 2).value, 2).value)
  {
    hide Inv, Resume;
    StartedIsReached(3);
    var s := Started(3);
    assert s.threads[1].value == Fresh(Running, 5) && s.threads[2].value == Fresh(Ready, 5);
    assert s.threads[3].value == Fresh(Ready, 5);
    assert ReadyAt(s.threads, 3, 5);
    SuspendKeepsInvIff(s, 2);
    var s1 := Suspend(s, 2).value;
    assert s1.threads[2].value.priority <= s1.threads[1].value.priority;
    ResumeKeepsInvIff(s1, 2);
  }

  /** `thread_exit` panics in every reachable state, whichever thread but the idle one calls it. */
  lemma ExitAlwaysPanics(s: Sched, idle: nat)
    requires Reachable(s, idle) && s.started && s.current != idle
    ensures Shape(s) && Exit(s).Panic?
  {
    hide Exit;
    ReachableIsGood(s, idle);
    ExitPanicsIff(s);
    OthersIdleIsReady(s, idle);
  }

  lemma OthersIdleIsReady(s: Sched, idle: nat)
    requires Inv(s) && s.started && IdleAlive(s.threads, idle) && s.current != idle
    ensures idle < MAX_THREADS && InState(s.threads, idle, Ready)
  {
  }

  /** And there is such a state. */
  lemma ExitPanicsAtOnce()
    ensures Reachable(Started(1), 0) && Exit(Started(1)).Panic?
  {
    hide Exit;
    StartedIsReached(1);
    ExitAlwaysPanics(Started(1), 0);
  }

  /** A tick between the first `thread_create` and `sched_start` panics. */
  lemma EarlyTickPanics()
    ensures Reachable(Created([31], {31}), 0) && Tick(Created([31], {31})).Panic?
  {
    hide Tick, Inv;
    BootCreated([31], {});
    assert Bits([31]) == {31};
    ReachableIsGood(Created([31], {31}), 0);
    TickBeforeStart(Created([31], {31}));
    assert Created([31], {31}).threads[0].Some?;
  }

  /** `sleep(0)` before the first tick: however the run goes on, the thread sleeps for good. */
  lemma ZeroSleepNeverEnds(states: seq<Sched>, ops: seq<Op>, k: nat)
    requires Run(states, ops, 0) && states[0] == Started(2) && 0 < k <= |ops| && ops[0] == OpSleep(0)
    ensures Reachable(Started(2), 0) && Legal(Started(2), OpSleep(0), 0)
    ensures InState(states[k].threads, 1, Sleeping)
  {
    hide Inv, Step;
    StartedIsReached(2);
    ReachableIsGood(Started(2), 0);
    DeadlineExact(states, ops, 0, Sleeping, 0, k);
  }
}
