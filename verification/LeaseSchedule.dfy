/** Which schedules keep the lease of ConversationLease safe.

    The code bounds no delay except the sleep of its update task, so the exclusion it promises
    rests on how late the code between two awaits may run, and on how often its update task may
    fail.  This module finds the exact line: with a start, sleep, flush and delete that take at
    most b.start, b.sleep, b.flush and b.delete seconds, and at most b.failures rounds of a server
    that fail one after the other, no run breaks the exclusion if and only if b is WithinLease. */
module LeaseSchedule {
  import opened ConversationLease
  import opened MinMax

  /** What failed rounds cost: each is tried again at once, without the sleep. */
  function Retries(b: Bounds, failures: nat): nat
    requires UPDATE_INTERVAL <= b.sleep
  {
    if failures == 0 then 0 else Retries(b, failures - 1) + b.flush + b.sleep - UPDATE_INTERVAL
  }

  /** The longest a key can go unwritten: it is won, registered just after a snapshot left it
      out, the rounds after that fail, and the next one either arrives late or finds it popped
      and not yet deleted. */
  function WorstGap(b: Bounds): nat
    requires UPDATE_INTERVAL <= b.sleep
  {
    b.start + b.flush + b.sleep + Retries(b, b.failures) + Max(b.flush, b.delete)
  }

  predicate WithinLease(b: Bounds)
    requires UPDATE_INTERVAL <= b.sleep
  {
    WorstGap(b) < KEY_TTL
  }

  /** The round that will write the key of k, or that of a popped session its deletion, is due
      soon enough after the last write. */
  predicate RoundDue(h: Hold, task: UpdateTask, c: ConversationId, b: Bounds)
    requires UPDATE_INTERVAL <= b.sleep
  {
    match task
    case Asleep(since, failures) => since <= h.wroteAt + b.start + b.flush + Retries(b, failures)
    case Flushing(since, cs, failures) =>
      since <= h.wroteAt + b.start + if c in cs then b.flush + b.sleep + Retries(b, failures) else 0
  }

  predicate PopDue(h: Hold, poppedAt: int, task: UpdateTask, c: ConversationId, b: Bounds)
    requires UPDATE_INTERVAL <= b.sleep
  {
    || poppedAt <= h.wroteAt + b.start + b.flush + b.sleep + Retries(b, b.failures)
    || (task.Flushing? && c in task.conversations && RoundDue(h, task, c, b))
  }

  predicate OnTime(h: Hold, task: UpdateTask, c: ConversationId, now: int, b: Bounds)
    requires UPDATE_INTERVAL <= b.sleep
  {
    && h.wroteAt <= now && task.failures <= b.failures
    && HoldPunctual(h, now, b)
    && match h.phase
       case Starting(wonAt) => wonAt <= h.wroteAt
       case Running => RoundDue(h, task, c, b)
       case Closing(poppedAt) => poppedAt <= now && PopDue(h, poppedAt, task, c, b)
  }

  ghost predicate ScheduleInv(s: State, b: Bounds)
    requires UPDATE_INTERVAL <= b.sleep
  {
    && (forall n :: n in s.tasks ==>
          && s.tasks[n].since <= s.now && s.tasks[n].failures <= b.failures
          && TaskPunctual(s.tasks[n], s.now, b))
    && (forall k :: k in s.holds ==> k.0 in s.tasks && OnTime(s.holds[k], s.tasks[k.0], k.1, s.now, b))
  }

  lemma {:induction false} RetriesGrow(b: Bounds, failures: nat, more: nat)
    requires UPDATE_INTERVAL <= b.sleep && failures <= more
    ensures Retries(b, failures) <= Retries(b, more)
    ensures failures < more ==> Retries(b, failures) + b.flush + b.sleep - UPDATE_INTERVAL <= Retries(b, more)
  {
    if failures < more {
      RetriesGrow(b, failures, more - 1);
    }
  }

  /** A punctual schedule leaves every node's own gap below the lifetime of the key. */
  lemma PunctualGaps(s: State, seconds: nat, b: Bounds)
    requires UPDATE_INTERVAL <= b.sleep && ScheduleInv(s, b) && WithinLease(b) && Punctual(s, seconds, b)
    ensures GapsBelowTtl(s, seconds)
  {
    forall k | k in s.holds ensures s.now + seconds < s.holds[k].wroteAt + KEY_TTL {
      var n := k.0;
      assert n in s.tasks && OnTime(s.holds[k], s.tasks[n], k.1, s.now, b);
      RetriesGrow(b, s.tasks[n].failures, b.failures);
    }
  }

  predicate KeepsOnTime(s: State, b: Bounds, k: (NodeId, ConversationId))
    requires UPDATE_INTERVAL <= b.sleep && k in s.holds
  {
    k.0 in s.tasks && OnTime(s.holds[k], s.tasks[k.0], k.1, s.now, b)
  }

  lemma SnapshotKeepsOnTime(s: State, n: NodeId, b: Bounds, k: (NodeId, ConversationId))
    requires UPDATE_INTERVAL <= b.sleep && ScheduleInv(s, b) && Enabled(s, Snapshot(n)) && k in s.holds
    ensures KeepsOnTime(Apply(s, Snapshot(n)), b, k)
  {
    assert OnTime(s.holds[k], s.tasks[k.0], k.1, s.now, b);
    RetriesGrow(b, s.tasks[k.0].failures, b.failures);
    assert s.holds[k].phase.Running? && n == k.0 ==> k.1 in LocalLoops(s, n);
  }

  lemma FlushKeepsOnTime(s: State, n: NodeId, b: Bounds, k: (NodeId, ConversationId))
    requires UPDATE_INTERVAL <= b.sleep && ScheduleInv(s, b) && Enabled(s, Flush(n)) && k in s.holds
    ensures KeepsOnTime(Apply(s, Flush(n)), b, k)
  {
    assert OnTime(s.holds[k], s.tasks[k.0], k.1, s.now, b);
    RetriesGrow(b, s.tasks[k.0].failures, b.failures);
  }

  lemma FailureKeepsOnTime(s: State, n: NodeId, b: Bounds, k: (NodeId, ConversationId))
    requires UPDATE_INTERVAL <= b.sleep && ScheduleInv(s, b) && k in s.holds
    requires Allowed(Scheduled(b), s, FlushFails(n))
    ensures KeepsOnTime(Apply(s, FlushFails(n)), b, k)
  {
    assert OnTime(s.holds[k], s.tasks[k.0], k.1, s.now, b);
    RetriesGrow(b, s.tasks[k.0].failures, b.failures);
    RetriesGrow(b, 0, s.tasks[k.0].failures);
  }

  lemma TickKeepsOnTime(s: State, seconds: nat, b: Bounds, k: (NodeId, ConversationId))
    requires UPDATE_INTERVAL <= b.sleep && ScheduleInv(s, b) && k in s.holds
    requires Allowed(Scheduled(b), s, Tick(seconds))
    ensures KeepsOnTime(Apply(s, Tick(seconds)), b, k)
  {
    assert OnTime(s.holds[k], s.tasks[k.0], k.1, s.now, b);
  }

  /** Winning, registering, popping: what happens to a hold between rounds. */
  lemma PhaseKeepsOnTime(s: State, step: Step, b: Bounds, k: (NodeId, ConversationId))
    requires UPDATE_INTERVAL <= b.sleep && ScheduleInv(s, b) && Enabled(s, step) && k in Apply(s, step).holds
    requires !step.Snapshot? && !step.Flush? && !step.FlushFails? && !step.Tick?
    ensures KeepsOnTime(Apply(s, step), b, k)
  {
    if k in s.holds {
      assert OnTime(s.holds[k], s.tasks[k.0], k.1, s.now, b);
      RetriesGrow(b, s.tasks[k.0].failures, b.failures);
      RetriesGrow(b, 0, s.tasks[k.0].failures);
    }
  }

  lemma ScheduledStepKeepsOnTime(s: State, step: Step, b: Bounds, k: (NodeId, ConversationId))
    requires UPDATE_INTERVAL <= b.sleep
    requires ScheduleInv(s, b) && Allowed(Scheduled(b), s, step) && k in Apply(s, step).holds
    ensures KeepsOnTime(Apply(s, step), b, k)
  {
    match step
    case Snapshot(n) => SnapshotKeepsOnTime(s, n, b, k);
    case Flush(n) => FlushKeepsOnTime(s, n, b, k);
    case FlushFails(n) => FailureKeepsOnTime(s, n, b, k);
    case Tick(seconds) => TickKeepsOnTime(s, seconds, b, k);
    case _ => PhaseKeepsOnTime(s, step, b, k);
  }

  lemma ScheduledStepKeepsInv(s: State, step: Step, b: Bounds)
    requires UPDATE_INTERVAL <= b.sleep
    requires ScheduleInv(s, b) && Allowed(Scheduled(b), s, step)
    ensures ScheduleInv(Apply(s, step), b)
  {
    forall k | k in Apply(s, step).holds
      ensures k.0 in Apply(s, step).tasks
      ensures OnTime(Apply(s, step).holds[k], Apply(s, step).tasks[k.0], k.1, Apply(s, step).now, b)
    {
      ScheduledStepKeepsOnTime(s, step, b, k);
    }
  }

  lemma {:induction false} ScheduledRunIsLeaseRun(s: State, steps: seq<Step>, b: Bounds)
    requires UPDATE_INTERVAL <= b.sleep && WithinLease(b)
    requires ScheduleInv(s, b) && IsRun(Scheduled(b), s, steps)
    ensures LeaseRun(s, steps) && Then(s, steps) == After(Scheduled(b), s, steps)
    decreases |steps|
  {
    if steps != [] {
      if steps[0].Tick? {
        PunctualGaps(s, steps[0].seconds, b);
      }
      ScheduledStepKeepsInv(s, steps[0], b);
      ScheduledRunIsLeaseRun(Apply(s, steps[0]), steps[1..], b);
    }
  }

  /*** The converse: the run in which the worst gap reaches the lifetime of the key. ***/

  /** Node 0 alone, with its one win at wonAt never written again. */
  function Solo(now: int, wonAt: int, phase: Phase, task: UpdateTask): State {
    State(now, map[0 := wonAt + KEY_TTL], map[(0, 0) := Hold(phase, wonAt)], map[0 := task], multiset{}, {})
  }

  lemma Go(b: Bounds, steps: seq<Step>, step: Step) returns (longer: seq<Step>)
    requires IsRun(Scheduled(b), INITIAL, steps)
    requires Allowed(Scheduled(b), After(Scheduled(b), INITIAL, steps), step)
    ensures IsRun(Scheduled(b), INITIAL, longer)
    ensures After(Scheduled(b), INITIAL, longer) == Apply(After(Scheduled(b), INITIAL, steps), step)
  {
    Extend(Scheduled(b), INITIAL, steps, step);
    longer := steps + [step];
  }

  lemma SoloSnapshot(now: int, wonAt: int, phase: Phase, since: int, failures: nat)
    requires since + UPDATE_INTERVAL <= now
    ensures Apply(Solo(now, wonAt, phase, Asleep(since, failures)), Snapshot(0))
         == Solo(now, wonAt, phase, Flushing(now, if phase.Running? then {0} else {}, failures))
  {
    var s := Solo(now, wonAt, phase, Asleep(since, failures));
    assert (0, 0) in s.holds;
    assert LocalLoops(s, 0) == if phase.Running? then {0} else {};
  }

  lemma SoloFlush(now: int, wonAt: int, phase: Phase, since: int, failures: nat)
    ensures Apply(Solo(now, wonAt, phase, Flushing(since, {}, failures)), Flush(0))
         == Solo(now, wonAt, phase, Asleep(now, 0))
  {
    var s, s' := Solo(now, wonAt, phase, Flushing(since, {}, failures)), Solo(now, wonAt, phase, Asleep(now, 0));
    assert Refreshed(s.expiry, {}, now) == s'.expiry;
    assert Apply(s, Flush(0)).holds == s'.holds;
  }

  lemma EmptyFlush(b: Bounds, steps: seq<Step>, now: int, wonAt: int, phase: Phase, since: int, failures: nat)
    returns (longer: seq<Step>)
    requires IsRun(Scheduled(b), INITIAL, steps)
    requires After(Scheduled(b), INITIAL, steps) == Solo(now, wonAt, phase, Flushing(since, {}, failures))
    ensures IsRun(Scheduled(b), INITIAL, longer)
    ensures After(Scheduled(b), INITIAL, longer) == Solo(now, wonAt, phase, Asleep(now, 0))
  {
    longer := Go(b, steps, Flush(0));
    SoloFlush(now, wonAt, phase, since, failures);
  }

  /** A round of the update task that finds the dictionary empty changes nothing. */
  lemma EmptyRound(b: Bounds, steps: seq<Step>, now: int, wonAt: int, phase: Phase, since: int, failures: nat)
    returns (longer: seq<Step>)
    requires IsRun(Scheduled(b), INITIAL, steps)
    requires After(Scheduled(b), INITIAL, steps) == Solo(now, wonAt, phase, Asleep(since, failures))
    requires since + UPDATE_INTERVAL <= now && !phase.Running?
    ensures IsRun(Scheduled(b), INITIAL, longer)
    ensures After(Scheduled(b), INITIAL, longer) == Solo(now, wonAt, phase, Asleep(now, 0))
  {
    longer := Go(b, steps, Snapshot(0));
    SoloSnapshot(now, wonAt, phase, since, failures);
    longer := EmptyFlush(b, longer, now, wonAt, phase, now, failures);
  }

  /** Time passes between rounds. */
  lemma Wait(b: Bounds, steps: seq<Step>, now: int, wonAt: int, phase: Phase, task: UpdateTask, d: nat)
    returns (longer: seq<Step>)
    requires IsRun(Scheduled(b), INITIAL, steps)
    requires After(Scheduled(b), INITIAL, steps) == Solo(now, wonAt, phase, task)
    requires TaskPunctual(task, now + d, b) && HoldPunctual(Hold(phase, wonAt), now + d, b)
    ensures IsRun(Scheduled(b), INITIAL, longer)
    ensures After(Scheduled(b), INITIAL, longer) == Solo(now + d, wonAt, phase, task)
  {
    longer := Go(b, steps, Tick(d));
  }

  /** Rounds every UPDATE_INTERVAL seconds, none of which finds the session. */
  lemma {:induction false} EmptyRounds(b: Bounds, steps: seq<Step>, now: int, wonAt: int, phase: Phase, q: nat)
    returns (longer: seq<Step>)
    requires UPDATE_INTERVAL <= b.sleep && !phase.Running?
    requires IsRun(Scheduled(b), INITIAL, steps)
    requires After(Scheduled(b), INITIAL, steps) == Solo(now, wonAt, phase, Asleep(now - UPDATE_INTERVAL, 0))
    requires HoldPunctual(Hold(phase, wonAt), now + UPDATE_INTERVAL * q, b)
    ensures IsRun(Scheduled(b), INITIAL, longer)
    ensures var now' := now + UPDATE_INTERVAL * q;
            After(Scheduled(b), INITIAL, longer) == Solo(now', wonAt, phase, Asleep(now' - UPDATE_INTERVAL, 0))
    decreases q
  {
    longer := steps;
    if q > 0 {
      longer := EmptyRound(b, longer, now, wonAt, phase, now - UPDATE_INTERVAL, 0);
      longer := Wait(b, longer, now, wonAt, phase, Asleep(now, 0), UPDATE_INTERVAL);
      longer := EmptyRounds(b, longer, now + UPDATE_INTERVAL, wonAt, phase, q - 1);
    }
  }

  /** Node 0 joins and runs its first round at once. */
  lemma FirstRound(b: Bounds) returns (steps: seq<Step>)
    ensures IsRun(Scheduled(b), INITIAL, steps)
    ensures After(Scheduled(b), INITIAL, steps) == INITIAL.(tasks := map[0 := Asleep(0, 0)])
  {
    steps := Go(b, [], Join(0));
    steps := Go(b, steps, Snapshot(0));
    steps := Go(b, steps, Flush(0));
  }

  /** Node 0 has run its first round a seconds ago, and has won nothing. */
  function Idle(a: nat): State {
    INITIAL.(now := a, tasks := map[0 := Asleep(0, 0)])
  }

  lemma IdleAfterRound(b: Bounds, a: nat) returns (steps: seq<Step>)
    requires a < UPDATE_INTERVAL <= b.sleep
    ensures IsRun(Scheduled(b), INITIAL, steps)
    ensures After(Scheduled(b), INITIAL, steps) == Idle(a)
  {
    steps := FirstRound(b);
    steps := Go(b, steps, Tick(a));
  }

  lemma FirstWin(a: nat)
    ensures Enabled(Idle(a), TryStart(0, 0))
    ensures Apply(Idle(a), TryStart(0, 0)) == Solo(a, a, Starting(a), Asleep(0, 0))
  {
    assert !KeyLive(Idle(a), 0);
  }

  /** Node 0 wins its key a seconds after its first round. */
  lemma WinBetweenRounds(b: Bounds, a: nat) returns (steps: seq<Step>)
    requires a < UPDATE_INTERVAL <= b.sleep
    ensures IsRun(Scheduled(b), INITIAL, steps)
    ensures After(Scheduled(b), INITIAL, steps) == Solo(a, a, Starting(a), Asleep(0, 0))
  {
    steps := IdleAfterRound(b, a);
    FirstWin(a);
    steps := Go(b, steps, TryStart(0, 0));
  }

  /** A start that takes r seconds and ends just as a round is due. */
  lemma SlowStart(b: Bounds, r: nat) returns (steps: seq<Step>, now: int)
    requires UPDATE_INTERVAL <= b.sleep && r <= b.start
    ensures IsRun(Scheduled(b), INITIAL, steps)
    ensures After(Scheduled(b), INITIAL, steps)
         == Solo(now, now - r, Starting(now - r), Asleep(now - UPDATE_INTERVAL, 0))
  {
    if r == 0 {
      now := 0;
      steps := Go(b, [], Join(0));
      steps := Go(b, steps, TryStart(0, 0));
    } else {
      var q := (r + UPDATE_INTERVAL - 1) / UPDATE_INTERVAL;
      var a := UPDATE_INTERVAL * q - r;
      steps := WinBetweenRounds(b, a);
      steps := Wait(b, steps, a, a, Starting(a), Asleep(0, 0), UPDATE_INTERVAL - a);
      steps := EmptyRounds(b, steps, UPDATE_INTERVAL, a, Starting(a), q - 1);
      now := UPDATE_INTERVAL * q;
    }
  }

  /** Once KEY_TTL seconds have passed since the only write, another node wins beside node 0. */
  lemma SecondWinner(b: Bounds, steps: seq<Step>, wonAt: int, phase: Phase, task: UpdateTask)
    returns (longer: seq<Step>)
    requires IsRun(Scheduled(b), INITIAL, steps)
    requires After(Scheduled(b), INITIAL, steps) == Solo(wonAt + KEY_TTL, wonAt, phase, task)
    requires !phase.Closing?
    ensures IsRun(Scheduled(b), INITIAL, longer)
    ensures !Exclusive(After(Scheduled(b), INITIAL, longer))
  {
    longer := Go(b, steps, Join(1));
    longer := Go(b, longer, TryStart(1, 0));
    var s := After(Scheduled(b), INITIAL, longer);
    assert Active(s, 0, 0) && Active(s, 1, 0);
  }

  /** A deletion that late deletes the key of the next owner, and a third node wins beside it. */
  lemma StaleDelete(b: Bounds, steps: seq<Step>, wonAt: int, poppedAt: int, task: UpdateTask)
    returns (longer: seq<Step>)
    requires IsRun(Scheduled(b), INITIAL, steps)
    requires After(Scheduled(b), INITIAL, steps) == Solo(wonAt + KEY_TTL, wonAt, Closing(poppedAt), task)
    ensures IsRun(Scheduled(b), INITIAL, longer)
    ensures !Exclusive(After(Scheduled(b), INITIAL, longer))
  {
    longer := Go(b, steps, Join(1));
    longer := Go(b, longer, TryStart(1, 0));
    longer := Go(b, longer, DeleteKey(0, 0));
    longer := Go(b, longer, Join(2));
    longer := Go(b, longer, TryStart(2, 0));
    var s := After(Scheduled(b), INITIAL, longer);
    assert Active(s, 1, 0) && Active(s, 2, 0);
  }

  /** A session popped just before a round, whose key is not deleted for d seconds. */
  lemma SlowDelete(b: Bounds, steps: seq<Step>, now: int, wonAt: int, since: int, failures: nat, d: nat)
    returns (longer: seq<Step>, task: UpdateTask)
    requires UPDATE_INTERVAL <= b.sleep && d <= b.delete && d <= 2 * UPDATE_INTERVAL
    requires IsRun(Scheduled(b), INITIAL, steps)
    requires After(Scheduled(b), INITIAL, steps) == Solo(now, wonAt, Running, Asleep(since, failures))
    requires since + UPDATE_INTERVAL <= now
    ensures IsRun(Scheduled(b), INITIAL, longer)
    ensures After(Scheduled(b), INITIAL, longer) == Solo(now + d, wonAt, Closing(now), task)
  {
    longer := Go(b, steps, PopSession(0, 0));
    assert After(Scheduled(b), INITIAL, longer) == Solo(now, wonAt, Closing(now), Asleep(since, failures));
    longer := EmptyRound(b, longer, now, wonAt, Closing(now), since, failures);
    task := Asleep(now, 0);
    if d <= UPDATE_INTERVAL {
      longer := Wait(b, longer, now, wonAt, Closing(now), task, d);
    } else {
      var later := now + UPDATE_INTERVAL;
      longer := Wait(b, longer, now, wonAt, Closing(now), task, UPDATE_INTERVAL);
      longer := EmptyRound(b, longer, later, wonAt, Closing(now), now, 0);
      task := Asleep(later, 0);
      longer := Wait(b, longer, later, wonAt, Closing(now), task, d - UPDATE_INTERVAL);
    }
  }

  /** From a registration just after an empty snapshot, as far as the bounds allow. */
  lemma AfterRegistration(b: Bounds, steps: seq<Step>, now: int, wonAt: int) returns (longer: seq<Step>)
    requires UPDATE_INTERVAL <= b.sleep && !WithinLease(b)
    requires now == wonAt + b.start && b.start < KEY_TTL
    requires IsRun(Scheduled(b), INITIAL, steps)
    requires After(Scheduled(b), INITIAL, steps) == Solo(now, wonAt, Running, Flushing(now, {}, 0))
    ensures IsRun(Scheduled(b), INITIAL, longer)
    ensures !Exclusive(After(Scheduled(b), INITIAL, longer))
  {
    if wonAt + KEY_TTL <= now + b.flush {
      longer := Wait(b, steps, now, wonAt, Running, Flushing(now, {}, 0), wonAt + KEY_TTL - now);
      longer := SecondWinner(b, longer, wonAt, Running, Flushing(now, {}, 0));
    } else {
      var flushed := now + b.flush;
      longer := LateFlush(b, steps, now, wonAt);
      longer := AfterFlush(b, longer, flushed, wonAt);
    }
  }

  lemma LateFlush(b: Bounds, steps: seq<Step>, now: int, wonAt: int) returns (longer: seq<Step>)
    requires IsRun(Scheduled(b), INITIAL, steps)
    requires After(Scheduled(b), INITIAL, steps) == Solo(now, wonAt, Running, Flushing(now, {}, 0))
    ensures IsRun(Scheduled(b), INITIAL, longer)
    ensures var flushed := now + b.flush;
            After(Scheduled(b), INITIAL, longer) == Solo(flushed, wonAt, Running, Asleep(flushed, 0))
  {
    longer := Wait(b, steps, now, wonAt, Running, Flushing(now, {}, 0), b.flush);
    longer := EmptyFlush(b, longer, now + b.flush, wonAt, Running, now, 0);
  }

  lemma AfterFlush(b: Bounds, steps: seq<Step>, flushed: int, wonAt: int) returns (longer: seq<Step>)
    requires UPDATE_INTERVAL <= b.sleep && !WithinLease(b)
    requires wonAt <= flushed == wonAt + b.start + b.flush < wonAt + KEY_TTL
    requires IsRun(Scheduled(b), INITIAL, steps)
    requires After(Scheduled(b), INITIAL, steps) == Solo(flushed, wonAt, Running, Asleep(flushed, 0))
    ensures IsRun(Scheduled(b), INITIAL, longer)
    ensures !Exclusive(After(Scheduled(b), INITIAL, longer))
  {
    if wonAt + KEY_TTL <= flushed + b.sleep {
      longer := Wait(b, steps, flushed, wonAt, Running, Asleep(flushed, 0), wonAt + KEY_TTL - flushed);
      longer := SecondWinner(b, longer, wonAt, Running, Asleep(flushed, 0));
    } else {
      longer := Wait(b, steps, flushed, wonAt, Running, Asleep(flushed, 0), b.sleep);
      longer := FailingRounds(b, longer, flushed + b.sleep, wonAt, flushed, 0);
    }
  }

  /** A round that takes b.flush seconds and fails. */
  lemma FailingRound(b: Bounds, steps: seq<Step>, due: int, wonAt: int, since: int, failures: nat)
    returns (longer: seq<Step>)
    requires failures < b.failures && since + UPDATE_INTERVAL <= due
    requires IsRun(Scheduled(b), INITIAL, steps)
    requires After(Scheduled(b), INITIAL, steps) == Solo(due, wonAt, Running, Asleep(since, failures))
    ensures IsRun(Scheduled(b), INITIAL, longer)
    ensures var failed := due + b.flush;
            After(Scheduled(b), INITIAL, longer)
            == Solo(failed, wonAt, Running, Asleep(failed - UPDATE_INTERVAL, failures + 1))
  {
    SoloSnapshot(due, wonAt, Running, since, failures);
    longer := Go(b, steps, Snapshot(0));
    longer := Wait(b, longer, due, wonAt, Running, Flushing(due, {0}, failures), b.flush);
    longer := Go(b, longer, FlushFails(0));
  }

  /** A round that is still under way when the key has lapsed. */
  lemma LateRound(b: Bounds, steps: seq<Step>, due: int, wonAt: int, since: int, failures: nat)
    returns (longer: seq<Step>)
    requires since + UPDATE_INTERVAL <= due <= wonAt + KEY_TTL <= due + b.flush
    requires IsRun(Scheduled(b), INITIAL, steps)
    requires After(Scheduled(b), INITIAL, steps) == Solo(due, wonAt, Running, Asleep(since, failures))
    ensures IsRun(Scheduled(b), INITIAL, longer)
    ensures !Exclusive(After(Scheduled(b), INITIAL, longer))
  {
    SoloSnapshot(due, wonAt, Running, since, failures);
    longer := Go(b, steps, Snapshot(0));
    longer := Wait(b, longer, due, wonAt, Running, Flushing(due, {0}, failures), wonAt + KEY_TTL - due);
    longer := SecondWinner(b, longer, wonAt, Running, Flushing(due, {0}, failures));
  }

  /** As many rounds fail as may; the one after them is late, or finds the session popped. */
  lemma {:induction false} FailingRounds(
    b: Bounds, steps: seq<Step>, due: int, wonAt: int, since: int, failures: nat)
    returns (longer: seq<Step>)
    requires UPDATE_INTERVAL <= b.sleep && !WithinLease(b)
    requires failures <= b.failures && since + UPDATE_INTERVAL <= due && wonAt + UPDATE_INTERVAL <= due
    requires due == wonAt + b.start + b.flush + b.sleep + Retries(b, failures) < wonAt + KEY_TTL
    requires IsRun(Scheduled(b), INITIAL, steps)
    requires After(Scheduled(b), INITIAL, steps) == Solo(due, wonAt, Running, Asleep(since, failures))
    ensures IsRun(Scheduled(b), INITIAL, longer)
    ensures !Exclusive(After(Scheduled(b), INITIAL, longer))
    decreases b.failures - failures
  {
    var lapse := wonAt + KEY_TTL;
    if lapse <= due + b.flush {
      longer := LateRound(b, steps, due, wonAt, since, failures);
    } else if failures == b.failures {
      var task;
      longer, task := SlowDelete(b, steps, due, wonAt, since, failures, lapse - due);
      longer := StaleDelete(b, longer, wonAt, due, task);
    } else {
      var failed := due + b.flush;
      var task := Asleep(failed - UPDATE_INTERVAL, failures + 1);
      longer := FailingRound(b, steps, due, wonAt, since, failures);
      if lapse <= failed + b.sleep - UPDATE_INTERVAL {
        longer := Wait(b, longer, failed, wonAt, Running, task, lapse - failed);
        longer := SecondWinner(b, longer, wonAt, Running, task);
      } else {
        var next := failed + b.sleep - UPDATE_INTERVAL;
        longer := Wait(b, longer, failed, wonAt, Running, task, b.sleep - UPDATE_INTERVAL);
        longer := FailingRounds(b, longer, next, wonAt, task.since, failures + 1);
      }
    }
  }

  /** A start that takes as long as it may, and just misses a snapshot. */
  lemma MissedSnapshot(b: Bounds) returns (steps: seq<Step>, now: int)
    requires UPDATE_INTERVAL <= b.sleep
    ensures IsRun(Scheduled(b), INITIAL, steps)
    ensures After(Scheduled(b), INITIAL, steps) == Solo(now, now - b.start, Running, Flushing(now, {}, 0))
  {
    steps, now := SlowStart(b, b.start);
    var wonAt := now - b.start;
    steps := Go(b, steps, Snapshot(0));
    SoloSnapshot(now, wonAt, Starting(wonAt), now - UPDATE_INTERVAL, 0);
    steps := Go(b, steps, Register(0, 0));
  }

  lemma BreakingRun(b: Bounds) returns (steps: seq<Step>)
    requires UPDATE_INTERVAL <= b.sleep && !WithinLease(b)
    ensures IsRun(Scheduled(b), INITIAL, steps)
    ensures !Exclusive(After(Scheduled(b), INITIAL, steps))
  {
    var now;
    if KEY_TTL <= b.start {
      steps, now := SlowStart(b, KEY_TTL);
      steps := SecondWinner(b, steps, now - KEY_TTL, Starting(now - KEY_TTL), Asleep(now - UPDATE_INTERVAL, 0));
    } else {
      steps, now := MissedSnapshot(b);
      steps := AfterRegistration(b, steps, now, now - b.start);
    }
  }

  /** The exact line: the exclusion holds in every run of a schedule if and only if the worst
      gap the schedule allows is shorter than the lifetime of a key. */
  lemma ExclusiveIffWithinLease(b: Bounds)
    requires UPDATE_INTERVAL <= b.sleep
    ensures WithinLease(b) <==>
      forall steps :: IsRun(Scheduled(b), INITIAL, steps) ==> Exclusive(After(Scheduled(b), INITIAL, steps))
  {
    if WithinLease(b) {
      forall steps | IsRun(Scheduled(b), INITIAL, steps)
        ensures Exclusive(After(Scheduled(b), INITIAL, steps))
      {
        ScheduledRunIsLeaseRun(INITIAL, steps, b);
        MutualExclusion(steps);
      }
    } else {
      var steps := BreakingRun(b);
    }
  }
}
