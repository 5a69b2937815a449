/** The Redis lease that lets at most one server run a conversation.

    A server wins the key of a conversation with SET NX EX 15, registers the agent loop in
    its local dictionary some time later, and from then on its update task re-writes the keys
    of the dictionary: it snapshots the dictionary into a pipeline, and the pipeline runs
    later.  Closing pops the dictionary first, deletes the key second and shuts the agent
    down last.  A server may crash at any point, and a pipeline it had sent may still arrive.

    Every await of the source is a place where other steps may happen, so the protocol is a
    state machine whose steps are the code between two awaits, together with the clock. */
module ConversationLease {

  type NodeId = int
  type ConversationId = int

  /** Seconds after which a key that is not re-written expires. */
  const KEY_TTL: nat := 15

  /** Seconds the update task sleeps between two rounds. */
  const UPDATE_INTERVAL: nat := 5

  datatype Phase =
    | Starting(wonAt: int)    // the key is won, the loop is not yet in the local dictionary
    | Running                 // the loop is in the local dictionary
    | Closing(poppedAt: int)  // popped from the dictionary, the key is not yet deleted

  /** What a node knows of a conversation it has won; wroteAt is its own last write of the key. */
  datatype Hold = Hold(phase: Phase, wroteAt: int)

  /** failures counts the rounds that have failed since the last one that did not. */
  datatype UpdateTask =
    | Asleep(since: int, failures: nat)
    | Flushing(since: int, conversations: set<ConversationId>, failures: nat)

  datatype State = State(
    now: int,
    expiry: map<ConversationId, int>,
    holds: map<(NodeId, ConversationId), Hold>,
    tasks: map<NodeId, UpdateTask>,                // the live nodes and their update tasks
    orphans: multiset<set<ConversationId>>,        // pipelines sent by nodes that have crashed
    draining: set<(NodeId, ConversationId)>        // key deleted, session.close() not yet done
  )

  const INITIAL := State(0, map[], map[], map[], multiset{}, {})

  datatype Step =
    | Join(n: NodeId)
    | TryStart(n: NodeId, c: ConversationId)
    | AbortStart(n: NodeId, c: ConversationId)
    | Register(n: NodeId, c: ConversationId)
    | Snapshot(n: NodeId)
    | Flush(n: NodeId)
    | FlushFails(n: NodeId)
    | FlushOrphan(conversations: set<ConversationId>)
    | PopSession(n: NodeId, c: ConversationId)
    | DeleteKey(n: NodeId, c: ConversationId)
    | SessionClosed(n: NodeId, c: ConversationId)
    | Crash(n: NodeId)
    | Tick(seconds: nat)

  predicate KeyLive(s: State, c: ConversationId) {
    c in s.expiry && s.now < s.expiry[c]
  }

  /** A node is starting or running the conversation. */
  predicate Active(s: State, n: NodeId, c: ConversationId) {
    (n, c) in s.holds && !s.holds[(n, c)].phase.Closing?
  }

  ghost predicate Exclusive(s: State) {
    forall n1, n2, c :: Active(s, n1, c) && Active(s, n2, c) ==> n1 == n2
  }

  predicate Wins(s: State, step: Step, c: ConversationId) {
    step.TryStart? && step.c == c && !KeyLive(s, c)
  }

  /** SET key EX on every conversation of a pipeline. */
  function Refreshed(expiry: map<ConversationId, int>, conversations: set<ConversationId>, now: int)
    : map<ConversationId, int>
  {
    map c | c in expiry.Keys + conversations ::
      if c in conversations then now + KEY_TTL else expiry[c]
  }

  function LocalLoops(s: State, n: NodeId): set<ConversationId> {
    set k | k in s.holds && k.0 == n && s.holds[k].phase.Running? :: k.1
  }

  /** When a step may happen.  The clock is restricted separately, by the two regimes below. */
  predicate Enabled(s: State, step: Step) {
    match step
    case Join(n) => n !in s.tasks
    case TryStart(n, c) => n in s.tasks
    case AbortStart(n, c) => (n, c) in s.holds && s.holds[(n, c)].phase.Starting?
    case Register(n, c) => (n, c) in s.holds && s.holds[(n, c)].phase.Starting?
    case Snapshot(n) =>
      n in s.tasks && s.tasks[n].Asleep? && s.tasks[n].since + UPDATE_INTERVAL <= s.now
    case Flush(n) => n in s.tasks && s.tasks[n].Flushing?
    case FlushFails(n) => n in s.tasks && s.tasks[n].Flushing?
    case FlushOrphan(cs) => cs in s.orphans
    case PopSession(n, c) => (n, c) in s.holds && s.holds[(n, c)].phase.Running?
    case DeleteKey(n, c) => (n, c) in s.holds && s.holds[(n, c)].phase.Closing?
    case SessionClosed(n, c) => (n, c) in s.draining
    case Crash(n) => n in s.tasks
    case Tick(_) => true
  }

  /** The state after a step.  A joining node, and one whose round failed, is due at once:
      neither sleeps before the next round. */
  function Apply(s: State, step: Step): State
    requires Enabled(s, step)
  {
    match step
    case Join(n) =>
      s.(tasks := s.tasks[n := Asleep(s.now - UPDATE_INTERVAL, 0)])
    case TryStart(n, c) =>
      if KeyLive(s, c) then s
      else s.(expiry := s.expiry[c := s.now + KEY_TTL],
              holds := s.holds[(n, c) := Hold(Starting(s.now), s.now)])
    case AbortStart(n, c) =>
      s.(holds := s.holds - {(n, c)})
    case Register(n, c) =>
      s.(holds := s.holds[(n, c) := s.holds[(n, c)].(phase := Running)])
    case Snapshot(n) =>
      s.(tasks := s.tasks[n := Flushing(s.now, LocalLoops(s, n), s.tasks[n].failures)])
    case Flush(n) =>
      var cs := s.tasks[n].conversations;
      s.(expiry := Refreshed(s.expiry, cs, s.now),
         holds := map k | k in s.holds ::
           if k.0 == n && k.1 in cs then s.holds[k].(wroteAt := s.now) else s.holds[k],
         tasks := s.tasks[n := Asleep(s.now, 0)])
    case FlushFails(n) =>
      s.(tasks := s.tasks[n := Asleep(s.now - UPDATE_INTERVAL, s.tasks[n].failures + 1)])
    case FlushOrphan(cs) =>
      s.(expiry := Refreshed(s.expiry, cs, s.now), orphans := s.orphans - multiset{cs})
    case PopSession(n, c) =>
      s.(holds := s.holds[(n, c) := s.holds[(n, c)].(phase := Closing(s.now))])
    case DeleteKey(n, c) =>
      s.(expiry := s.expiry - {c}, holds := s.holds - {(n, c)}, draining := s.draining + {(n, c)})
    case SessionClosed(n, c) =>
      s.(draining := s.draining - {(n, c)})
    case Crash(n) =>
      s.(holds := map k | k in s.holds && k.0 != n :: s.holds[k],
         tasks := s.tasks - {n},
         orphans := s.orphans + (if s.tasks[n].Flushing? then multiset{s.tasks[n].conversations}
                                 else multiset{}),
         draining := set k | k in s.draining && k.0 != n)
    case Tick(seconds) =>
      s.(now := s.now + seconds)
  }

  /*** How fast the clock may run. ***/

  /** The times, in seconds, within which the code between two awaits gets its turn: from
      winning a key to registering the loop, from one flush to the next snapshot (the sleep of
      UPDATE_INTERVAL, which a failed round skips, and the scan of the keys), from a snapshot to
      the arrival of its pipeline or its failure,
      from popping a session to the deletion of its key.  failures is the number of rounds of a
      node that may fail one after the other. */
  datatype Bounds = Bounds(start: nat, sleep: nat, flush: nat, delete: nat, failures: nat)

  datatype Regime =
    | OwnGaps            // bounds the distance between a node's own writes of a key
    | Scheduled(b: Bounds)

  /** From its last write of a key (winning it counts), no node lets KEY_TTL seconds pass before
      it writes the key again, deletes it, gives up or crashes.  The bound speaks of the
      node's own writes only, never of the key. */
  predicate GapsBelowTtl(s: State, seconds: nat) {
    forall k :: k in s.holds ==> s.now + seconds < s.holds[k].wroteAt + KEY_TTL
  }

  predicate TaskPunctual(task: UpdateTask, at: int, b: Bounds) {
    at <= task.since + if task.Asleep? then b.sleep else b.flush
  }

  predicate HoldPunctual(h: Hold, at: int, b: Bounds) {
    match h.phase
    case Starting(wonAt) => at <= wonAt + b.start
    case Running => true
    case Closing(poppedAt) => at <= poppedAt + b.delete
  }

  predicate Punctual(s: State, seconds: nat, b: Bounds) {
    && (forall n :: n in s.tasks ==> TaskPunctual(s.tasks[n], s.now + seconds, b))
    && (forall k :: k in s.holds ==> HoldPunctual(s.holds[k], s.now + seconds, b))
  }

  predicate Allowed(r: Regime, s: State, step: Step) {
    && Enabled(s, step)
    && match r
       case OwnGaps => step.Tick? ==> GapsBelowTtl(s, step.seconds)
       case Scheduled(b) =>
         && (step.Tick? ==> Punctual(s, step.seconds, b))
         && (step.FlushFails? ==> s.tasks[step.n].failures < b.failures)
  }

  predicate IsRun(r: Regime, s: State, steps: seq<Step>)
    decreases |steps|
  {
    steps == [] || (Allowed(r, s, steps[0]) && IsRun(r, Apply(s, steps[0]), steps[1..]))
  }

  function After(r: Regime, s: State, steps: seq<Step>): State
    requires IsRun(r, s, steps)
    decreases |steps|
  {
    if steps == [] then s else After(r, Apply(s, steps[0]), steps[1..])
  }

  predicate LeaseRun(s: State, steps: seq<Step>) {
    IsRun(OwnGaps, s, steps)
  }

  function Then(s: State, steps: seq<Step>): State
    requires LeaseRun(s, steps)
  {
    After(OwnGaps, s, steps)
  }

  /** Runs grow at the end. */
  lemma {:induction false} Extend(r: Regime, s: State, steps: seq<Step>, step: Step)
    requires IsRun(r, s, steps) && Allowed(r, After(r, s, steps), step)
    ensures IsRun(r, s, steps + [step])
    ensures After(r, s, steps + [step]) == Apply(After(r, s, steps), step)
    decreases |steps|
  {
    var longer := steps + [step];
    if steps == [] {
      assert longer[1..] == [];
    } else {
      assert longer[1..] == steps[1..] + [step];
      Extend(r, Apply(s, steps[0]), steps[1..], step);
    }
  }

  /*** What every step keeps when nodes keep their own writes less than KEY_TTL apart. ***/

  /** The holder of k wrote the key less than KEY_TTL ago, and the key lasts at least KEY_TTL
      longer than that write, whoever else has written it since. */
  predicate Covered(s: State, k: (NodeId, ConversationId))
    requires k in s.holds
  {
    && k.1 in s.expiry
    && s.holds[k].wroteAt <= s.now < s.holds[k].wroteAt + KEY_TTL <= s.expiry[k.1]
  }

  /** What every step keeps. */
  ghost predicate LeaseInv(s: State) {
    && (forall c :: c in s.expiry ==> s.expiry[c] <= s.now + KEY_TTL)
    && (forall k :: k in s.holds ==> Covered(s, k))
    && (forall k1, k2 :: k1 in s.holds && k2 in s.holds && k1.1 == k2.1 ==> k1 == k2)
  }

  /** Winning is possible only where nobody holds: a holder's key is live. */
  lemma TryStartKeepsInv(s: State, n: NodeId, c: ConversationId)
    requires LeaseInv(s) && Enabled(s, TryStart(n, c))
    ensures LeaseInv(Apply(s, TryStart(n, c)))
  {
    if !KeyLive(s, c) {
      assert forall k :: k in s.holds ==> Covered(s, k) && k.1 != c;
    }
  }

  /** Writing keys never shortens one. */
  lemma RefreshKeepsInv(s: State, conversations: set<ConversationId>, s': State)
    requires LeaseInv(s) && s'.now == s.now
    requires s'.expiry == Refreshed(s.expiry, conversations, s.now)
    requires s'.holds.Keys == s.holds.Keys
    requires forall k :: k in s.holds ==>
      s'.holds[k].wroteAt == s.holds[k].wroteAt || (k.1 in conversations && s'.holds[k].wroteAt == s.now)
    ensures LeaseInv(s')
  {
    forall k | k in s'.holds ensures Covered(s', k) { assert Covered(s, k); }
  }

  /** Holds may be dropped at any time, and a key may be deleted once nobody holds it. */
  lemma DropKeepsInv(s: State, s': State)
    requires LeaseInv(s) && s'.now == s.now
    requires s'.expiry.Keys <= s.expiry.Keys && s'.holds.Keys <= s.holds.Keys
    requires forall c :: c in s'.expiry ==> s'.expiry[c] == s.expiry[c]
    requires forall k :: k in s'.holds ==> k.1 in s'.expiry && s'.holds[k].wroteAt == s.holds[k].wroteAt
    ensures LeaseInv(s')
  {
    forall k | k in s'.holds ensures Covered(s', k) { assert Covered(s, k); }
  }

  lemma LeaseStepKeepsInv(s: State, step: Step)
    requires LeaseInv(s) && Allowed(OwnGaps, s, step)
    ensures LeaseInv(Apply(s, step))
  {
    var s' := Apply(s, step);
    match step
    case TryStart(n, c) => TryStartKeepsInv(s, n, c);
    case Flush(n) => RefreshKeepsInv(s, s.tasks[n].conversations, s');
    case FlushOrphan(cs) => RefreshKeepsInv(s, cs, s');
    case DeleteKey(n, c) => DeleteKeepsInv(s, n, c);
    case Tick(_) => forall k | k in s'.holds ensures Covered(s', k) { assert Covered(s, k); }
    case _ =>
      assert forall k :: k in s.holds ==> Covered(s, k);
      DropKeepsInv(s, s');
  }

  /** The holder is the only one, so nobody loses a key by its deletion. */
  lemma DeleteKeepsInv(s: State, n: NodeId, c: ConversationId)
    requires LeaseInv(s) && Enabled(s, DeleteKey(n, c))
    ensures LeaseInv(Apply(s, DeleteKey(n, c)))
  {
    var s' := Apply(s, DeleteKey(n, c));
    forall k | k in s'.holds ensures k.1 in s'.expiry {
      assert Covered(s, k);
      assert k.1 != (n, c).1;
    }
    DropKeepsInv(s, s');
  }

  lemma {:induction false} LeaseRunKeepsInv(s: State, steps: seq<Step>)
    requires LeaseInv(s) && LeaseRun(s, steps)
    ensures LeaseInv(Then(s, steps))
    decreases |steps|
  {
    if steps != [] {
      LeaseStepKeepsInv(s, steps[0]);
      LeaseRunKeepsInv(Apply(s, steps[0]), steps[1..]);
    }
  }

  /** In every reachable state at most one node starts or runs a conversation, and while one
      does its key is live. */
  lemma MutualExclusion(steps: seq<Step>)
    requires LeaseRun(INITIAL, steps)
    ensures Exclusive(Then(INITIAL, steps))
    ensures forall n, c :: Active(Then(INITIAL, steps), n, c) ==> KeyLive(Then(INITIAL, steps), c)
  {
    LeaseRunKeepsInv(INITIAL, steps);
    var s := Then(INITIAL, steps);
    forall n1, n2, c | Active(s, n1, c) && Active(s, n2, c)
      ensures n1 == n2
    {
      assert (n1, c) in s.holds && (n2, c) in s.holds;
    }
    forall n, c | Active(s, n, c)
      ensures KeyLive(s, c)
    {
      assert (n, c) in s.holds;
    }
  }

  /*** Conservation: a conversation changes hands only through a release. ***/

  predicate Held(s: State, c: ConversationId) {
    exists k :: k in s.holds && k.1 == c
  }

  /** The step ends somebody's hold of c: the start fails, the key is deleted, or the node dies. */
  predicate Releases(s: State, step: Step, c: ConversationId) {
    match step
    case AbortStart(n, c') => c' == c
    case DeleteKey(n, c') => c' == c
    case Crash(n) => (n, c) in s.holds
    case _ => false
  }

  function WinCount(s: State, steps: seq<Step>, c: ConversationId): nat
    requires LeaseRun(s, steps)
    decreases |steps|
  {
    if steps == [] then 0
    else (if Wins(s, steps[0], c) then 1 else 0) + WinCount(Apply(s, steps[0]), steps[1..], c)
  }

  function ReleaseCount(s: State, steps: seq<Step>, c: ConversationId): nat
    requires LeaseRun(s, steps)
    decreases |steps|
  {
    if steps == [] then 0
    else (if Releases(s, steps[0], c) then 1 else 0) + ReleaseCount(Apply(s, steps[0]), steps[1..], c)
  }

  function HeldCount(s: State, c: ConversationId): nat {
    if Held(s, c) then 1 else 0
  }

  lemma StepConservesHolds(s: State, step: Step, c: ConversationId)
    requires LeaseInv(s) && Allowed(OwnGaps, s, step)
    ensures HeldCount(s, c) + (if Wins(s, step, c) then 1 else 0)
         == HeldCount(Apply(s, step), c) + (if Releases(s, step, c) then 1 else 0)
  {
    var s' := Apply(s, step);
    if Wins(s, step, c) {
      assert (step.n, c) in s'.holds;
      forall k | k in s.holds ensures k.1 != c { assert Covered(s, k); }
    } else if Releases(s, step, c) {
      assert (step.n, c) in s.holds;
      assert forall k :: k in s'.holds ==> k in s.holds && k != (step.n, c);
    } else {
      assert forall k: (NodeId, ConversationId) :: k.1 == c ==> (k in s.holds <==> k in s'.holds);
    }
  }

  /** Over every run, the wins of a conversation and its releases balance. */
  lemma {:induction false} WinsAndReleasesBalance(s: State, steps: seq<Step>, c: ConversationId)
    requires LeaseInv(s) && LeaseRun(s, steps)
    ensures HeldCount(s, c) + WinCount(s, steps, c)
         == HeldCount(Then(s, steps), c) + ReleaseCount(s, steps, c)
    decreases |steps|
  {
    if steps != [] {
      LeaseStepKeepsInv(s, steps[0]);
      StepConservesHolds(s, steps[0], c);
      WinsAndReleasesBalance(Apply(s, steps[0]), steps[1..], c);
    }
  }

  /** However many nodes try to restart a conversation, at most one wins until that one lets go. */
  lemma AtMostOneWinner(steps: seq<Step>, more: seq<Step>, c: ConversationId)
    requires LeaseRun(INITIAL, steps) && LeaseRun(Then(INITIAL, steps), more)
    requires ReleaseCount(Then(INITIAL, steps), more, c) == 0
    ensures WinCount(Then(INITIAL, steps), more, c) <= 1
    ensures Held(Then(INITIAL, steps), c) ==> WinCount(Then(INITIAL, steps), more, c) == 0
  {
    LeaseRunKeepsInv(INITIAL, steps);
    WinsAndReleasesBalance(Then(INITIAL, steps), more, c);
  }

  /*** Recovery from a crash. ***/

  predicate Writes(s: State, step: Step, c: ConversationId) {
    match step
    case TryStart(n, c') => Wins(s, step, c)
    case Flush(n) => n in s.tasks && s.tasks[n].Flushing? && c in s.tasks[n].conversations
    case FlushOrphan(cs) => c in cs
    case _ => false
  }

  predicate Untouched(s: State, steps: seq<Step>, c: ConversationId)
    requires LeaseRun(s, steps)
    decreases |steps|
  {
    steps == [] || (!Writes(s, steps[0], c) && Untouched(Apply(s, steps[0]), steps[1..], c))
  }

  lemma {:induction false} UntouchedKeyKeepsExpiry(s: State, steps: seq<Step>, c: ConversationId)
    requires LeaseRun(s, steps) && Untouched(s, steps, c)
    ensures s.now <= Then(s, steps).now
    ensures c in Then(s, steps).expiry ==> c in s.expiry && Then(s, steps).expiry[c] == s.expiry[c]
    decreases |steps|
  {
    if steps != [] {
      UntouchedKeyKeepsExpiry(Apply(s, steps[0]), steps[1..], c);
    }
  }

  /** The key of a conversation is gone no later than KEY_TTL seconds after the last write to it. */
  lemma KeyExpiresAfterLastWrite(steps: seq<Step>, more: seq<Step>, c: ConversationId)
    requires LeaseRun(INITIAL, steps) && LeaseRun(Then(INITIAL, steps), more)
    requires Untouched(Then(INITIAL, steps), more, c)
    ensures var s, s' := Then(INITIAL, steps), Then(Then(INITIAL, steps), more);
            KeyLive(s', c) ==> s'.now < s.now + KEY_TTL
  {
    LeaseRunKeepsInv(INITIAL, steps);
    UntouchedKeyKeepsExpiry(Then(INITIAL, steps), more, c);
  }

  /** Nobody holds c and no pipeline in flight writes its key: the state a crash of the holder
      leaves once its last pipeline has arrived or is lost. */
  predicate Orphaned(s: State, c: ConversationId) {
    && !Held(s, c)
    && (forall n :: n in s.tasks && s.tasks[n].Flushing? ==> c !in s.tasks[n].conversations)
    && (forall cs :: cs in s.orphans ==> c !in cs)
  }

  lemma OrphanedStep(s: State, step: Step, c: ConversationId)
    requires Allowed(OwnGaps, s, step) && Orphaned(s, c) && !Wins(s, step, c)
    ensures !Writes(s, step, c) && Orphaned(Apply(s, step), c)
  {
    var s' := Apply(s, step);
    assert forall k :: k in s'.holds && k.1 == c ==> k in s.holds;
    if step.Snapshot? {
      assert forall k :: k in s.holds ==> k.1 != c;
    }
    assert !Held(s', c);
  }

  lemma {:induction false} OrphanedUntilWon(s: State, steps: seq<Step>, c: ConversationId)
    requires LeaseRun(s, steps) && Orphaned(s, c) && WinCount(s, steps, c) == 0
    ensures Untouched(s, steps, c) && Orphaned(Then(s, steps), c)
    decreases |steps|
  {
    if steps != [] {
      OrphanedStep(s, steps[0], c);
      OrphanedUntilWon(Apply(s, steps[0]), steps[1..], c);
    }
  }

  /** An orphaned conversation can be restarted: as long as nobody has won it, any attempt
      wins once its key has lapsed, and the key has lapsed KEY_TTL seconds later at the latest
      (at once, if it had lapsed already). */
  lemma FirstAttemptAfterExpiryWins(steps: seq<Step>, more: seq<Step>, n: NodeId, c: ConversationId)
    requires LeaseRun(INITIAL, steps) && LeaseRun(Then(INITIAL, steps), more)
    requires Orphaned(Then(INITIAL, steps), c) && WinCount(Then(INITIAL, steps), more, c) == 0
    ensures var s, s' := Then(INITIAL, steps), Then(Then(INITIAL, steps), more);
            s.now + KEY_TTL <= s'.now || !KeyLive(s, c) ==> Wins(s', TryStart(n, c), c)
  {
    OrphanedUntilWon(Then(INITIAL, steps), more, c);
    UntouchedKeyKeepsExpiry(Then(INITIAL, steps), more, c);
    KeyExpiresAfterLastWrite(steps, more, c);
  }

  /** The exclusion is about starting and running.  The key is deleted before session.close()
      has shut the agent down, so the next owner can run beside the agent of the last. */
  lemma NextOwnerMayOverlapClosingAgent()
    ensures exists steps :: (
      && LeaseRun(INITIAL, steps)
      && (0, 0) in Then(INITIAL, steps).draining
      && Active(Then(INITIAL, steps), 1, 0))
  {
    var steps := [];
    steps := Continue(steps, Join(0));
    steps := Continue(steps, Join(1));
    steps := Continue(steps, TryStart(0, 0));
    steps := Continue(steps, Register(0, 0));
    steps := Continue(steps, PopSession(0, 0));
    steps := Continue(steps, DeleteKey(0, 0));
    steps := Continue(steps, TryStart(1, 0));
  }

  lemma Continue(steps: seq<Step>, step: Step) returns (longer: seq<Step>)
    requires LeaseRun(INITIAL, steps) && Allowed(OwnGaps, Then(INITIAL, steps), step)
    ensures LeaseRun(INITIAL, longer)
    ensures Then(INITIAL, longer) == Apply(Then(INITIAL, steps), step)
  {
    Extend(OwnGaps, INITIAL, steps, step);
    longer := steps + [step];
  }
}
