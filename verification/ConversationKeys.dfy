/** What the steps of the lease do to the keys themselves. */
module ConversationKeys {
  import opened ConversationLease

  /*** One step. ***/

  /** The key is there and expires at the given time. */
  predicate Expires(s: State, c: ConversationId, at: int) {
    c in s.expiry && s.expiry[c] == at
  }

  predicate SameKey(s: State, t: State, c: ConversationId) {
    (c in t.expiry <==> c in s.expiry) && (c in s.expiry ==> t.expiry[c] == s.expiry[c])
  }

  /** A pipeline writes every key of its snapshot anew, whether it is still stored or not, and no
      other; and the server takes it for a write of the keys it still holds. */
  lemma FlushWritesKeys(s: State, n: NodeId)
    requires Enabled(s, Flush(n))
    ensures var t := Apply(s, Flush(n));
            && (forall c :: c in s.tasks[n].conversations ==> Expires(t, c, s.now + 15))
            && (forall c :: c !in s.tasks[n].conversations ==> SameKey(s, t, c))
            && (forall k :: k in s.holds <==> k in t.holds)
            && (forall k :: k in s.holds ==> t.holds[k] == s.holds[k].(wroteAt :=
                  if k.0 == n && k.1 in s.tasks[n].conversations then s.now else s.holds[k].wroteAt))
  {
  }

  /** The same for a pipeline that arrives after its server has crashed. */
  lemma OrphanWritesKeys(s: State, conversations: set<ConversationId>)
    requires Enabled(s, FlushOrphan(conversations))
    ensures var t := Apply(s, FlushOrphan(conversations));
            && (forall c :: c in conversations ==> Expires(t, c, s.now + 15))
            && (forall c :: c !in conversations ==> SameKey(s, t, c))
            && t.holds == s.holds
  {
  }

  /** An attempt wins exactly when the key is absent or has expired; the winner holds the
      conversation and its key lasts 15 seconds, and a loser changes nothing. */
  lemma StartWritesKey(s: State, n: NodeId, c: ConversationId)
    requires Enabled(s, TryStart(n, c))
    ensures var t := Apply(s, TryStart(n, c));
            var free := c !in s.expiry || s.expiry[c] <= s.now;
            && (Wins(s, TryStart(n, c), c) <==> free)
            && (free ==> Expires(t, c, s.now + 15) && (n, c) in t.holds && t.holds[(n, c)].phase == Starting(s.now))
            && (!free ==> t == s)
            && (forall d :: d != c ==> SameKey(s, t, d))
  {
  }

  /** A snapshot is the conversations that the server runs, no more and no less. */
  lemma SnapshotIsRunning(s: State, n: NodeId, c: ConversationId)
    requires Enabled(s, Snapshot(n))
    ensures var t := Apply(s, Snapshot(n));
            && t.tasks[n].Flushing?
            && (c in t.tasks[n].conversations <==> (n, c) in s.holds && s.holds[(n, c)].phase == Running)
  {
    if (n, c) in s.holds && s.holds[(n, c)].phase == Running {
      assert (n, c).0 == n && (n, c).1 == c;
    }
  }

  /** Only attempts to start, pipelines and deletions change keys; closing deletes exactly its own. */
  lemma OtherStepsLeaveKeys(s: State, step: Step, c: ConversationId)
    requires Enabled(s, step)
    ensures var t := Apply(s, step);
            && (step.DeleteKey? && step.c == c ==> c !in t.expiry)
            && (step.DeleteKey? && step.c != c ==> SameKey(s, t, c))
            && (!step.TryStart? && !step.Flush? && !step.FlushOrphan? && !step.DeleteKey? ==> SameKey(s, t, c))
  {
  }

  /** A crash takes the server and all it held away, but not its keys, and a pipeline that it had sent
      may still arrive. */
  lemma CrashLeavesPipeline(s: State, n: NodeId)
    requires Enabled(s, Crash(n))
    ensures var t := Apply(s, Crash(n));
            && n !in t.tasks && t.expiry == s.expiry
            && (forall k :: k in t.holds <==> k in s.holds && k.0 != n)
            && (s.tasks[n].Flushing? ==> Enabled(t, FlushOrphan(s.tasks[n].conversations)))
            && (forall cs :: Enabled(s, FlushOrphan(cs)) ==> Enabled(t, FlushOrphan(cs)))
  {
  }

  /** Starting, registering, popping and deleting, in the life of a session. */
  lemma PhasesAre(s: State, n: NodeId, c: ConversationId)
    ensures Enabled(s, Register(n, c)) ==> Apply(s, Register(n, c)).holds[(n, c)] == s.holds[(n, c)].(phase := Running)
    ensures Enabled(s, PopSession(n, c)) ==>
              Apply(s, PopSession(n, c)).holds[(n, c)] == s.holds[(n, c)].(phase := Closing(s.now))
    ensures Enabled(s, DeleteKey(n, c)) ==>
              var t := Apply(s, DeleteKey(n, c)); (n, c) !in t.holds && c !in t.expiry && (n, c) in t.draining
    ensures Enabled(s, AbortStart(n, c)) ==>
              var t := Apply(s, AbortStart(n, c)); (n, c) !in t.holds && t.expiry == s.expiry
  {
  }

  /** A live server may at any time try to start, or crash; what it is starting may succeed or fail; what
      it runs may be closed, and what it has popped deleted; a round begins five seconds after the last
      one, and a pipeline may arrive or fail; and one of a crashed server may arrive. */
  lemma StepsArePossible(s: State, n: NodeId, c: ConversationId)
    ensures Enabled(s, TryStart(n, c)) <==> n in s.tasks
    ensures Enabled(s, Crash(n)) <==> n in s.tasks
    ensures Enabled(s, Join(n)) <==> n !in s.tasks
    ensures (n, c) in s.holds && s.holds[(n, c)].phase.Starting? ==>
              Enabled(s, Register(n, c)) && Enabled(s, AbortStart(n, c))
    ensures (n, c) in s.holds && s.holds[(n, c)].phase == Running ==> Enabled(s, PopSession(n, c))
    ensures (n, c) in s.holds && s.holds[(n, c)].phase.Closing? ==> Enabled(s, DeleteKey(n, c))
    ensures n in s.tasks && s.tasks[n].Flushing? <==> Enabled(s, Flush(n)) && Enabled(s, FlushFails(n))
    ensures n in s.tasks && s.tasks[n].Asleep? ==> (s.now >= s.tasks[n].since + 5 <==> Enabled(s, Snapshot(n)))
    ensures forall cs :: cs in s.orphans <==> Enabled(s, FlushOrphan(cs))
    ensures forall seconds :: Enabled(s, Tick(seconds))
  {
  }

  /*** Runs. ***/

  predicate Deletes(step: Step, c: ConversationId) {
    step.DeleteKey? && step.c == c
  }

  /** Some attempt of the run wins c. */
  predicate SomeWin(r: Regime, s: State, steps: seq<Step>, c: ConversationId)
    requires IsRun(r, s, steps)
    decreases |steps|
  {
    steps != [] && (Wins(s, steps[0], c) || SomeWin(r, Apply(s, steps[0]), steps[1..], c))
  }

  predicate LastsUntil(s: State, c: ConversationId, at: int) {
    c in s.expiry && at <= s.expiry[c]
  }

  lemma StepKeepsKey(s: State, step: Step, c: ConversationId, at: int)
    requires Enabled(s, step) && !Deletes(step, c) && LastsUntil(s, c, at) && at <= s.now + 15
    ensures LastsUntil(Apply(s, step), c, at) && s.now <= Apply(s, step).now
  {
  }

  /** A key that lasts until some time refuses every attempt before it, as long as it is not deleted. */
  lemma {:induction false} LastingKeyRefuses(r: Regime, s: State, steps: seq<Step>, c: ConversationId, at: int)
    requires IsRun(r, s, steps) && LastsUntil(s, c, at) && at <= s.now + 15
    requires forall i :: 0 <= i < |steps| ==> !Deletes(steps[i], c)
    ensures s.now <= After(r, s, steps).now
    ensures After(r, s, steps).now < at ==> !SomeWin(r, s, steps, c) && KeyLive(After(r, s, steps), c)
    decreases |steps|
  {
    if steps != [] {
      var t := Apply(s, steps[0]);
      StepKeepsKey(s, steps[0], c, at);
      LastingKeyRefuses(r, t, steps[1..], c, at);
    }
  }

  /** For 15 seconds after a pipeline with c has arrived, no attempt on c wins as long as c's key is
      not deleted, whether anybody holds c or not. */
  lemma FlushedKeyRefuses(r: Regime, s: State, flush: Step, steps: seq<Step>, c: ConversationId)
    requires Enabled(s, flush)
    requires || (flush.Flush? && c in s.tasks[flush.n].conversations)
             || (flush.FlushOrphan? && c in flush.conversations)
    requires IsRun(r, Apply(s, flush), steps) && forall i :: 0 <= i < |steps| ==> !Deletes(steps[i], c)
    requires After(r, Apply(s, flush), steps).now < s.now + 15
    ensures !SomeWin(r, Apply(s, flush), steps, c) && KeyLive(After(r, Apply(s, flush), steps), c)
  {
    if flush.Flush? {
      FlushWritesKeys(s, flush.n);
    } else {
      OrphanWritesKeys(s, flush.conversations);
    }
    LastingKeyRefuses(r, Apply(s, flush), steps, c, s.now + 15);
  }

  /*** A late pipeline. ***/

  const POPPED := State(0, map[0 := 15], map[(0, 0) := Hold(Closing(0), 0)],
                        map[0 := Flushing(0, {0}, 0), 1 := Asleep(-5, 0)], multiset{}, {})

  lemma PoppedUnderFlush() returns (steps: seq<Step>)
    ensures LeaseRun(INITIAL, steps) && Then(INITIAL, steps) == POPPED
  {
    steps := Continue([], Join(0));
    steps := Continue(steps, Join(1));
    steps := Continue(steps, TryStart(0, 0));
    steps := Continue(steps, Register(0, 0));
    var s := Then(INITIAL, steps);
    SnapshotIsRunning(s, 0, 0);
    assert LocalLoops(s, 0) == {0};
    steps := Continue(steps, Snapshot(0));
    steps := Continue(steps, PopSession(0, 0));
    assert Then(INITIAL, steps).holds == POPPED.holds;
  }

  /** A session that is closed under a pipeline: it is popped, its key is deleted, and then the
      pipeline arrives and stores the key again. Nobody holds the conversation, and yet the next
      attempt to start it is refused. */
  lemma LatePipelineRefusesStart()
    ensures exists steps ::
              && LeaseRun(INITIAL, steps) && 0 !in Then(INITIAL, steps).expiry && !Held(Then(INITIAL, steps), 0)
              && Allowed(OwnGaps, Then(INITIAL, steps), Flush(0))
              && var t := Apply(Then(INITIAL, steps), Flush(0));
                 Expires(t, 0, t.now + 15) && !Held(t, 0) && !Wins(t, TryStart(1, 0), 0)
  {
    var steps := PoppedUnderFlush();
    steps := Continue(steps, DeleteKey(0, 0));
    var s := Then(INITIAL, steps);
    assert s.holds == map[];
    FlushWritesKeys(s, 0);
    assert 0 in s.tasks[0].conversations;
    StartWritesKey(Apply(s, Flush(0)), 1, 0);
  }
}
