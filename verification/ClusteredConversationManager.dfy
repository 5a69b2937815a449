/** The code of one server, cut at its awaits.

    A ConversationManager changes its own dictionary and the shared Redis in place.  Each method
    below is the code between two awaits, and is proved to be a step of the protocol: whatever
    the rest of the cluster is doing, if the fields represent this node's part of a protocol
    state before the call, they represent its part of the next one after it. */
module ClusteredConversationManager {
  import opened ConversationLease

  /** The conversation keys, with the times at which they expire. */
  class Redis {
    var now: int
    var expiry: map<ConversationId, int>

    constructor ()
      ensures now == 0 && expiry == map[]
    {
      now, expiry := 0, map[];
    }

    /** SET key NX EX */
    method SetIfAbsent(c: ConversationId) returns (created: bool)
      modifies `expiry
      ensures created <==> !(c in old(expiry) && now < old(expiry)[c])
      ensures expiry == if created then old(expiry)[c := now + KEY_TTL] else old(expiry)
    {
      created := !(c in expiry && now < expiry[c]);
      if created {
        expiry := expiry[c := now + KEY_TTL];
      }
    }

    /** SET key EX */
    method SetExpiring(c: ConversationId)
      modifies `expiry
      ensures expiry == old(expiry)[c := now + KEY_TTL]
    {
      expiry := expiry[c := now + KEY_TTL];
    }

    method Delete(c: ConversationId)
      modifies `expiry
      ensures expiry == old(expiry) - {c}
    {
      expiry := expiry - {c};
    }
  }

  method AnyOf(conversations: set<ConversationId>) returns (c: ConversationId)
    requires conversations != {}
    ensures c in conversations
  {
    EmptyOrNot(conversations);
    c :| c in conversations;
  }

  lemma EmptyOrNot(conversations: set<ConversationId>)
    ensures conversations == {} || exists c :: c in conversations
  {
    if forall c :: c !in conversations {
      assert conversations == {};
    }
  }

  /** The nodes whose fields a step touches. */
  predicate ActsOn(step: Step, m: NodeId) {
    match step
    case FlushOrphan(_) => false
    case Tick(_) => false
    case _ => step.n == m
  }

  class ConversationManager {
    const id: NodeId
    const redis: Redis
    var localAgentLoops: set<ConversationId>
    var starting: set<ConversationId>        // calls that have won a key and not yet registered
    var closing: set<ConversationId>         // calls that have popped a session and not yet deleted its key
    var flushing: bool
    var pipeline: set<ConversationId>

    /** Keys and clock are those of the protocol state s, and the fields are this node's part of it. */
    ghost predicate Represents(s: State)
      reads this, redis
    {
      s.now == redis.now && s.expiry == redis.expiry && RepresentsPart(s)
    }

    ghost predicate RepresentsPart(s: State)
      reads this
    {
      && id in s.tasks && flushing == s.tasks[id].Flushing?
      && (flushing ==> pipeline == s.tasks[id].conversations)
      && (forall c :: c in starting <==> (id, c) in s.holds && s.holds[(id, c)].phase.Starting?)
      && (forall c :: c in localAgentLoops <==> (id, c) in s.holds && s.holds[(id, c)].phase.Running?)
      && (forall c :: c in closing <==> (id, c) in s.holds && s.holds[(id, c)].phase.Closing?)
    }

    lemma StepIsLocal(s: State, step: Step)
      requires Enabled(s, step) && !ActsOn(step, id) && RepresentsPart(s)
      ensures RepresentsPart(Apply(s, step))
    {
      var s' := Apply(s, step);
      forall c ensures (id, c) in s.holds <==> (id, c) in s'.holds {
      }
      forall c | (id, c) in s.holds ensures s'.holds[(id, c)] == s.holds[(id, c)] {
      }
    }

    /** Between two calls on this node, whatever the others do: their steps move the shared keys and
        the clock, and the fields still are this node's part of the protocol state. */
    lemma {:induction false} PartIsLocal(s: State, steps: seq<Step>)
      requires LeaseRun(s, steps) && RepresentsPart(s)
      requires forall i :: 0 <= i < |steps| ==> !ActsOn(steps[i], id)
      ensures RepresentsPart(Then(s, steps))
      decreases |steps|
    {
      if steps != [] {
        StepIsLocal(s, steps[0]);
        PartIsLocal(Apply(s, steps[0]), steps[1..]);
      }
    }

    constructor (id: NodeId, redis: Redis, ghost s: State)
      requires LeaseInv(s) && id !in s.tasks && s.now == redis.now && s.expiry == redis.expiry
      requires forall c :: (id, c) !in s.holds
      ensures this.id == id && this.redis == redis && Represents(Apply(s, Join(id)))
    {
      this.id, this.redis := id, redis;
      localAgentLoops, starting, closing, flushing, pipeline := {}, {}, {}, false, {};
    }

    /** maybe_start_agent_loop up to the await in _start_agent_loop. */
    method MaybeStartAgentLoop(c: ConversationId, ghost s: State) returns (created: bool)
      requires LeaseInv(s) && Represents(s)
      modifies this`starting, redis`expiry
      ensures Represents(Apply(s, TryStart(id, c)))
      ensures created <==> Wins(s, TryStart(id, c), c)
      ensures created <==> c !in old(redis.expiry) || old(redis.expiry)[c] <= redis.now
      ensures redis.expiry == if created then old(redis.expiry)[c := redis.now + 15] else old(redis.expiry)
    {
      created := redis.SetIfAbsent(c);
      if created {
        assert forall k :: k in s.holds ==> Covered(s, k) && k.1 != c;
        starting := starting + {c};
      }
    }

    /** The assignment to the dictionary at the end of _start_agent_loop. */
    method RegisterSession(c: ConversationId, ghost s: State)
      requires Represents(s) && c in starting
      modifies this`starting, this`localAgentLoops
      ensures Represents(Apply(s, Register(id, c)))
    {
      starting := starting - {c};
      localAgentLoops := localAgentLoops + {c};
    }

    /** The loop of _update_state_in_redis that fills the pipeline. */
    method FillPipeline(ghost s: State)
      requires Represents(s) && Enabled(s, Snapshot(id))
      modifies this`flushing, this`pipeline
      ensures Represents(Apply(s, Snapshot(id)))
    {
      LocalLoopsAreRepresented(s);
      pipeline := {};
      var todo := localAgentLoops;
      while todo != {}
        invariant todo <= localAgentLoops && pipeline == localAgentLoops - todo
        decreases todo
      {
        var c := AnyOf(todo);
        pipeline := pipeline + {c};
        todo := todo - {c};
      }
      flushing := true;
    }

    lemma LocalLoopsAreRepresented(s: State)
      requires Represents(s)
      ensures LocalLoops(s, id) == localAgentLoops
    {
      forall c ensures c in localAgentLoops <==> c in LocalLoops(s, id) {
        assert (id, c).0 == id && (id, c).1 == c;
      }
    }

    /** pipe.execute(): every SET of the pipeline, in one round trip. */
    method ExecutePipeline(ghost s: State)
      requires Represents(s) && flushing
      modifies this`flushing, redis`expiry
      ensures Represents(Apply(s, Flush(id)))
      ensures forall c :: c in pipeline ==> c in redis.expiry && redis.expiry[c] == redis.now + 15
      ensures forall c :: c !in pipeline ==> (c in redis.expiry <==> c in old(redis.expiry))
      ensures forall c :: c !in pipeline && c in redis.expiry ==> redis.expiry[c] == old(redis.expiry)[c]
    {
      var todo := pipeline;
      while todo != {}
        invariant todo <= pipeline
        invariant redis.expiry == Refreshed(s.expiry, pipeline - todo, s.now)
        decreases todo
      {
        var c := AnyOf(todo);
        redis.SetExpiring(c);
        todo := todo - {c};
      }
      assert pipeline - todo == pipeline;
      flushing := false;
    }

    /** _close_session up to the deletion: true if the session was running here. */
    method PopAgentLoop(c: ConversationId, ghost s: State) returns (found: bool)
      requires Represents(s)
      modifies this`localAgentLoops, this`closing
      ensures found == (c in old(localAgentLoops))
      ensures Represents(if found then Apply(s, PopSession(id, c)) else s)
    {
      found := c in localAgentLoops;
      if found {
        localAgentLoops := localAgentLoops - {c};
        closing := closing + {c};
      }
    }

    /** The deletion of the key in _close_session. */
    method DeleteConversationKey(c: ConversationId, ghost s: State)
      requires Represents(s) && c in closing
      modifies this`closing, redis`expiry
      ensures Represents(Apply(s, DeleteKey(id, c)))
      ensures redis.expiry == old(redis.expiry) - {c}
    {
      redis.Delete(c);
      closing := closing - {c};
    }
  }
}
