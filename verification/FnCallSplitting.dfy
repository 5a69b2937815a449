/** What splitting keeps. */
module FnCallSplitting {
  import opened Wrappers
  import opened FnCallMessages
  import opened FnCallSplit

  /*** Pending calls, as a bag. ***/

  predicate PendingOk(p: map<string, Single>) {
    forall id :: id in p ==> p[id].call.id == id
  }

  function Pendings(p: map<string, Single>): set<Single> {
    set id | id in p :: p[id]
  }

  function Bag(p: map<string, Single>): multiset<Single> {
    multiset(Pendings(p))
  }

  lemma PendingsPut(p: map<string, Single>, s: Single)
    requires PendingOk(p) && s.call.id !in p
    ensures Pendings(p[s.call.id := s]) == Pendings(p) + {s} && s !in Pendings(p)
  {
    var q := p[s.call.id := s];
    assert q[s.call.id] == s;
    forall x | x in Pendings(p) ensures x in Pendings(q) {
      var id :| id in p && p[id] == x;
      assert q[id] == x;
    }
  }

  lemma PutNew(p: map<string, Single>, s: Single)
    requires PendingOk(p) && s.call.id !in p
    ensures PendingOk(p[s.call.id := s]) && Bag(p[s.call.id := s]) == Bag(p) + multiset{s}
  {
    PendingsPut(p, s);
  }

  lemma TakeOut(p: map<string, Single>, id: string)
    requires PendingOk(p) && id in p
    ensures PendingOk(p - {id}) && Bag(p) == Bag(p - {id}) + multiset{p[id]}
  {
    var q := p - {id};
    assert q[id := p[id]] == p;
    PutNew(q, p[id]);
  }

  lemma PutOver(p: map<string, Single>, s: Single)
    requires PendingOk(p) && s.call.id in p
    ensures PendingOk(p[s.call.id := s]) && |Bag(p[s.call.id := s])| == |Bag(p)|
  {
    TakeOut(p, s.call.id);
    var q := p - {s.call.id};
    assert q[s.call.id := s] == p[s.call.id := s];
    PutNew(q, s);
  }

  /*** No id is used twice while its call is pending. ***/

  predicate FreshAll(singles: seq<Single>, p: map<string, Single>)
    decreases |singles|
  {
    singles == [] || (singles[0].call.id !in p && FreshAll(singles[1..], p[singles[0].call.id := singles[0]]))
  }

  /** The ids of a message are fresh exactly when they are distinct and none is pending. */
  lemma {:induction false} FreshAllIsDistinct(singles: seq<Single>, p: map<string, Single>)
    ensures FreshAll(singles, p)
       <==> && (forall i, j :: 0 <= i < j < |singles| ==> singles[i].call.id != singles[j].call.id)
            && (forall i :: 0 <= i < |singles| ==> singles[i].call.id !in p)
    decreases |singles|
  {
    if singles != [] {
      var rest := singles[1..];
      FreshAllIsDistinct(rest, p[singles[0].call.id := singles[0]]);
      assert forall i :: 0 < i < |singles| ==> singles[i] == rest[i - 1];
      assert forall i :: 0 <= i < |rest| ==> rest[i] == singles[i + 1];
    }
  }

  predicate FreshIds(ms: seq<Message>, p: map<string, Single>) {
    ms == [] || Next(ms[0], p).Err?
    || (&& (IsMulti(ms[0]) ==> FreshAll(Singles(ms[0]), p))
        && FreshIds(ms[1..], Next(ms[0], p).value.1))
  }

  lemma {:induction false} AddingConserves(p: map<string, Single>, singles: seq<Single>)
    requires PendingOk(p)
    ensures PendingOk(AddAll(p, singles))
    ensures FreshAll(singles, p) ==> Bag(AddAll(p, singles)) == Bag(p) + multiset(singles)
    ensures |Bag(AddAll(p, singles))| <= |Bag(p)| + |singles|
    ensures !FreshAll(singles, p) ==> |Bag(AddAll(p, singles))| < |Bag(p)| + |singles|
    decreases |singles|
  {
    if singles != [] {
      var s := singles[0];
      if s.call.id in p {
        PutOver(p, s);
      } else {
        PutNew(p, s);
      }
      AddingConserves(p[s.call.id := s], singles[1..]);
      assert singles == [s] + singles[1..];
    }
  }

  /*** Conservation. ***/

  /** All calls of a conversation, each with the text it takes. */
  function Entries(ms: seq<Message>): multiset<Single> {
    if ms == [] then multiset{} else multiset(Singles(ms[0])) + Entries(ms[1..])
  }

  lemma {:induction false} EntriesConcat(a: seq<Message>, b: seq<Message>)
    ensures Entries(a + b) == Entries(a) + Entries(b)
  {
    if a == [] {
      assert a + b == b;
    } else {
      assert (a + b)[0] == a[0] && (a + b)[1..] == a[1..] + b;
      EntriesConcat(a[1..], b);
    }
  }

  /** The messages without calls. */
  function CallFree(ms: seq<Message>): seq<Message> {
    if ms == [] then [] else (if IsCall(ms[0]) then [] else [ms[0]]) + CallFree(ms[1..])
  }

  lemma {:induction false} CallFreeConcat(a: seq<Message>, b: seq<Message>)
    ensures CallFree(a + b) == CallFree(a) + CallFree(b)
  {
    if a == [] {
      assert a + b == b;
    } else {
      assert (a + b)[0] == a[0] && (a + b)[1..] == a[1..] + b;
      CallFreeConcat(a[1..], b);
    }
  }

  lemma EntriesOfOne(m: Message)
    ensures Entries([m]) == multiset(Singles(m))
    ensures CallFree([m]) == if IsCall(m) then [] else [m]
  {
    assert [m][1..] == [];
  }

  lemma EntriesOfPair(s: Single, m: Message)
    requires m.Tool?
    ensures Entries([SingleMessage(s), m]) == multiset{s}
    ensures CallFree([SingleMessage(s), m]) == [m]
  {
    assert [SingleMessage(s), m] == [SingleMessage(s)] + [m];
    EntriesConcat([SingleMessage(s)], [m]);
    CallFreeConcat([SingleMessage(s)], [m]);
    EntriesOfOne(SingleMessage(s));
    EntriesOfOne(m);
    assert Singles(SingleMessage(s)) == [s];
  }

  /** Everything is kept if fresh, and something is lost otherwise. */
  predicate Kept(allFresh: bool, before: multiset<Single>, after: multiset<Single>) {
    if allFresh then after == before else |after| < |before|
  }

  lemma KeptBoth(f: bool, g: bool, e1: multiset<Single>, e2: multiset<Single>, o1: multiset<Single>,
                 o2: multiset<Single>, p: multiset<Single>, q: multiset<Single>, left: multiset<Single>)
    requires Kept(f, e1 + p, o1 + q) && Kept(g, e2 + q, o2 + left)
    ensures Kept(f && g, e1 + e2 + p, o1 + o2 + left)
  {
    assert |o1 + o2 + left| == |o1| + |o2| + |left| && |e1 + e2 + p| == |e1| + |e2| + |p|;
    assert |o1 + q| == |o1| + |q| && |e1 + p| == |e1| + |p|;
    assert |o2 + left| == |o2| + |left| && |e2 + q| == |e2| + |q|;
    if f && g {
      forall x ensures (o1 + o2 + left)[x] == (e1 + e2 + p)[x] {
        assert (o1 + q)[x] == (e1 + p)[x] && (o2 + left)[x] == (e2 + q)[x];
      }
    }
  }

  predicate FreshNext(m: Message, p: map<string, Single>) {
    IsMulti(m) ==> FreshAll(Singles(m), p)
  }

  /** One message. */
  lemma NextConserves(m: Message, p: map<string, Single>)
    requires PendingOk(p) && Next(m, p).Ok?
    ensures var (out, q) := Next(m, p).value;
            && PendingOk(q) && CallFree(out) == CallFree([m])
            && Kept(FreshNext(m, p), Entries([m]) + Bag(p), Entries(out) + Bag(q))
  {
    EntriesOfOne(m);
    if IsMulti(m) {
      AddingConserves(p, Singles(m));
    } else if m.Tool? && m.callId in p {
      TakeOut(p, m.callId);
      EntriesOfPair(p[m.callId], m);
    }
  }

  lemma RunConcat(m: Message, ms: seq<Message>, first: seq<Message>, rest: seq<Message>)
    ensures Entries([m] + ms) == Entries([m]) + Entries(ms)
    ensures CallFree([m] + ms) == CallFree([m]) + CallFree(ms)
    ensures Entries(first + rest) == Entries(first) + Entries(rest)
    ensures CallFree(first + rest) == CallFree(first) + CallFree(rest)
  {
    EntriesConcat([m], ms);
    CallFreeConcat([m], ms);
    EntriesConcat(first, rest);
    CallFreeConcat(first, rest);
  }

  predicate Conserves(allFresh: bool, ms: seq<Message>, p: map<string, Single>, out: seq<Message>,
                      left: map<string, Single>)
  {
    && CallFree(out) == CallFree(ms)
    && Kept(allFresh, Entries(ms) + Bag(p), Entries(out) + Bag(left))
  }

  lemma ConservesBoth(f: bool, g: bool, m: Message, ms: seq<Message>, p: map<string, Single>, first: seq<Message>,
                      q: map<string, Single>, rest: seq<Message>, left: map<string, Single>)
    requires Conserves(f, [m], p, first, q) && Conserves(g, ms, q, rest, left)
    ensures Conserves(f && g, [m] + ms, p, first + rest, left)
  {
    RunConcat(m, ms, first, rest);
    KeptBoth(f, g, Entries([m]), Entries(ms), Entries(first), Entries(rest), Bag(p), Bag(q), Bag(left));
  }

  /** A successful run keeps the messages without calls, in order; and it keeps all calls with
      their texts (those left pending included) exactly when no id is used again while its call is
      pending: otherwise there are fewer calls. */
  lemma {:induction false} RunConserves(ms: seq<Message>, p: map<string, Single>)
    requires PendingOk(p) && Run(ms, p).Ok?
    ensures PendingOk(Run(ms, p).value.1)
    ensures Conserves(FreshIds(ms, p), ms, p, Run(ms, p).value.0, Run(ms, p).value.1)
  {
    if ms != [] {
      var step := Next(ms[0], p).value;
      NextConserves(ms[0], p);
      RunConserves(ms[1..], step.1);
      var rest := Run(ms[1..], step.1).value;
      assert ms == [ms[0]] + ms[1..];
      ConservesBoth(FreshNext(ms[0], p), FreshIds(ms[1..], step.1), ms[0], ms[1..], p, step.0, step.1, rest.0, rest.1);
    }
  }

  /** Splitting conserves. */
  lemma SplitConserves(ms: seq<Message>)
    requires Split(ms, false).Ok?
    ensures CallFree(Split(ms, false).value) == CallFree(ms)
    ensures FreshIds(ms, map[]) <==> Entries(Split(ms, false).value) == Entries(ms)
  {
    RunConserves(ms, map[]);
    NothingPending(ms);
    NothingPending(Split(ms, false).value);
  }

  lemma NothingPending(ms: seq<Message>)
    ensures Entries(ms) + Bag(map[]) == Entries(ms)
  {
    assert Pendings(map[]) == {};
  }

  lemma LaterCallReplacesEarlier(text: string, first: ToolCall, second: ToolCall)
    requires first.id == second.id
    ensures Singles(Assistant(text, Some([first, second]))) == [Single(text, first), Single("", second)]
    ensures AddAll(map[], Singles(Assistant(text, Some([first, second])))) == map[first.id := Single("", second)]
  {
    var a, b := Single(text, first), Single("", second);
    assert Singles(Assistant(text, Some([first, second]))) == [a, b];
    assert [a, b][1..] == [b] && [b][1..] == [];
    var one := map[first.id := a];
    assert AddAll(one[second.id := b], []) == one[second.id := b];
    assert AddAll(one, [b]) == one[second.id := b];
    assert AddAll(map[], [a, b]) == AddAll(one, [b]);
  }

  lemma ResultAlone(s: Single, result: Message)
    requires result.Tool? && result.callId == s.call.id
    ensures Run([result], map[s.call.id := s]) == Ok(([SingleMessage(s), result], map[]))
  {
    var p := map[s.call.id := s];
    var out := [SingleMessage(s), result];
    assert p - {s.call.id} == map[];
    assert [result][1..] == [] && out + [] == out;
    assert Run([], map[]) == Ok(([], map[]));
  }

  lemma EntriesOfTwo(m: Message, result: Message)
    requires result.Tool?
    ensures Entries([m, result]) == multiset(Singles(m))
  {
    assert [m, result][1..] == [result] && [result][1..] == [];
    assert Entries([result]) == multiset{};
  }

  /** The condition matters: of two calls of one message with the same id, followed by a result for
      it, the first call and the text of the message are lost, and nothing is refused. */
  lemma ReusedIdLosesCall(text: string, first: ToolCall, second: ToolCall, result: Message)
    requires first.id == second.id && result.Tool? && result.callId == first.id
    ensures var ms := [Assistant(text, Some([first, second])), result];
            && Split(ms, false) == Ok([SingleMessage(Single("", second)), result])
            && Entries(ms) == multiset{Single(text, first), Single("", second)}
            && Entries(Split(ms, false).value) == multiset{Single("", second)}
  {
    var m := Assistant(text, Some([first, second]));
    var left := Single("", second);
    LaterCallReplacesEarlier(text, first, second);
    ResultAlone(left, result);
    assert [m, result][1..] == [result] && [] + [SingleMessage(left), result] == [SingleMessage(left), result];
    assert Next(m, map[]) == Ok(([], map[first.id := left]));
    assert Run([m, result], map[]) == Ok(([SingleMessage(left), result], map[]));
    EntriesOfTwo(m, result);
    EntriesOfTwo(SingleMessage(left), result);
    assert Singles(SingleMessage(left)) == [left];
  }

  /*** The shape of the output. ***/

  /** A message of the output was one of the input, or is a call right before its result. */
  predicate Placed(ms: seq<Message>, out: seq<Message>, i: nat)
    requires i < |out|
  {
    || (out[i] in ms && !IsMulti(out[i]))
    || (&& IsCall(out[i]) && |out[i].calls.value| == 1
        && i + 1 < |out| && out[i + 1].Tool? && out[i + 1].callId == out[i].calls.value[0].id)
  }

  lemma FirstIsPlaced(ms: seq<Message>, p: map<string, Single>, rest: seq<Message>, i: nat)
    requires ms != [] && PendingOk(p) && Next(ms[0], p).Ok? && i < |Next(ms[0], p).value.0|
    ensures Placed(ms, Next(ms[0], p).value.0 + rest, i)
  {
    var first := Next(ms[0], p).value.0;
    var out := first + rest;
    assert out[i] == first[i];
    if |first| == 2 {
      assert out[1] == first[1] == ms[0];
    }
  }

  lemma LaterIsPlaced(ms: seq<Message>, first: seq<Message>, rest: seq<Message>, i: nat)
    requires ms != [] && i < |rest| && Placed(ms[1..], rest, i)
    ensures Placed(ms, first + rest, |first| + i)
  {
    var out := first + rest;
    assert out[|first| + i] == rest[i];
    if i + 1 < |rest| {
      assert out[|first| + i + 1] == rest[i + 1];
    }
  }

  lemma PendingStaysOk(m: Message, p: map<string, Single>)
    requires PendingOk(p) && Next(m, p).Ok?
    ensures PendingOk(Next(m, p).value.1)
  {
    NextConserves(m, p);
  }

  lemma {:induction false} EachIsPlaced(ms: seq<Message>, p: map<string, Single>, i: nat)
    requires PendingOk(p) && Run(ms, p).Ok? && i < |Run(ms, p).value.0|
    ensures Placed(ms, Run(ms, p).value.0, i)
  {
    if ms != [] {
      PendingStaysOk(ms[0], p);
      var first := Next(ms[0], p).value.0;
      var rest := Run(ms[1..], Next(ms[0], p).value.1).value.0;
      if i < |first| {
        FirstIsPlaced(ms, p, rest, i);
      } else {
        EachIsPlaced(ms[1..], Next(ms[0], p).value.1, i - |first|);
        LaterIsPlaced(ms, first, rest, i - |first|);
      }
    }
  }

  /** No message of the output has more than one call, and a call that was split off stands right
      before its result. */
  lemma SplitShape(ms: seq<Message>, ignoreFinalToolResult: bool, i: nat)
    requires Split(ms, ignoreFinalToolResult).Ok? && i < |Split(ms, ignoreFinalToolResult).value|
    ensures var out := Split(ms, ignoreFinalToolResult).value;
            !IsMulti(out[i]) && Placed(ms, out, i)
  {
    EachIsPlaced(ms, map[], i);
  }

  lemma {:induction false} SingleCallsAreKept(ms: seq<Message>)
    requires forall i :: 0 <= i < |ms| ==> !IsMulti(ms[i])
    ensures Run(ms, map[]) == Ok((ms, map[]))
  {
    if ms != [] {
      assert forall i :: 0 <= i < |ms[1..]| ==> ms[1..][i] == ms[i + 1];
      SingleCallsAreKept(ms[1..]);
      assert ms == [ms[0]] + ms[1..];
    }
  }

  /** Splitting again changes nothing. */
  lemma SplitIsIdempotent(ms: seq<Message>, ignoreFinalToolResult: bool, ignoreAgain: bool)
    requires Split(ms, ignoreFinalToolResult).Ok?
    ensures Split(Split(ms, ignoreFinalToolResult).value, ignoreAgain) == Split(ms, ignoreFinalToolResult)
  {
    var out := Split(ms, ignoreFinalToolResult).value;
    forall i | 0 <= i < |out| ensures !IsMulti(out[i]) {
      SplitShape(ms, ignoreFinalToolResult, i);
    }
    SingleCallsAreKept(out);
  }
}
