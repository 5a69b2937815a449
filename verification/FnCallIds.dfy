/** The ids that a converted conversation gives to its calls and results. */
module FnCallIds {
  import opened Wrappers
  import opened Text
  import opened Numerals
  import opened FnCallFormat
  import opened FnCallMessages

  function CallsIn(ms: seq<Message>): nat {
    if ms == [] then 0 else (if IsCall(ms[0]) then 1 else 0) + CallsIn(ms[1..])
  }

  function PaddedDigits(n: nat): string {
    (if n < 10 then "0" else "") + Digits(n)
  }

  lemma PaddedDigitsValue(n: nat)
    ensures DigitsValue(PaddedDigits(n)) == Some(n)
  {
    DigitsRoundTrip(n);
    if n < 10 {
      var s := PaddedDigits(n);
      assert s[..|s| - 1] == "0";
    } else {
      assert PaddedDigits(n) == Digits(n);
    }
  }

  /** Different numbers give different ids. */
  lemma CallIdIsInjective(a: nat, b: nat)
    requires CallId(a) == CallId(b)
    ensures a == b
  {
    assert CallId(a)[6..] == PaddedDigits(a);
    assert CallId(b)[6..] == PaddedDigits(b);
    PaddedDigitsValue(a);
    PaddedDigitsValue(b);
  }

  /** The id of message m, when calls calls came before it. */
  predicate Numbered(m: Message, calls: nat) {
    && (IsCall(m) ==> |m.calls.value| == 1 && m.calls.value[0].id == CallId(calls + 1))
    && (m.Tool? ==> m.callId == CallId(calls))
  }

  lemma MessageIsNumbered(p: Prompts, tools: seq<ToolSpec>, m: PlainMessage, first: bool, calls: nat)
    requires FromPlain(p, tools, m, first, calls).Ok?
    ensures Numbered(FromPlain(p, tools, m, first, calls).value, calls)
  {
  }

  predicate AllNumbered(out: seq<Message>, calls: nat) {
    out == [] || (Numbered(out[0], calls) && AllNumbered(out[1..], calls + CallsIn(out[..1])))
  }

  lemma {:induction false} ConvertedAreNumbered(p: Prompts, tools: seq<ToolSpec>, ms: seq<PlainMessage>,
                                                first: bool, calls: nat)
    requires FromNonFnCall(p, tools, ms, first, calls).Ok?
    ensures AllNumbered(FromNonFnCall(p, tools, ms, first, calls).value, calls)
  {
    if ms != [] {
      var head := FromPlain(p, tools, ms[0], first, calls).value;
      MessageIsNumbered(p, tools, ms[0], first, calls);
      var seen := first && ms[0].role != UserRole;
      var later := if IsCall(head) then calls + 1 else calls;
      ConvertedAreNumbered(p, tools, ms[1..], seen, later);
      NumberedNext(head, FromNonFnCall(p, tools, ms[1..], seen, later).value, calls);
    }
  }

  lemma NumberedNext(head: Message, rest: seq<Message>, calls: nat)
    requires Numbered(head, calls) && AllNumbered(rest, if IsCall(head) then calls + 1 else calls)
    ensures AllNumbered([head] + rest, calls)
  {
    var out := [head] + rest;
    assert out[..1] == [head] && out[1..] == rest;
    assert CallsIn([head]) == (if IsCall(head) then 1 else 0) + CallsIn([]);
  }

  lemma {:induction false} NumberedAt(out: seq<Message>, calls: nat, j: nat)
    requires AllNumbered(out, calls) && j < |out|
    ensures Numbered(out[j], calls + CallsIn(out[..j]))
  {
    if j == 0 {
      assert out[..0] == [];
    } else {
      NumberedAt(out[1..], calls + CallsIn(out[..1]), j - 1);
      assert out[..j] == out[..1] + out[1..][..j - 1];
      CallsInConcat(out[..1], out[1..][..j - 1]);
    }
  }

  lemma {:induction false} CallsInConcat(a: seq<Message>, b: seq<Message>)
    ensures CallsIn(a + b) == CallsIn(a) + CallsIn(b)
  {
    if a == [] {
      assert a + b == b;
    } else {
      assert (a + b)[0] == a[0] && (a + b)[1..] == a[1..] + b;
      CallsInConcat(a[1..], b);
    }
  }

  lemma {:induction false} NoCallsIn(ms: seq<Message>)
    requires forall k :: 0 <= k < |ms| ==> !IsCall(ms[k])
    ensures CallsIn(ms) == 0
  {
    if ms != [] {
      assert forall k :: 0 <= k < |ms[1..]| ==> ms[1..][k] == ms[k + 1];
      NoCallsIn(ms[1..]);
    }
  }

  lemma CallsBetween(ms: seq<Message>, i: nat, j: nat)
    requires i < j <= |ms|
    ensures CallsIn(ms[..j]) == CallsIn(ms[..i]) + (if IsCall(ms[i]) then 1 else 0) + CallsIn(ms[i + 1..j])
  {
    assert ms[..j] == ms[..i] + ([ms[i]] + ms[i + 1..j]);
    CallsInConcat(ms[..i], [ms[i]] + ms[i + 1..j]);
    CallsInConcat([ms[i]], ms[i + 1..j]);
    assert CallsIn([ms[i]]) == if IsCall(ms[i]) then 1 else 0;
  }

  /** The ids count the calls, in two digits or more: a call has the next number, a result that of the
      last call before it. */
  lemma IdsCountCalls(p: Prompts, tools: seq<ToolSpec>, ms: seq<PlainMessage>, j: nat)
    requires FromNonFnCall(p, tools, ms, true, 0).Ok? && j < |FromNonFnCall(p, tools, ms, true, 0).value|
    ensures var out := FromNonFnCall(p, tools, ms, true, 0).value;
            && (IsCall(out[j]) ==>
                  |out[j].calls.value| == 1
                  && out[j].calls.value[0].id == "toolu_" + PaddedDigits(CallsIn(out[..j]) + 1))
            && (out[j].Tool? ==> out[j].callId == "toolu_" + PaddedDigits(CallsIn(out[..j])))
  {
    var out := FromNonFnCall(p, tools, ms, true, 0).value;
    ConvertedAreNumbered(p, tools, ms, true, 0);
    NumberedAt(out, 0, j);
    CallIdIs(CallsIn(out[..j]));
    CallIdIs(CallsIn(out[..j]) + 1);
  }

  lemma CallIdIs(n: nat)
    ensures CallId(n) == "toolu_" + PaddedDigits(n)
  {
  }

  /** Whatever is converted, the calls get pairwise distinct ids, */
  lemma CallIdsAreDistinct(p: Prompts, tools: seq<ToolSpec>, ms: seq<PlainMessage>, i: nat, j: nat)
    requires FromNonFnCall(p, tools, ms, true, 0).Ok?
    requires i < j < |FromNonFnCall(p, tools, ms, true, 0).value|
    ensures var out := FromNonFnCall(p, tools, ms, true, 0).value;
            IsCall(out[i]) && IsCall(out[j]) ==>
              && |out[i].calls.value| == 1 && |out[j].calls.value| == 1
              && out[i].calls.value[0].id != out[j].calls.value[0].id
  {
    var out := FromNonFnCall(p, tools, ms, true, 0).value;
    ConvertedAreNumbered(p, tools, ms, true, 0);
    NumberedAt(out, 0, i);
    NumberedAt(out, 0, j);
    CallsBetween(out, i, j);
    if IsCall(out[i]) && IsCall(out[j]) && out[i].calls.value[0].id == out[j].calls.value[0].id {
      CallIdIsInjective(CallsIn(out[..i]) + 1, CallsIn(out[..j]) + 1);
    }
  }

  lemma CallsUpToLatest(out: seq<Message>, i: nat, j: nat)
    requires i < |out| && j < |out| && i != j && IsCall(out[i])
    ensures CallsIn(out[..j]) == CallsIn(out[..i]) + 1 <==> i < j && forall k :: i < k < j ==> !IsCall(out[k])
  {
    if i < j {
      CallsBetween(out, i, j);
      if forall k :: i < k < j ==> !IsCall(out[k]) {
        NoCallsIn(out[i + 1..j]);
      } else {
        var k :| i < k < j && IsCall(out[k]);
        CallsBetween(out, k, j);
        CallsBetween(out, i, k);
      }
    } else {
      CallsBetween(out, j, i);
    }
  }

  /** and a result has the id of a call exactly when that is the latest call before it. */
  lemma ResultsCarryLatestCall(p: Prompts, tools: seq<ToolSpec>, ms: seq<PlainMessage>, i: nat, j: nat)
    requires FromNonFnCall(p, tools, ms, true, 0).Ok?
    requires i < |FromNonFnCall(p, tools, ms, true, 0).value| && j < |FromNonFnCall(p, tools, ms, true, 0).value|
    ensures var out := FromNonFnCall(p, tools, ms, true, 0).value;
            IsCall(out[i]) && out[j].Tool? ==>
              |out[i].calls.value| == 1
              && (out[j].callId == out[i].calls.value[0].id
                  <==> i < j && forall k :: i < k < j ==> !IsCall(out[k]))
  {
    ConvertedAreNumbered(p, tools, ms, true, 0);
    LatestCall(FromNonFnCall(p, tools, ms, true, 0).value, i, j);
  }

  lemma LatestCall(out: seq<Message>, i: nat, j: nat)
    requires AllNumbered(out, 0) && i < |out| && j < |out|
    ensures IsCall(out[i]) && out[j].Tool? ==>
              |out[i].calls.value| == 1
              && (out[j].callId == out[i].calls.value[0].id
                  <==> i < j && forall k :: i < k < j ==> !IsCall(out[k]))
  {
    if IsCall(out[i]) && out[j].Tool? {
      NumberedAt(out, 0, i);
      NumberedAt(out, 0, j);
      CallsUpToLatest(out, i, j);
      if out[j].callId == out[i].calls.value[0].id {
        CallIdIsInjective(CallsIn(out[..j]), CallsIn(out[..i]) + 1);
      }
    }
  }
}
