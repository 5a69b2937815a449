/** Exactly which conversations can be split, and what is wrong with the others. */
module FnCallSplitOutcome {
  import opened Wrappers
  import opened FnCallMessages
  import opened FnCallSplit

  /** A message with two calls or more, one of them with the id. */
  predicate Opens(m: Message, id: string) {
    m.Assistant? && m.calls.Some? && |m.calls.value| >= 2 && exists c :: c in m.calls.value && c.id == id
  }

  predicate Closes(m: Message, id: string) {
    m.Tool? && m.callId == id
  }

  /** No result for the id is among the messages. */
  predicate NoneCloses(ms: seq<Message>, from: nat, to: nat, id: string) {
    forall k :: from <= k < to && k < |ms| ==> !Closes(ms[k], id)
  }

  /** Such a message came before, and no result for the id since. */
  predicate IsOpen(ms: seq<Message>, i: nat, id: string) {
    exists j :: 0 <= j < i && j < |ms| && Opens(ms[j], id) && NoneCloses(ms, j + 1, i, id)
  }

  ghost predicate NoneIsOpen(ms: seq<Message>, i: nat) {
    forall id :: !IsOpen(ms, i, id)
  }

  /** A message of the assistant is always in place; a result, if its call is open; and these and all
      others, when no call is. */
  ghost predicate IsInPlace(ms: seq<Message>, i: nat)
    requires i < |ms|
  {
    ms[i].Assistant? || (ms[i].Tool? && IsOpen(ms, i, ms[i].callId)) || NoneIsOpen(ms, i)
  }

  /*** With calls that are open from before. ***/

  predicate IsOpenFrom(ms: seq<Message>, before: set<string>, i: nat, id: string) {
    (id in before && NoneCloses(ms, 0, i, id)) || IsOpen(ms, i, id)
  }

  ghost predicate NoneIsOpenFrom(ms: seq<Message>, before: set<string>, i: nat) {
    forall id :: !IsOpenFrom(ms, before, i, id)
  }

  ghost predicate IsInPlaceFrom(ms: seq<Message>, before: set<string>, i: nat)
    requires i < |ms|
  {
    || ms[i].Assistant? || (ms[i].Tool? && IsOpenFrom(ms, before, i, ms[i].callId))
    || NoneIsOpenFrom(ms, before, i)
  }

  /** What is open after one message. */
  ghost predicate IsAfter(m: Message, before: set<string>, after: set<string>) {
    forall id :: id in after <==> Opens(m, id) || (id in before && !Closes(m, id))
  }

  lemma OpenInRest(ms: seq<Message>, before: set<string>, after: set<string>, i: nat, id: string)
    requires ms != [] && IsAfter(ms[0], before, after) && i < |ms| && IsOpenFrom(ms, before, i + 1, id)
    ensures IsOpenFrom(ms[1..], after, i, id)
  {
    var rest := ms[1..];
    ClosesNext(ms, 0, i, id);
    if IsOpen(ms, i + 1, id) {
      var j :| 0 <= j < i + 1 && j < |ms| && Opens(ms[j], id) && NoneCloses(ms, j + 1, i + 1, id);
      if j > 0 {
        ClosesNext(ms, j, i, id);
        assert Opens(rest[j - 1], id) && NoneCloses(rest, j - 1 + 1, i, id);
      }
    } else {
      assert !Closes(ms[0], id) && NoneCloses(ms, 1, i + 1, id);
    }
  }

  lemma OpenInAll(ms: seq<Message>, before: set<string>, after: set<string>, i: nat, id: string)
    requires ms != [] && IsAfter(ms[0], before, after) && i < |ms| && IsOpenFrom(ms[1..], after, i, id)
    ensures IsOpenFrom(ms, before, i + 1, id)
  {
    var rest := ms[1..];
    if IsOpen(rest, i, id) {
      var j :| 0 <= j < i && j < |rest| && Opens(rest[j], id) && NoneCloses(rest, j + 1, i, id);
      ClosesNext(ms, j + 1, i, id);
      assert Opens(ms[j + 1], id) && NoneCloses(ms, j + 1 + 1, i + 1, id);
    } else {
      ClosesNext(ms, 0, i, id);
      if Opens(ms[0], id) {
        assert NoneCloses(ms, 0 + 1, i + 1, id);
      }
    }
  }

  lemma OpenNext(ms: seq<Message>, before: set<string>, after: set<string>, i: nat, id: string)
    requires ms != [] && IsAfter(ms[0], before, after) && i < |ms|
    ensures IsOpenFrom(ms, before, i + 1, id) <==> IsOpenFrom(ms[1..], after, i, id)
  {
    if IsOpenFrom(ms, before, i + 1, id) {
      OpenInRest(ms, before, after, i, id);
    }
    if IsOpenFrom(ms[1..], after, i, id) {
      OpenInAll(ms, before, after, i, id);
    }
  }

  lemma NoneOpenNext(ms: seq<Message>, before: set<string>, after: set<string>, i: nat)
    requires ms != [] && IsAfter(ms[0], before, after) && i < |ms|
    ensures NoneIsOpenFrom(ms, before, i + 1) <==> NoneIsOpenFrom(ms[1..], after, i)
  {
    if NoneIsOpenFrom(ms, before, i + 1) {
      forall id ensures !IsOpenFrom(ms[1..], after, i, id) {
        OpenNext(ms, before, after, i, id);
      }
    }
    if NoneIsOpenFrom(ms[1..], after, i) {
      var next := i + 1;
      forall id ensures !IsOpenFrom(ms, before, next, id) {
        OpenNext(ms, before, after, i, id);
      }
    }
  }

  lemma InPlaceNext(ms: seq<Message>, before: set<string>, after: set<string>, i: nat)
    requires ms != [] && IsAfter(ms[0], before, after) && i + 1 < |ms|
    ensures IsInPlaceFrom(ms, before, i + 1) <==> IsInPlaceFrom(ms[1..], after, i)
  {
    assert ms[1..][i] == ms[i + 1];
    NoneOpenNext(ms, before, after, i);
    if ms[i + 1].Tool? {
      OpenNext(ms, before, after, i, ms[i + 1].callId);
    }
  }

  lemma ClosesNext(ms: seq<Message>, from: nat, to: nat, id: string)
    requires ms != []
    ensures NoneCloses(ms, from + 1, to + 1, id) <==> NoneCloses(ms[1..], from, to, id)
  {
    var rest := ms[1..];
    assert forall k :: 0 <= k < |rest| ==> rest[k] == ms[k + 1];
    if NoneCloses(ms[1..], from, to, id) {
      forall k | from + 1 <= k < to + 1 && k < |ms| ensures !Closes(ms[k], id) {
        assert ms[k] == rest[k - 1];
      }
    }
  }

  lemma {:induction false} AddedIds(pending: map<string, Single>, singles: seq<Single>, id: string)
    ensures id in AddAll(pending, singles) <==> id in pending || exists s :: s in singles && s.call.id == id
    decreases |singles|
  {
    if singles != [] {
      AddedIds(pending[singles[0].call.id := singles[0]], singles[1..], id);
      assert singles == [singles[0]] + singles[1..];
    }
  }

  lemma SinglesHaveIds(m: Message, id: string)
    requires IsCall(m)
    ensures (exists s :: s in Singles(m) && s.call.id == id) <==> exists c :: c in m.calls.value && c.id == id
  {
    var calls := m.calls.value;
    if c :| c in calls && c.id == id {
      var i :| 0 <= i < |calls| && calls[i] == c;
      assert Singles(m)[i] in Singles(m);
    }
    if s :| s in Singles(m) && s.call.id == id {
      var i :| 0 <= i < |calls| && Singles(m)[i] == s;
      assert calls[i] in calls;
    }
  }

  lemma NextIsAfter(m: Message, p: map<string, Single>)
    requires Next(m, p).Ok?
    ensures IsAfter(m, p.Keys, Next(m, p).value.1.Keys)
  {
    var after := Next(m, p).value.1;
    forall id ensures id in after <==> Opens(m, id) || (id in p && !Closes(m, id)) {
      if IsMulti(m) {
        AddedIds(p, Singles(m), id);
        SinglesHaveIds(m, id);
      }
    }
  }

  lemma NextSucceeds(ms: seq<Message>, p: map<string, Single>)
    requires ms != []
    ensures Next(ms[0], p).Ok? <==> IsInPlaceFrom(ms, p.Keys, 0)
    ensures Next(ms[0], p).Err? ==> Next(ms[0], p).error == if ms[0].Tool? then UnexpectedResult else UnexpectedMessage
  {
    assert forall id :: IsOpenFrom(ms, p.Keys, 0, id) <==> id in p;
    if p == map[] {
      assert NoneIsOpenFrom(ms, p.Keys, 0);
    } else {
      var id :| id in p;
      assert IsOpenFrom(ms, p.Keys, 0, id);
    }
  }

  ghost predicate AllInPlaceFrom(ms: seq<Message>, before: set<string>) {
    forall i :: 0 <= i < |ms| ==> IsInPlaceFrom(ms, before, i)
  }

  lemma AllInPlaceNext(ms: seq<Message>, before: set<string>, after: set<string>)
    requires ms != [] && IsAfter(ms[0], before, after)
    ensures AllInPlaceFrom(ms, before) <==> IsInPlaceFrom(ms, before, 0) && AllInPlaceFrom(ms[1..], after)
  {
    forall i | 0 <= i < |ms| - 1 ensures IsInPlaceFrom(ms, before, i + 1) <==> IsInPlaceFrom(ms[1..], after, i) {
      InPlaceNext(ms, before, after, i);
    }
    if AllInPlaceFrom(ms, before) {
      forall i | 0 <= i < |ms[1..]| ensures IsInPlaceFrom(ms[1..], after, i) {
        assert IsInPlaceFrom(ms, before, i + 1);
      }
    }
    if IsInPlaceFrom(ms, before, 0) && AllInPlaceFrom(ms[1..], after) {
      forall i | 0 <= i < |ms| ensures IsInPlaceFrom(ms, before, i) {
        if i > 0 {
          assert IsInPlaceFrom(ms[1..], after, i - 1);
        }
      }
    }
  }

  lemma {:induction false} RunIff(ms: seq<Message>, p: map<string, Single>)
    ensures Run(ms, p).Ok? <==> AllInPlaceFrom(ms, p.Keys)
    ensures Run(ms, p).Ok? ==> (Run(ms, p).value.1 == map[] <==> NoneIsOpenFrom(ms, p.Keys, |ms|))
    decreases |ms|
  {
    if ms == [] {
      assert forall id :: IsOpenFrom(ms, p.Keys, 0, id) <==> id in p;
      EmptyIff(p, ms);
    } else {
      NextSucceeds(ms, p);
      if Next(ms[0], p).Ok? {
        var after := Next(ms[0], p).value.1;
        NextIsAfter(ms[0], p);
        AllInPlaceNext(ms, p.Keys, after.Keys);
        NoneOpenNext(ms, p.Keys, after.Keys, |ms| - 1);
        RunIff(ms[1..], after);
      }
    }
  }

  lemma EmptyIff(p: map<string, Single>, ms: seq<Message>)
    requires forall id :: IsOpenFrom(ms, p.Keys, 0, id) <==> id in p
    ensures p == map[] <==> NoneIsOpenFrom(ms, p.Keys, 0)
  {
    if p == map[] {
      forall id ensures !IsOpenFrom(ms, p.Keys, 0, id) {
        assert id !in p;
      }
    } else {
      var id :| id in p;
      assert IsOpenFrom(ms, p.Keys, 0, id);
    }
  }

  lemma FromNothing(ms: seq<Message>)
    ensures AllInPlaceFrom(ms, {}) <==> forall i :: 0 <= i < |ms| ==> IsInPlace(ms, i)
    ensures NoneIsOpenFrom(ms, {}, |ms|) <==> NoneIsOpen(ms, |ms|)
  {
    NoneFromNothing(ms, |ms|);
    forall i | 0 <= i < |ms| ensures IsInPlaceFrom(ms, {}, i) <==> IsInPlace(ms, i) {
      NoneFromNothing(ms, i);
    }
  }

  lemma NoneFromNothing(ms: seq<Message>, i: nat)
    ensures NoneIsOpenFrom(ms, {}, i) <==> NoneIsOpen(ms, i)
  {
    if NoneIsOpenFrom(ms, {}, i) {
      forall id ensures !IsOpen(ms, i, id) {
        assert !IsOpenFrom(ms, {}, i, id);
      }
    }
    if NoneIsOpen(ms, i) {
      forall id ensures !IsOpenFrom(ms, {}, i, id) {
        assert !IsOpen(ms, i, id);
      }
    }
  }

  /** A conversation is split if and only if every message is in place and, unless the last results
      may be missing, no call is open at its end. */
  lemma SplitsIff(ms: seq<Message>, ignoreFinalToolResult: bool)
    ensures Split(ms, ignoreFinalToolResult).Ok?
       <==> (forall i :: 0 <= i < |ms| ==> IsInPlace(ms, i)) && (ignoreFinalToolResult || NoneIsOpen(ms, |ms|))
    ensures Split(ms, ignoreFinalToolResult) == Err(MissingResults)
       ==> (forall i :: 0 <= i < |ms| ==> IsInPlace(ms, i)) && !NoneIsOpen(ms, |ms|)
  {
    var none: map<string, Single> := map[];
    assert none.Keys == {};
    RunIff(ms, none);
    FromNothing(ms);
    RunErrors(ms, none);
  }

  lemma {:induction false} RunErrors(ms: seq<Message>, p: map<string, Single>)
    ensures Run(ms, p).Err? ==> Run(ms, p).error != MissingResults
    decreases |ms|
  {
    if ms != [] && Next(ms[0], p).Ok? {
      RunErrors(ms[1..], Next(ms[0], p).value.1);
    }
  }

  /*** What the output consists of. ***/

  /** The i-th call of a message with several calls on its own; the first one takes the text. */
  predicate IsOwnCall(m: Message, i: nat, o: Message) {
    && m.Assistant? && m.calls.Some? && i < |m.calls.value| && |m.calls.value| > 1
    && o == Assistant(if i == 0 then m.text else "", Some([m.calls.value[i]]))
  }

  ghost predicate ComesFrom(ms: seq<Message>, o: Message) {
    || (o in ms && !(o.Assistant? && o.calls.Some? && |o.calls.value| > 1))
    || (exists j: nat, i: nat :: j < |ms| && IsOwnCall(ms[j], i, o))
  }

  ghost predicate AllPendingFrom(ms: seq<Message>, p: map<string, Single>) {
    forall id :: id in p ==> ComesFrom(ms, Assistant(p[id].text, Some([p[id].call])))
  }

  lemma {:induction false} AddingComesFrom(ms: seq<Message>, p: map<string, Single>, singles: seq<Single>)
    requires AllPendingFrom(ms, p)
    requires forall s :: s in singles ==> ComesFrom(ms, Assistant(s.text, Some([s.call])))
    ensures AllPendingFrom(ms, AddAll(p, singles))
    decreases |singles|
  {
    if singles != [] {
      assert singles[0] in singles;
      AddingComesFrom(ms, p[singles[0].call.id := singles[0]], singles[1..]);
    }
  }

  lemma SinglesComeFrom(ms: seq<Message>, j: nat)
    requires j < |ms| && IsMulti(ms[j])
    ensures forall s :: s in Singles(ms[j]) ==> ComesFrom(ms, Assistant(s.text, Some([s.call])))
  {
    var m := ms[j];
    forall s | s in Singles(m) ensures ComesFrom(ms, Assistant(s.text, Some([s.call]))) {
      var i :| 0 <= i < |m.calls.value| && Singles(m)[i] == s;
      assert IsOwnCall(m, i, Assistant(s.text, Some([s.call])));
    }
  }

  lemma NextComesFrom(ms: seq<Message>, j: nat, p: map<string, Single>)
    requires j < |ms| && AllPendingFrom(ms, p) && Next(ms[j], p).Ok?
    ensures var (out, q) := Next(ms[j], p).value;
            AllPendingFrom(ms, q) && forall k :: 0 <= k < |out| ==> ComesFrom(ms, out[k])
  {
    if IsMulti(ms[j]) {
      SinglesComeFrom(ms, j);
      AddingComesFrom(ms, p, Singles(ms[j]));
    } else {
      assert ComesFrom(ms, ms[j]);
    }
  }

  lemma {:induction false} RunComesFrom(ms: seq<Message>, j: nat, p: map<string, Single>)
    requires j <= |ms| && AllPendingFrom(ms, p) && Run(ms[j..], p).Ok?
    ensures forall k :: 0 <= k < |Run(ms[j..], p).value.0| ==> ComesFrom(ms, Run(ms[j..], p).value.0[k])
    decreases |ms| - j
  {
    if j < |ms| {
      var step := Next(ms[j], p).value;
      assert ms[j..][0] == ms[j] && ms[j..][1..] == ms[j + 1..];
      NextComesFrom(ms, j, p);
      RunComesFrom(ms, j + 1, step.1);
    }
  }

  /** Every message of the output is one of the input that does not have several calls, or one call
      of a message with several, with the text of that message if it is the first of its calls and
      without text otherwise. */
  lemma OutputComesFrom(ms: seq<Message>, ignoreFinalToolResult: bool, k: nat)
    requires Split(ms, ignoreFinalToolResult).Ok? && k < |Split(ms, ignoreFinalToolResult).value|
    ensures ComesFrom(ms, Split(ms, ignoreFinalToolResult).value[k])
  {
    assert ms[0..] == ms;
    RunComesFrom(ms, 0, map[]);
  }
}
