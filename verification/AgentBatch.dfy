/**
  What the agent loop says and runs within one reply of the model: the
  messages it keeps, the calls it drops as repeats, the guardrails around each
  call, and the batch run call by call.
 */
module AgentBatch {
  import opened Wrappers
  import opened AgentDispatch

  const INTERRUPTED := "[Command interrupted]"

  datatype Call = Call(id: string, name: string, arguments: string)

  datatype Message =
    | System(content: string)
    | User(content: string)
    | Assistant(content: string, calls: seq<Call>)
    | Tool(name: string, callId: string, content: string)

  datatype Finish = Length | ToolCalls | Other

  datatype Turn = Turn(text: string, calls: seq<Call>, finish: Finish, promptTokens: Option<nat>, failed: bool)

  /** What reads raw JSON text: its compact form when it parses, and whether it is all blanks. */
  datatype Json = Json(compact: string -> Option<string>, blank: string -> bool)

  function OrEmptyObject(raw: string): string {
    if raw == "" then "{}" else raw
  }

  function CanonicalArguments(json: Json, raw: string): string {
    match json.compact(OrEmptyObject(raw))
    case Some(text) => text
    case None => "{}"
  }

  function Key(json: Json, c: Call): (string, string) {
    (c.name, CanonicalArguments(json, c.arguments))
  }

  /** The check made before a batch is kept: text that is not blank has to parse. */
  predicate IsInvalid(json: Json, c: Call) {
    c.arguments != "" && !json.blank(c.arguments) && json.compact(c.arguments).None?
  }

  /** The text the batch reads again when it runs the call cannot be read. */
  predicate Unreadable(json: Json, c: Call) {
    json.compact(OrEmptyObject(c.arguments)).None?
  }

  // ------------------------------------------------------------- the transcript

  /** As the assistant's turn is kept: empty arguments written out. */
  function Kept(calls: seq<Call>): seq<Call> {
    seq(|calls|, i requires 0 <= i < |calls| => calls[i].(arguments := OrEmptyObject(calls[i].arguments)))
  }

  /** What is kept of each call is the call; where no text was given the empty object is written out, which is the
      same call to the batch. */
  lemma KeptIs(json: Json, calls: seq<Call>, i: nat)
    requires i < |calls|
    ensures |Kept(calls)| == |calls| && Kept(calls)[i].id == calls[i].id && Kept(calls)[i].name == calls[i].name
    ensures Kept(calls)[i].arguments == (if calls[i].arguments == "" then "{}" else calls[i].arguments)
    ensures Key(json, Kept(calls)[i]) == Key(json, calls[i])
  {
  }

  /** One tool message for each call, in order, under the same id. */
  predicate Answer(calls: seq<Call>, results: seq<Message>) {
    && |results| == |calls|
    && forall i :: 0 <= i < |calls| ==>
         results[i].Tool? && results[i].callId == calls[i].id && results[i].name == calls[i].name
  }

  /** Every assistant message is followed at once by the answers to exactly its calls, and no tool
      message stands anywhere else. */
  ghost predicate Answered(ms: seq<Message>)
    decreases |ms|
  {
    if ms == [] then true
    else match ms[0]
      case Assistant(_, calls) =>
        |ms| > |calls| && Answer(calls, ms[1..1 + |calls|]) && Answered(ms[1 + |calls|..])
      case Tool(_, _, _) => false
      case _ => Answered(ms[1..])
  }

  lemma {:induction false} AnsweredAppends(a: seq<Message>, b: seq<Message>)
    requires Answered(a)
    ensures Answered(a + b) <==> Answered(b)
    decreases |a|
  {
    if a == [] {
      assert a + b == b;
    } else {
      hide Answer;
      var k := if a[0].Assistant? then 1 + |a[0].calls| else 1;
      AnsweredAppends(a[k..], b);
      assert (a + b)[k..] == a[k..] + b;
      assert (a + b)[1..k] == a[1..k];
    }
  }

  lemma BatchIsAnswered(content: string, calls: seq<Call>, results: seq<Message>)
    requires Answer(calls, results)
    ensures Answered([Assistant(content, calls)] + results)
  {
    var ms := [Assistant(content, calls)] + results;
    assert ms[1..1 + |calls|] == results && ms[1 + |calls|..] == [];
  }

  lemma PlainIsAnswered(m: Message)
    requires m.System? || m.User? || (m.Assistant? && m.calls == [])
    ensures Answered([m])
  {
    assert [m][1..] == [];
    if m.Assistant? { assert [m][1..1] == []; }
  }

  // ---------------------------------------------------------------- guardrails

  datatype Action = Allow | Warn | Block | Halt

  /** A guardrail's verdict, with the guidance it would append. */
  datatype Verdict = Verdict(action: Action, guidance: string)

  /** What the guardrails make of one result: a stub in its place, guidance, a standing halt, a notice. */
  datatype Observation = Observation(stub: string, verdict: Verdict, streak: Option<Verdict>, notice: string)

  function AppendGuidance(result: string, v: Verdict): string {
    if v.action == Warn || v.action == Halt then result + v.guidance else result
  }

  predicate ShouldHalt(v: Verdict) {
    v.action == Block || v.action == Halt
  }

  function Guarded(result: string, o: Observation): (string, bool) {
    var shown := if o.stub != "" then o.stub else result;
    var warned := AppendGuidance(shown, o.verdict);
    var (text, halt) :=
      if ShouldHalt(o.verdict) then (warned, true)
      else if o.streak.Some? then (AppendGuidance(warned, o.streak.value), true)
      else (warned, false);
    (if o.notice != "" then text + "\n\n" + o.notice else text, halt)
  }

  /** All that the guardrails append. */
  function Appended(o: Observation): string {
    AppendGuidance("", o.verdict)
    + (if !ShouldHalt(o.verdict) && o.streak.Some? then AppendGuidance("", o.streak.value) else "")
    + (if o.notice != "" then "\n\n" + o.notice else "")
  }

  lemma GuidanceIsAppended(result: string, v: Verdict)
    ensures AppendGuidance(result, v) == result + AppendGuidance("", v)
  {
  }

  lemma AppendedInOrder(shown: string, first: string, second: string, last: string)
    ensures shown + first + second + last == shown + (first + second + last)
    ensures shown + "" == shown
  {
  }

  lemma GuardedText(result: string, o: Observation)
    ensures Guarded(result, o).0 == (if o.stub != "" then o.stub else result) + Appended(o)
  {
    hide AppendGuidance;
    var shown := if o.stub != "" then o.stub else result;
    var first := AppendGuidance("", o.verdict);
    var second := if !ShouldHalt(o.verdict) && o.streak.Some? then AppendGuidance("", o.streak.value) else "";
    var last := if o.notice != "" then "\n\n" + o.notice else "";
    GuidanceIsAppended(shown, o.verdict);
    if o.streak.Some? { GuidanceIsAppended(shown + first, o.streak.value); }
    AppendedInOrder(shown, first, second, last);
    AppendedInOrder(shown + first, "", "", "");
    AppendedInOrder(shown + first + second, "", "", "");
    assert Guarded(result, o).0 == shown + first + second + last by {
      if o.notice != "" { NoticeLast(shown + first + second, o.notice); }
    }
  }

  lemma NoticeLast(text: string, notice: string)
    ensures text + "\n\n" + notice == text + ("\n\n" + notice)
  {
  }

  /** The record is taken before the guardrails look. What the model reads is what was recorded exactly when
      no stub stands in for it and nothing is appended, or the stub and what is appended spell it. */
  lemma ReadsWhatWasRecordedIff(result: string, o: Observation)
    ensures Guarded(result, o).0 == result
            <==> if o.stub == "" then Appended(o) == "" else o.stub + Appended(o) == result
  {
    hide Guarded, Appended;
    GuardedText(result, o);
    if o.stub == "" && Appended(o) == "" { assert result + "" == result; }
    if o.stub == "" && result + Appended(o) == result { assert |Appended(o)| == 0; }
  }

  predicate Guides(v: Verdict) {
    v.action.Warn? || v.action.Halt?
  }

  predicate Blocks(v: Verdict) {
    v.action.Block? || v.action.Halt?
  }

  /** What the model reads of a result, and whether the turn ends there: the stub or the result, the verdict's
      guidance, a standing halt's where the verdict itself does not end the turn, then the notice. */
  lemma GuardedIs(result: string, o: Observation)
    ensures var standing := !Blocks(o.verdict) && o.streak.Some?;
            && Guarded(result, o).1 == (Blocks(o.verdict) || standing)
            && Guarded(result, o).0
               == (if o.stub != "" then o.stub else result)
                  + (if Guides(o.verdict) then o.verdict.guidance else "")
                  + (if standing && Guides(o.streak.value) then o.streak.value.guidance else "")
                  + (if o.notice != "" then "\n\n" + o.notice else "")
  {
    hide Guarded;
    GuardedText(result, o);
    GuardedHalts(result, o);
    var shown := if o.stub != "" then o.stub else result;
    assert forall v: Verdict :: AppendGuidance("", v) == if Guides(v) then v.guidance else "" by {
      forall v: Verdict ensures AppendGuidance("", v) == if Guides(v) then v.guidance else "" { NoGuidance(v); }
    }
    var second := if !ShouldHalt(o.verdict) && o.streak.Some? then AppendGuidance("", o.streak.value) else "";
    AppendedInOrder(shown, AppendGuidance("", o.verdict), second, if o.notice != "" then "\n\n" + o.notice else "");
  }

  lemma NoGuidance(v: Verdict)
    ensures AppendGuidance("", v) == if Guides(v) then v.guidance else ""
  {
    assert "" + v.guidance == v.guidance;
  }

  lemma GuardedHalts(result: string, o: Observation)
    ensures Guarded(result, o).1 == (Blocks(o.verdict) || o.streak.Some?)
  {
  }

  // ------------------------------------------------------------------- batches

  predicate DistinctKeys(json: Json, calls: seq<Call>) {
    forall i, j :: 0 <= i < j < |calls| ==> Key(json, calls[i]) != Key(json, calls[j])
  }

  function Keys(json: Json, calls: seq<Call>): set<(string, string)> {
    set i | 0 <= i < |calls| :: Key(json, calls[i])
  }

  /** Each call whose key no earlier call has. */
  function Firsts(json: Json, calls: seq<Call>): seq<Call> {
    if calls == [] then []
    else
      var last := calls[|calls| - 1];
      var before := calls[..|calls| - 1];
      Firsts(json, before) + if Key(json, last) in Keys(json, before) then [] else [last]
  }

  lemma {:induction false} FirstsAreCalls(json: Json, calls: seq<Call>)
    ensures forall c :: c in Firsts(json, calls) ==> c in calls
  {
    if calls != [] {
      FirstsAreCalls(json, calls[..|calls| - 1]);
      assert calls == calls[..|calls| - 1] + [calls[|calls| - 1]];
    }
  }

  /** In what is run of a batch no key comes twice, and no key is missing. */
  lemma {:induction false} FirstsRunOnce(json: Json, calls: seq<Call>)
    ensures DistinctKeys(json, Firsts(json, calls)) && Keys(json, Firsts(json, calls)) == Keys(json, calls)
  {
    if calls != [] {
      hide Keys, DistinctKeys, Key;
      var last, before := calls[|calls| - 1], calls[..|calls| - 1];
      FirstsRunOnce(json, before);
      KeysGrow(json, before, last);
      KeysGrow(json, Firsts(json, before), last);
      assert calls == before + [last];
      if Key(json, last) !in Keys(json, before) {
        OneMoreKey(json, Firsts(json, before), last);
      } else {
        assert Firsts(json, calls) == Firsts(json, before);
        assert Keys(json, calls) == Keys(json, before);
      }
    } else {
      assert Firsts(json, calls) == [];
    }
  }

  lemma OneMoreKey(json: Json, calls: seq<Call>, c: Call)
    requires DistinctKeys(json, calls) && Key(json, c) !in Keys(json, calls)
    ensures DistinctKeys(json, calls + [c])
  {
    forall i | 0 <= i < |calls| ensures Key(json, calls[i]) != Key(json, c) {
      assert Key(json, calls[i]) in Keys(json, calls);
    }
  }

  lemma KeysGrow(json: Json, calls: seq<Call>, c: Call)
    ensures Keys(json, calls + [c]) == Keys(json, calls) + {Key(json, c)}
  {
    var more := calls + [c];
    forall k | k in Keys(json, calls) ensures k in Keys(json, more) {
      var i :| 0 <= i < |calls| && Key(json, calls[i]) == k;
      assert Key(json, more[i]) == k;
    }
    assert Key(json, more[|calls|]) == Key(json, c);
    forall k | k in Keys(json, more) ensures k in Keys(json, calls) + {Key(json, c)} {
      var i :| 0 <= i < |more| && Key(json, more[i]) == k;
      if i < |calls| { assert Key(json, calls[i]) == k; }
    }
  }

  /** No earlier call has the key of the one at `i`. */
  predicate IsFirst(json: Json, calls: seq<Call>, i: nat)
    requires i < |calls|
  {
    forall j :: 0 <= j < i ==> Key(json, calls[j]) != Key(json, calls[i])
  }

  /** `unique` is the calls at the places `at`, in the order they were given: those that come first of their key. */
  ghost predicate InOrderGiven(json: Json, calls: seq<Call>, unique: seq<Call>, at: seq<nat>) {
    && |at| == |unique| && (forall j, k :: 0 <= j < k < |at| ==> at[j] < at[k])
    && (forall k :: 0 <= k < |at| ==> at[k] < |calls| && unique[k] == calls[at[k]])
    && (forall i :: 0 <= i < |calls| ==> (i in at <==> IsFirst(json, calls, i)))
  }

  ghost predicate KeptInOrder(json: Json, calls: seq<Call>, unique: seq<Call>) {
    exists at :: InOrderGiven(json, calls, unique, at)
  }

  lemma {:induction false} FirstsAreInOrder(json: Json, calls: seq<Call>) returns (at: seq<nat>)
    ensures InOrderGiven(json, calls, Firsts(json, calls), at)
  {
    if calls == [] {
      at := [];
    } else {
      hide Key;
      var n := |calls| - 1;
      var before := calls[..n];
      at := FirstsAreInOrder(json, before);
      forall i | 0 <= i < n ensures IsFirst(json, calls, i) <==> IsFirst(json, before, i) { SameBefore(json, calls, n, i); }
      NewKeyIff(json, calls);
      if IsFirst(json, calls, n) {
        OneMorePlace(at, n);
        at := at + [n];
      }
    }
  }

  lemma SameBefore(json: Json, calls: seq<Call>, n: nat, i: nat)
    requires i < n <= |calls|
    ensures IsFirst(json, calls, i) <==> IsFirst(json, calls[..n], i)
  {
    hide Key;
  }

  lemma NewKeyIff(json: Json, calls: seq<Call>)
    requires calls != []
    ensures var n := |calls| - 1; IsFirst(json, calls, n) <==> Key(json, calls[n]) !in Keys(json, calls[..n])
  {
    hide Key;
    var n := |calls| - 1;
    assert forall i :: 0 <= i < n ==> calls[..n][i] == calls[i];
  }

  lemma OneMorePlace(at: seq<nat>, n: nat)
    ensures forall i :: i in at + [n] <==> i in at || i == n
  {
  }

  /** Two calls have one key exactly when they name one tool and their arguments read as the same compact text; no
      text at all, and text that does not parse, read as an empty object. */
  lemma KeysAlikeIff(json: Json, c: Call, d: Call)
    requires json.compact("{}") == Some("{}")
    ensures Key(json, c) == Key(json, d)
            <==> && c.name == d.name
                 && (if c.arguments == "" || json.compact(c.arguments).None? then "{}" else json.compact(c.arguments).value)
                    == (if d.arguments == "" || json.compact(d.arguments).None? then "{}" else json.compact(d.arguments).value)
  {
  }

  method Deduplicate(json: Json, calls: seq<Call>) returns (unique: seq<Call>)
    ensures unique == Firsts(json, calls)
    ensures KeptInOrder(json, calls, unique)
  {
    ghost var places := FirstsAreInOrder(json, calls);
    var seen: set<(string, string)> := {};
    unique := [];
    var i := 0;
    assert calls[..0] == [];
    while i < |calls|
      invariant 0 <= i <= |calls|
      invariant seen == Keys(json, calls[..i]) && unique == Firsts(json, calls[..i])
    {
      assert calls[..i + 1] == calls[..i] + [calls[i]] && calls[..i + 1][..i] == calls[..i];
      KeysGrow(json, calls[..i], calls[i]);
      var key := Key(json, calls[i]);
      if key !in seen {
        seen := seen + {key};
        unique := unique + [calls[i]];
      }
      i := i + 1;
    }
    assert calls[..i] == calls;
  }

  // -------------------------------------------------------------- running a batch

  /** The answers the run reads off, by how many of each kind it has asked for. */
  datatype World = World(
    model: nat -> Turn,
    cancelled: nat -> bool,
    blocked: nat -> Option<string>,     // the guardrail's synthetic result, when it blocks a call
    observe: nat -> Observation,
    host: nat -> Answers,
    bounded: string -> string,
    clean: string -> string,            // think blocks and outer blanks removed
    trailingIntent: string -> bool)

  /** What one batch leaves: which calls ran, one tool message a call, one record and one stretch of the
      host's trace for each call that ran. */
  datatype Batch = Batch(calls: seq<Call>, ran: seq<nat>, results: seq<Message>, records: seq<Record>,
                         segments: seq<seq<Event>>, halt: bool)

  /** The guardrails end the turn at call `n`. */
  predicate Stopped(w: World, n: nat, result: string) {
    w.blocked(n).Some? || Guarded(result, w.observe(n)).1
  }

  /** Call `n` of the run: its text could be read; a blocked call is recorded as refused and does nothing,
      any other is recorded as executed and has its effect exactly when it is offered, authorised and granted;
      the model reads what was recorded, through the guardrails. */
  ghost predicate RanAs(w: World, json: Json, names: seq<string>, n: nat, c: Call, shown: string, record: Record,
                        es: seq<Event>)
  {
    && !Unreadable(json, c)
    && record.callId == c.id && record.name == c.name
    && InOrder(n, es, record)
    && if w.blocked(n).Some? then
         record == Refused(c.id, c.name, w.blocked(n).value) && shown == record.result && !HasEffect(es)
       else
         && record == Executed(c.id, c.name, w.host(n), names, w.bounded)
         && shown == Guarded(record.result, w.observe(n)).0
         && (HasEffect(es) <==>
             c.name in HANDLERS && c.name in names && w.host(n).refusal == None && Granted(c.name, w.host(n)))
  }

  /** Which of the first `i` calls ran: those not cancelled at their poll, in order. */
  ghost predicate NotCancelled(w: World, polls: nat, i: nat, ran: seq<nat>) {
    && (forall k, l :: 0 <= k < l < |ran| ==> ran[k] < ran[l])
    && (forall k :: 0 <= k < |ran| ==> ran[k] < i)
    && (forall k :: 0 <= k < i ==> (k in ran <==> !w.cancelled(polls + k)))
  }

  ghost predicate RanAt(w: World, json: Json, names: seq<string>, ran0: nat, b: Batch, k: nat)
    requires k < |b.ran| == |b.records| == |b.segments| && b.ran[k] < |b.results| <= |b.calls| && b.results[b.ran[k]].Tool?
  {
    RanAs(w, json, names, ran0 + k, b.calls[b.ran[k]], b.results[b.ran[k]].content, b.records[k], b.segments[k])
  }

  ghost predicate Halts(w: World, ran0: nat, records: seq<Record>) {
    exists k :: 0 <= k < |records| && Stopped(w, ran0 + k, records[k].result)
  }

  /** The first calls of a batch are through: each was polled for and, if cancelled, only answered. */
  ghost predicate Through(w: World, json: Json, names: seq<string>, polls: nat, ran0: nat, b: Batch) {
    var i := |b.results|;
    && i <= |b.calls| && Answer(b.calls[..i], b.results)
    && |b.ran| == |b.records| == |b.segments|
    && NotCancelled(w, polls, i, b.ran)
    && (forall k :: 0 <= k < i && w.cancelled(polls + k) ==> b.results[k].content == INTERRUPTED)
    && (forall k :: 0 <= k < |b.ran| ==> RanAt(w, json, names, ran0, b, k))
    && (b.halt <==> Halts(w, ran0, b.records))
  }

  function Interrupted(b: Batch): Batch
    requires |b.results| < |b.calls|
  {
    var c := b.calls[|b.results|];
    b.(results := b.results + [Tool(c.name, c.id, INTERRUPTED)])
  }

  function Answering(b: Batch, shown: string, record: Record, es: seq<Event>, stop: bool): Batch
    requires |b.results| < |b.calls|
  {
    var c := b.calls[|b.results|];
    Batch(b.calls, b.ran + [|b.results|], b.results + [Tool(c.name, c.id, shown)], b.records + [record],
          b.segments + [es], b.halt || stop)
  }

  lemma AnswerOneMore(calls: seq<Call>, results: seq<Message>, content: string)
    requires |results| < |calls| && Answer(calls[..|results|], results)
    ensures Answer(calls[..|results| + 1], results + [Tool(calls[|results|].name, calls[|results|].id, content)])
  {
  }

  lemma OneMoreRan(w: World, polls: nat, i: nat, ran: seq<nat>)
    requires NotCancelled(w, polls, i, ran)
    ensures NotCancelled(w, polls, i + 1, if w.cancelled(polls + i) then ran else ran + [i])
  {
    assert (ran + [i])[|ran|] == i;
    forall k | 0 <= k < i ensures k in ran + [i] <==> k in ran {
      if k in ran {
        var j :| 0 <= j < |ran| && ran[j] == k;
        assert (ran + [i])[j] == k;
      }
    }
  }

  lemma OneMoreRecord(w: World, ran0: nat, records: seq<Record>, record: Record)
    ensures Halts(w, ran0, records + [record])
            <==> Halts(w, ran0, records) || Stopped(w, ran0 + |records|, record.result)
  {
    hide Stopped;
    var more := records + [record];
    if Halts(w, ran0, records) {
      var k :| 0 <= k < |records| && Stopped(w, ran0 + k, records[k].result);
      assert more[k] == records[k];
    }
    assert more[|records|] == record;
    if Halts(w, ran0, more) {
      var k :| 0 <= k < |more| && Stopped(w, ran0 + k, more[k].result);
      assert k < |records| ==> more[k] == records[k];
    }
  }

  lemma InterruptedIsThrough(w: World, json: Json, names: seq<string>, polls: nat, ran0: nat, b: Batch)
    requires Through(w, json, names, polls, ran0, b) && |b.results| < |b.calls|
    requires w.cancelled(polls + |b.results|)
    ensures Through(w, json, names, polls, ran0, Interrupted(b))
  {
    hide RanAs, Halts;
    AnswerOneMore(b.calls, b.results, INTERRUPTED);
    OneMoreRan(w, polls, |b.results|, b.ran);
    var next := Interrupted(b);
    forall k | 0 <= k < |b.ran| ensures RanAt(w, json, names, ran0, next, k) {
      assert RanAt(w, json, names, ran0, b, k);
    }
  }

  lemma AnsweringIsThrough(w: World, json: Json, names: seq<string>, polls: nat, ran0: nat, b: Batch, shown: string,
                           record: Record, es: seq<Event>)
    requires Through(w, json, names, polls, ran0, b) && |b.results| < |b.calls|
    requires !w.cancelled(polls + |b.results|)
    requires RanAs(w, json, names, ran0 + |b.ran|, b.calls[|b.results|], shown, record, es)
    ensures Through(w, json, names, polls, ran0,
                    Answering(b, shown, record, es, Stopped(w, ran0 + |b.ran|, record.result)))
  {
    hide RanAs, RanAt, Stopped, Halts, NotCancelled, Answer;
    AnswerOneMore(b.calls, b.results, shown);
    OneMoreRan(w, polls, |b.results|, b.ran);
    OneMoreRecord(w, ran0, b.records, record);
    AllStillRan(w, json, names, polls, ran0, b, shown, record, es);
  }

  lemma AllStillRan(w: World, json: Json, names: seq<string>, polls: nat, ran0: nat, b: Batch, shown: string,
                    record: Record, es: seq<Event>)
    requires Through(w, json, names, polls, ran0, b) && |b.results| < |b.calls|
    requires RanAs(w, json, names, ran0 + |b.ran|, b.calls[|b.results|], shown, record, es)
    ensures var next := Answering(b, shown, record, es, Stopped(w, ran0 + |b.ran|, record.result));
            forall k :: 0 <= k < |next.ran| ==>
              next.ran[k] < |next.results| && next.results[next.ran[k]].Tool? && RanAt(w, json, names, ran0, next, k)
  {
    hide RanAs, Stopped, Halts;
    var next := Answering(b, shown, record, es, Stopped(w, ran0 + |b.ran|, record.result));
    forall k | 0 <= k < |next.ran|
      ensures next.ran[k] < |next.results| && next.results[next.ran[k]].Tool? && RanAt(w, json, names, ran0, next, k)
    {
      if k < |b.ran| {
        assert RanAt(w, json, names, ran0, b, k);
        assert next.results[b.ran[k]] == b.results[b.ran[k]];
      }
    }
  }

  /** Run a batch call by call. A call whose text cannot be read raises there and then. */
  method RunBatch(w: World, json: Json, calls: seq<Call>, names: seq<string>, polls: nat, ran0: nat)
      returns (b: Batch, raised: bool)
    ensures b.calls == calls && Through(w, json, names, polls, ran0, b)
    ensures raised <==> |b.results| < |calls|
    ensures raised ==> !w.cancelled(polls + |b.results|) && Unreadable(json, calls[|b.results|])
  {
    hide Through, Answer, RanAs, RanAt, Stopped, InOrder, Guarded, Unreadable, HasEffect, Granted;
    b := Batch(calls, [], [], [], [], false);
    raised := false;
    NoneThrough(w, json, names, polls, ran0, calls);
    while |b.results| < |calls|
      invariant b.calls == calls && |b.results| <= |calls| && |b.ran| == |b.records|
      invariant Through(w, json, names, polls, ran0, b)
      decreases |calls| - |b.results|
    {
      var call := calls[|b.results|];
      if w.cancelled(polls + |b.results|) {
        InterruptedIsThrough(w, json, names, polls, ran0, b);
        b := Interrupted(b);
      } else if Unreadable(json, call) {
        raised := true;
        return;
      } else {
        var n := ran0 + |b.records|;
        var shown, record, es, stop;
        if w.blocked(n).Some? {
          shown := w.blocked(n).value;
          record := Refused(call.id, call.name, shown);
          es := [AfterTool(n, record)];
          stop := true;
          BlockedRuns(w, json, names, n, call);
        } else {
          var output;
          output, record, es := Execute(n, call.id, call.name, w.host(n), names, w.bounded);
          var guarded := Guarded(output, w.observe(n));
          shown, stop := guarded.0, guarded.1;
          ExecutedRuns(w, json, names, n, call, record, es);
        }
        StoppedIs(w, n, record.result);
        AnsweringIsThrough(w, json, names, polls, ran0, b, shown, record, es);
        b := Answering(b, shown, record, es, stop);
      }
    }
  }

  lemma BlockedRuns(w: World, json: Json, names: seq<string>, n: nat, c: Call)
    requires w.blocked(n).Some? && !Unreadable(json, c)
    ensures RanAs(w, json, names, n, c, w.blocked(n).value, Refused(c.id, c.name, w.blocked(n).value),
                  [AfterTool(n, Refused(c.id, c.name, w.blocked(n).value))])
  {
  }

  lemma ExecutedRuns(w: World, json: Json, names: seq<string>, n: nat, c: Call, record: Record, es: seq<Event>)
    requires w.blocked(n).None? && !Unreadable(json, c) && InOrder(n, es, record)
    requires record == Executed(c.id, c.name, w.host(n), names, w.bounded)
    requires HasEffect(es) <==>
             c.name in HANDLERS && c.name in names && w.host(n).refusal == None && Granted(c.name, w.host(n))
    ensures RanAs(w, json, names, n, c, Guarded(record.result, w.observe(n)).0, record, es)
  {
  }

  lemma StoppedIs(w: World, n: nat, result: string)
    ensures Stopped(w, n, result) == (w.blocked(n).Some? || Guarded(result, w.observe(n)).1)
  {
  }

  lemma NoneThrough(w: World, json: Json, names: seq<string>, polls: nat, ran0: nat, calls: seq<Call>)
    ensures Through(w, json, names, polls, ran0, Batch(calls, [], [], [], [], false))
  {
  }
}
