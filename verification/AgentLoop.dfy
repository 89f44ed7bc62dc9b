/**
  One user turn run to its answer: ask the model, run the tools it calls,
  nudge it when it stalls, stop at the bounds. A run is a sequence of rounds,
  one model reply each; what may be made of a reply is said against the rounds
  before it, and what holds of every run is proved about the rounds.
 */
module AgentLoop {
  import opened Wrappers
  import opened AgentDispatch
  import opened AgentBatch

  const LENGTH_CONTINUATIONS := 4
  const TRUNCATED_CALL_RETRIES := 4
  const DROPPED_CALL_NUDGES := 3
  const INVALID_JSON_RETRIES := 2
  const CONTINUE_NUDGES := 2

  const SUMMARY_REQUEST := "summary request"
  const LENGTH_CONTINUATION := "continue after the output limit"
  const DROPPED_CALL_NUDGE := "dropped tool call"
  const EMPTY_NUDGE := "empty after tools"
  const CONTINUE_NUDGE := "continue"
  const INVALID_JSON := "invalid JSON"
  const INVALID_SIBLING := "not run: another call of this batch had invalid JSON"
  const TRUNCATED_RESPONSE := "Response truncated"
  const STOPPED_RETRYING := "I stopped retrying a tool"

  datatype Limits = Limits(maxIterations: int, maxToolCalls: int, contextWindow: int, maxTokens: int)

  /** Half of what the window leaves, rounded toward zero; 0 for no bound. */
  function CompressAt(l: Limits): int {
    var left := l.contextWindow - l.maxTokens;
    if l.contextWindow == 0 then 0 else if left >= 0 then left / 2 else -(-left / 2)
  }

  predicate OverContext(l: Limits, t: Turn) {
    CompressAt(l) != 0 && t.promptTokens.Some? && t.promptTokens.value >= CompressAt(l)
  }

  /** What is made of one reply that does not end the run. */
  datatype Round =
    | CutText(content: string)                     // text cut at the output limit: kept, asked to go on
    | CutCalls                                     // calls cut at the output limit: dropped
    | LostCalls(content: string)                   // calls announced and none given: nudged
    | Retried                                      // unreadable arguments: asked again
    | Rejected(content: string, calls: seq<Call>)  // unreadable arguments: each call answered so
    | Ran(content: string, batch: Batch)           // the batch was run
    | Emptied                                      // nothing said after tools: nudged
    | Intended(content: string)                    // announced more work: nudged

  datatype Kind = KCutText | KCutCalls | KLostCalls | KRetried | KRejected | KRan | KEmptied | KIntended

  function KindOf(r: Round): Kind {
    match r
    case CutText(_) => KCutText
    case CutCalls => KCutCalls
    case LostCalls(_) => KLostCalls
    case Retried => KRetried
    case Rejected(_, _) => KRejected
    case Ran(_, _) => KRan
    case Emptied => KEmptied
    case Intended(_) => KIntended
  }

  function Count(rounds: seq<Round>, k: Kind): nat {
    if rounds == [] then 0
    else Count(rounds[..|rounds| - 1], k) + if KindOf(rounds[|rounds| - 1]) == k then 1 else 0
  }

  /** Silent retries since a batch was last answered. */
  function Retries(rounds: seq<Round>): nat {
    if rounds == [] then 0
    else
      var before := Retries(rounds[..|rounds| - 1]);
      match KindOf(rounds[|rounds| - 1])
      case KRetried => before + 1
      case KRejected => 0
      case KRan => 0
      case _ => before
  }

  predicate AfterTools(rounds: seq<Round>) {
    Count(rounds, KRejected) + Count(rounds, KRan) > 0
  }

  // ------------------------------------------------ what the rounds leave behind

  function InvalidIds(json: Json, calls: seq<Call>): set<string> {
    set c | c in calls && IsInvalid(json, c) :: c.id
  }

  function Rejections(json: Json, calls: seq<Call>): seq<Message> {
    seq(|calls|, i requires 0 <= i < |calls| =>
      Tool(calls[i].name, calls[i].id, if calls[i].id in InvalidIds(json, calls) then INVALID_JSON else INVALID_SIBLING))
  }

  function Said(json: Json, r: Round): seq<Message> {
    match r
    case CutText(content) => [Assistant(content, []), User(LENGTH_CONTINUATION)]
    case CutCalls => []
    case LostCalls(content) => [Assistant(content, []), User(DROPPED_CALL_NUDGE)]
    case Retried => []
    case Rejected(content, calls) => [Assistant(content, Kept(calls))] + Rejections(json, calls)
    case Ran(content, batch) => [Assistant(content, Kept(batch.calls))] + batch.results
    case Emptied => [Assistant("(empty)", []), User(EMPTY_NUDGE)]
    case Intended(content) => [Assistant(content, []), User(CONTINUE_NUDGE)]
  }

  function Transcript(json: Json, rounds: seq<Round>): seq<Message> {
    if rounds == [] then []
    else Transcript(json, rounds[..|rounds| - 1]) + Said(json, rounds[|rounds| - 1])
  }

  function Records(rounds: seq<Round>): seq<Record> {
    if rounds == [] then []
    else
      var last := rounds[|rounds| - 1];
      Records(rounds[..|rounds| - 1]) + if last.Ran? then last.batch.records else []
  }

  function Segments(rounds: seq<Round>): seq<seq<Event>> {
    if rounds == [] then []
    else
      var last := rounds[|rounds| - 1];
      Segments(rounds[..|rounds| - 1]) + if last.Ran? then last.batch.segments else []
  }

  /** Cancellation is polled before each round, and before each call of a batch. */
  function Polls(rounds: seq<Round>): nat {
    if rounds == [] then 0
    else
      var last := rounds[|rounds| - 1];
      Polls(rounds[..|rounds| - 1]) + 1 + if last.Ran? then |last.batch.results| else 0
  }

  // ------------------------------------------------------------ which round it is

  predicate Spoilt(json: Json, t: Turn) {
    t.finish != Length && exists c :: c in t.calls && IsInvalid(json, c)
  }

  predicate Runnable(json: Json, t: Turn) {
    t.finish != Length && t.calls != [] && forall c :: c in t.calls ==> !IsInvalid(json, c)
  }

  /** A reply without calls that the first two nudges do not take. */
  predicate Quiet(before: seq<Round>, t: Turn) {
    && t.calls == []
    && (t.finish == Length ==> Count(before, KCutText) >= LENGTH_CONTINUATIONS)
    && (t.finish == ToolCalls ==> Count(before, KLostCalls) >= DROPPED_CALL_NUDGES)
  }

  predicate NudgesEmpty(w: World, before: seq<Round>, t: Turn) {
    w.clean(t.text) == "" && AfterTools(before) && Count(before, KEmptied) == 0
  }

  predicate NudgesIntent(w: World, names: seq<string>, before: seq<Round>, t: Turn) {
    Count(before, KIntended) < CONTINUE_NUDGES && names != [] && w.trailingIntent(w.clean(t.text))
  }

  /** `b` is the reply's calls without repeats, run to the end of the batch. */
  ghost predicate BatchOf(w: World, json: Json, names: seq<string>, before: seq<Round>, t: Turn, b: Batch) {
    && b.calls == Firsts(json, t.calls)
    && Through(w, json, names, Polls(before) + 1, |Records(before)|, b)
  }

  ghost predicate Fits(w: World, json: Json, names: seq<string>, before: seq<Round>, t: Turn, r: Round) {
    match r
    case CutText(content) =>
      t.finish == Length && t.calls == [] && content == w.clean(t.text) && Count(before, KCutText) < LENGTH_CONTINUATIONS
    case CutCalls => t.finish == Length && t.calls != [] && Count(before, KCutCalls) < TRUNCATED_CALL_RETRIES
    case LostCalls(content) =>
      t.finish == ToolCalls && t.calls == [] && content == w.clean(t.text) && Count(before, KLostCalls) < DROPPED_CALL_NUDGES
    case Retried => Spoilt(json, t) && Retries(before) < INVALID_JSON_RETRIES
    case Rejected(content, calls) =>
      Spoilt(json, t) && calls == t.calls && content == w.clean(t.text) && Retries(before) >= INVALID_JSON_RETRIES
    case Ran(content, batch) =>
      && Runnable(json, t) && content == w.clean(t.text)
      && BatchOf(w, json, names, before, t, batch) && |batch.results| == |batch.calls|
    case Emptied => Quiet(before, t) && NudgesEmpty(w, before, t)
    case Intended(content) =>
      Quiet(before, t) && !NudgesEmpty(w, before, t) && NudgesIntent(w, names, before, t) && content == w.clean(t.text)
  }

  /** The last batch ended the run. */
  predicate HaltedBy(rounds: seq<Round>) {
    rounds != [] && rounds[|rounds| - 1].Ran? && rounds[|rounds| - 1].batch.halt
  }

  /** The model is asked again: nothing ended the run, nobody cancelled, the bounds are not reached. */
  predicate Asks(w: World, l: Limits, before: seq<Round>) {
    && !HaltedBy(before) && !w.cancelled(Polls(before))
    && |before| < l.maxIterations && |Records(before)| < l.maxToolCalls
  }

  predicate Replied(l: Limits, t: Turn) {
    !t.failed && !OverContext(l, t)
  }

  ghost predicate Follows(w: World, json: Json, names: seq<string>, l: Limits, rounds: seq<Round>, i: nat)
    requires i < |rounds|
  {
    && Asks(w, l, rounds[..i]) && Replied(l, w.model(i))
    && Fits(w, json, names, rounds[..i], w.model(i), rounds[i])
  }

  /** A run so far: each round is what the code makes of its reply after the rounds before. */
  ghost predicate Log(w: World, json: Json, names: seq<string>, l: Limits, rounds: seq<Round>) {
    forall i :: 0 <= i < |rounds| ==> Follows(w, json, names, l, rounds, i)
  }

  // ---------------------------------------------------------------- how it ends

  datatype Stop =
    | Completed | IterationBound | ToolBudget | ContextBound | Halted | TruncatedCalls | ModelError | Cancelled
    | Raised(content: string, partial: Batch)   // the error leaves in the middle of this batch
    | ContractError

  function Summary(w: World, n: nat): string {
    w.clean(w.model(n).text)
  }

  function Summarized(w: World, n: nat): seq<Message> {
    [User(SUMMARY_REQUEST), Assistant(Summary(w, n), [])]
  }

  /** A reply that ends the run. */
  ghost predicate Concludes(w: World, json: Json, names: seq<string>, rounds: seq<Round>, t: Turn, stop: Stop) {
    match stop
    case TruncatedCalls =>
      t.finish == Length && t.calls != [] && Count(rounds, KCutCalls) >= TRUNCATED_CALL_RETRIES
    case Completed =>
      Quiet(rounds, t) && !NudgesEmpty(w, rounds, t) && !NudgesIntent(w, names, rounds, t)
    case Raised(content, partial) =>
      && Runnable(json, t) && content == w.clean(t.text)
      && BatchOf(w, json, names, rounds, t, partial) && |partial.results| < |partial.calls|
      && !w.cancelled(Polls(rounds) + 1 + |partial.results|) && Unreadable(json, partial.calls[|partial.results|])
    case _ => false
  }

  /** Why a run stops. */
  ghost predicate Ends(w: World, json: Json, names: seq<string>, l: Limits, rounds: seq<Round>, stop: Stop) {
    var t := w.model(|rounds|);
    match stop
    case Halted => HaltedBy(rounds)
    case Cancelled => !HaltedBy(rounds) && w.cancelled(Polls(rounds))
    case IterationBound => !HaltedBy(rounds) && !w.cancelled(Polls(rounds)) && |rounds| >= l.maxIterations
    case ToolBudget =>
      && !HaltedBy(rounds) && !w.cancelled(Polls(rounds))
      && |rounds| < l.maxIterations && |Records(rounds)| >= l.maxToolCalls
    case ModelError => Asks(w, l, rounds) && t.failed
    case ContextBound => Asks(w, l, rounds) && !t.failed && OverContext(l, t)
    case ContractError => false
    case _ => Asks(w, l, rounds) && Replied(l, t) && Concludes(w, json, names, rounds, t, stop)
  }

  function Closing(w: World, rounds: seq<Round>, stop: Stop): seq<Message> {
    match stop
    case IterationBound => Summarized(w, |rounds|)
    case ToolBudget => Summarized(w, |rounds|)
    case ContextBound => Summarized(w, |rounds| + 1)
    case Completed => [Assistant(Summary(w, |rounds|), [])]
    case Raised(content, partial) => [Assistant(content, Kept(partial.calls))] + partial.results
    case _ => []
  }

  function Final(w: World, rounds: seq<Round>, stop: Stop): string {
    match stop
    case IterationBound => Summary(w, |rounds|)
    case ToolBudget => Summary(w, |rounds|)
    case ContextBound => Summary(w, |rounds| + 1)
    case Completed => Summary(w, |rounds|)
    case TruncatedCalls => TRUNCATED_RESPONSE
    case Halted => STOPPED_RETRYING
    case _ => ""
  }

  datatype Outcome = Outcome(final: string, messages: seq<Message>, records: seq<Record>, segments: seq<seq<Event>>,
                             stop: Stop, iterations: nat, asked: nat)

  /** Every record and every stretch of the host's trace, a batch left by an error included. */
  function AllRecords(rounds: seq<Round>, stop: Stop): seq<Record> {
    Records(rounds) + if stop.Raised? then stop.partial.records else []
  }

  function AllSegments(rounds: seq<Round>, stop: Stop): seq<seq<Event>> {
    Segments(rounds) + if stop.Raised? then stop.partial.segments else []
  }

  ghost predicate IsRun(w: World, json: Json, names: seq<string>, l: Limits, opening: seq<Message>, rounds: seq<Round>,
                        o: Outcome)
  {
    && Log(w, json, names, l, rounds) && Ends(w, json, names, l, rounds, o.stop)
    && o.final == Final(w, rounds, o.stop)
    && o.messages == opening + Transcript(json, rounds) + Closing(w, rounds, o.stop)
    && o.records == AllRecords(rounds, o.stop) && o.segments == AllSegments(rounds, o.stop)
    && o.iterations == |rounds| + (if o.stop in {Halted, Cancelled, IterationBound, ToolBudget} then 0 else 1)
    && o.asked == o.iterations + (if o.stop in {IterationBound, ToolBudget, ContextBound} then 1 else 0)
  }

  // ---------------------------------------------------------------- the loop

  datatype Counters = Counters(length: nat, truncatedCall: nat, dropped: nat, invalid: nat, continued: nat,
                               emptyNudged: bool, afterTools: bool)

  function Bump(c: Counters, k: Kind): Counters {
    match k
    case KCutText => c.(length := c.length + 1)
    case KCutCalls => c.(truncatedCall := c.truncatedCall + 1)
    case KLostCalls => c.(dropped := c.dropped + 1)
    case KRetried => c.(invalid := c.invalid + 1)
    case KRejected => c.(invalid := 0, afterTools := true)
    case KRan => c.(invalid := 0, afterTools := true)
    case KEmptied => c.(emptyNudged := true)
    case KIntended => c.(continued := c.continued + 1)
  }

  function Counted(rounds: seq<Round>): Counters {
    Counters(Count(rounds, KCutText), Count(rounds, KCutCalls), Count(rounds, KLostCalls), Retries(rounds),
             Count(rounds, KIntended), Count(rounds, KEmptied) > 0, AfterTools(rounds))
  }

  /** The loop's variables are what the rounds say they are. */
  ghost predicate Current(json: Json, opening: seq<Message>, rounds: seq<Round>, messages: seq<Message>,
                          records: seq<Record>, segments: seq<seq<Event>>, polls: nat, c: Counters)
  {
    && messages == opening + Transcript(json, rounds)
    && records == Records(rounds) && segments == Segments(rounds) && polls == Polls(rounds)
    && c == Counted(rounds)
  }

  lemma Advance(w: World, json: Json, names: seq<string>, l: Limits, opening: seq<Message>, rounds: seq<Round>, r: Round,
                messages: seq<Message>, records: seq<Record>, segments: seq<seq<Event>>, polls: nat, c: Counters)
    requires Current(json, opening, rounds, messages, records, segments, polls, c)
    requires Log(w, json, names, l, rounds) && Asks(w, l, rounds) && Replied(l, w.model(|rounds|))
    requires Fits(w, json, names, rounds, w.model(|rounds|), r)
    ensures Log(w, json, names, l, rounds + [r])
    ensures HaltedBy(rounds + [r]) <==> r.Ran? && r.batch.halt
    ensures Current(json, opening, rounds + [r], messages + Said(json, r),
                    records + (if r.Ran? then r.batch.records else []),
                    segments + (if r.Ran? then r.batch.segments else []),
                    polls + 1 + (if r.Ran? then |r.batch.results| else 0), Bump(c, KindOf(r)))
  {
    hide Fits, Asks, Replied, Said;
    var more := rounds + [r];
    assert more[..|rounds|] == rounds;
    forall i | 0 <= i < |more| ensures Follows(w, json, names, l, more, i) {
      if i < |rounds| {
        assert Follows(w, json, names, l, rounds, i);
        assert more[..i] == rounds[..i];
      }
    }
  }

  method FindInvalid(json: Json, calls: seq<Call>) returns (invalid: set<string>)
    ensures invalid == InvalidIds(json, calls)
    ensures invalid == {} <==> forall c :: c in calls ==> !IsInvalid(json, c)
  {
    invalid := {};
    for i := 0 to |calls|
      invariant invalid == InvalidIds(json, calls[..i])
      invariant invalid == {} <==> forall c :: c in calls[..i] ==> !IsInvalid(json, c)
    {
      assert calls[..i + 1] == calls[..i] + [calls[i]];
      if IsInvalid(json, calls[i]) {
        assert calls[i] in calls[..i + 1];
        invalid := invalid + {calls[i].id};
      }
    }
    assert calls[..|calls|] == calls;
  }

  method Reject(json: Json, calls: seq<Call>, invalid: set<string>) returns (results: seq<Message>)
    requires invalid == InvalidIds(json, calls)
    ensures results == Rejections(json, calls)
  {
    results := [];
    for i := 0 to |calls|
      invariant |results| == i
      invariant results == Rejections(json, calls)[..i]
    {
      results := results + [Tool(calls[i].name, calls[i].id, if calls[i].id in invalid then INVALID_JSON else INVALID_SIBLING)];
    }
  }

  /** Each call is told, in its place and under its own name and id, that its text or another's of its id could not be
      read; and else that it was not run. */
  lemma RejectionsSay(json: Json, calls: seq<Call>, i: nat)
    requires i < |calls|
    ensures |Rejections(json, calls)| == |calls|
    ensures var c := calls[i];
            Rejections(json, calls)[i]
            == Tool(c.name, c.id, if exists d :: d in calls && d.id == c.id && IsInvalid(json, d) then "invalid JSON"
                                  else "not run: another call of this batch had invalid JSON")
  {
    hide IsInvalid;
  }

  function Names(tools: seq<ToolDefinition>): seq<string> {
    seq(|tools|, i requires 0 <= i < |tools| => tools[i].name)
  }

  function Opening(system: string, history: seq<Message>, request: string): seq<Message> {
    [System(system)] + history + [User(request)]
  }

  /** The last word when a bound is reached: one more reply, without tools. */
  method Summarize(w: World, messages: seq<Message>, n: nat) returns (final: string, said: seq<Message>)
    ensures final == Summary(w, n) && said == messages + Summarized(w, n)
  {
    said := messages + [User(SUMMARY_REQUEST)];
    var turn := w.model(n);
    final := w.clean(turn.text);
    said := said + [Assistant(final, [])];
  }

  lemma CurrentIs(json: Json, opening: seq<Message>, rounds: seq<Round>, messages: seq<Message>,
                  records: seq<Record>, segments: seq<seq<Event>>, polls: nat, c: Counters)
    requires Current(json, opening, rounds, messages, records, segments, polls, c)
    ensures records == Records(rounds) && polls == Polls(rounds) && c == Counted(rounds)
  {
  }

  lemma NothingYet(w: World, json: Json, names: seq<string>, l: Limits, opening: seq<Message>)
    ensures Log(w, json, names, l, []) && !HaltedBy([])
    ensures Current(json, opening, [], opening, [], [], 0, Counters(0, 0, 0, 0, 0, false, false))
  {
    assert opening + [] == opening;
  }

  lemma Finished(w: World, json: Json, names: seq<string>, l: Limits, opening: seq<Message>, rounds: seq<Round>,
                 messages: seq<Message>, records: seq<Record>, segments: seq<seq<Event>>, polls: nat, c: Counters, o: Outcome)
    requires Current(json, opening, rounds, messages, records, segments, polls, c)
    requires Log(w, json, names, l, rounds) && Ends(w, json, names, l, rounds, o.stop)
    requires o.final == Final(w, rounds, o.stop)
    requires o.messages == messages + Closing(w, rounds, o.stop)
    requires o.records == records + (if o.stop.Raised? then o.stop.partial.records else [])
    requires o.segments == segments + (if o.stop.Raised? then o.stop.partial.segments else [])
    requires o.iterations == |rounds| + (if o.stop in {Halted, Cancelled, IterationBound, ToolBudget} then 0 else 1)
    requires o.asked == o.iterations + (if o.stop in {IterationBound, ToolBudget, ContextBound} then 1 else 0)
    ensures IsRun(w, json, names, l, opening, rounds, o)
  {
    hide Log, Ends, Final, Closing, Transcript, Records, Segments, Polls, Count, Retries, AfterTools;
  }

  const NO_BATCH := Batch([], [], [], [], [], false)

  /** What one reply adds to the run, or ends it with. */
  ghost predicate Made(w: World, json: Json, names: seq<string>, rounds: seq<Round>, t: Turn, c: Counters, next: Counters,
                       said: seq<Message>, batch: Batch, stop: Option<Stop>, r: Round)
  {
    match stop
    case None =>
      && Fits(w, json, names, rounds, t, r) && next == Bump(c, KindOf(r))
      && said == Said(json, r) && batch == (if r.Ran? then r.batch else NO_BATCH)
    case Some(e) =>
      && Concludes(w, json, names, rounds, t, e) && batch == (if e.Raised? then e.partial else NO_BATCH)
      && said == (match e
                  case Completed => [Assistant(w.clean(t.text), [])]
                  case Raised(content, partial) => [Assistant(content, Kept(partial.calls))] + partial.results
                  case _ => [])
  }

  lemma MadeRetried(w: World, json: Json, names: seq<string>, rounds: seq<Round>, t: Turn, c: Counters)
    requires c == Counted(rounds) && Spoilt(json, t) && c.invalid < INVALID_JSON_RETRIES
    ensures Made(w, json, names, rounds, t, c, c.(invalid := c.invalid + 1), [], NO_BATCH, None, Retried)
  {
    hide Spoilt, Count, Retries, AfterTools;
  }

  lemma MadeRejected(w: World, json: Json, names: seq<string>, rounds: seq<Round>, t: Turn, c: Counters)
    requires c == Counted(rounds) && Spoilt(json, t) && c.invalid >= INVALID_JSON_RETRIES
    ensures Made(w, json, names, rounds, t, c, c.(invalid := 0, afterTools := true),
                 [Assistant(w.clean(t.text), Kept(t.calls))] + Rejections(json, t.calls), NO_BATCH, None,
                 Rejected(w.clean(t.text), t.calls))
  {
    hide Spoilt, Count, Retries, AfterTools, Kept, Rejections;
  }

  lemma MadeRan(w: World, json: Json, names: seq<string>, rounds: seq<Round>, t: Turn, c: Counters, b: Batch, raised: bool)
    requires Runnable(json, t) && BatchOf(w, json, names, rounds, t, b) && (raised <==> |b.results| < |b.calls|)
    requires |b.results| <= |b.calls|
    requires raised ==> && !w.cancelled(Polls(rounds) + 1 + |b.results|) && Unreadable(json, b.calls[|b.results|])
    ensures Made(w, json, names, rounds, t, c, c.(invalid := 0, afterTools := true),
                 [Assistant(w.clean(t.text), Kept(b.calls))] + b.results, b,
                 if raised then Some(Raised(w.clean(t.text), b)) else None, Ran(w.clean(t.text), b))
  {
    hide Runnable, BatchOf, Kept, Polls, Unreadable;
  }

  /** The calls of a reply: answered as unreadable, asked for again, or run. */
  method ReplyWithCalls(w: World, json: Json, names: seq<string>, turn: Turn, c: Counters, polls: nat, ran0: nat,
                        ghost rounds: seq<Round>)
      returns (next: Counters, said: seq<Message>, batch: Batch, stop: Option<Stop>, r: Round)
    requires c == Counted(rounds) && polls == Polls(rounds) && ran0 == |Records(rounds)|
    requires turn.calls != [] && turn.finish != Length
    ensures Made(w, json, names, rounds, turn, c, next, said, batch, stop, r)
  {
    hide Made, Counted, Records, Polls, BatchOf, Through, IsInvalid, Unreadable, InvalidIds, Rejections, Kept, Firsts,
         KeptInOrder;
    var content, calls := w.clean(turn.text), turn.calls;
    next, said, batch, stop, r := c, [], NO_BATCH, None, Retried;
    var invalid := FindInvalid(json, calls);
    if invalid != {} {
      next := next.(invalid := next.invalid + 1);
      if next.invalid > INVALID_JSON_RETRIES {
        next := next.(invalid := 0, afterTools := true);
        var rejections := Reject(json, calls, invalid);
        said := [Assistant(content, Kept(calls))] + rejections;
        r := Rejected(content, calls);
        MadeRejected(w, json, names, rounds, turn, c);
      } else {
        MadeRetried(w, json, names, rounds, turn, c);
      }
    } else {
      next := next.(invalid := 0, afterTools := true);
      calls := Deduplicate(json, calls);
      var raised;
      batch, raised := RunBatch(w, json, calls, names, polls + 1, ran0);
      said := [Assistant(content, Kept(calls))] + batch.results;
      BatchIs(w, json, names, rounds, turn, batch);
      stop := if raised then Some(Raised(content, batch)) else None;
      r := Ran(content, batch);
      MadeRan(w, json, names, rounds, turn, c, batch, raised);
    }
  }

  method Reply(w: World, json: Json, names: seq<string>, turn: Turn, c: Counters, polls: nat, ran0: nat,
               ghost rounds: seq<Round>)
      returns (next: Counters, said: seq<Message>, batch: Batch, stop: Option<Stop>, r: Round)
    requires c == Counted(rounds) && polls == Polls(rounds) && ran0 == |Records(rounds)|
    ensures Made(w, json, names, rounds, turn, c, next, said, batch, stop, r)
  {
    hide Records, Polls, Count, Retries, AfterTools, BatchOf, Runnable, Spoilt, Kept;
    var content, calls := w.clean(turn.text), turn.calls;
    next, said, batch, stop, r := c, [], NO_BATCH, None, CutCalls;
    if turn.finish == Length && calls != [] {
      next := next.(truncatedCall := next.truncatedCall + 1);
      if next.truncatedCall > TRUNCATED_CALL_RETRIES {
        stop := Some(TruncatedCalls);
      }
    } else if turn.finish == Length && next.length < LENGTH_CONTINUATIONS {
      next := next.(length := next.length + 1);
      said := [Assistant(content, []), User(LENGTH_CONTINUATION)];
      r := CutText(content);
    } else if calls == [] && turn.finish == ToolCalls && next.dropped < DROPPED_CALL_NUDGES {
      next := next.(dropped := next.dropped + 1);
      said := [Assistant(content, []), User(DROPPED_CALL_NUDGE)];
      r := LostCalls(content);
    } else if calls != [] {
      next, said, batch, stop, r := ReplyWithCalls(w, json, names, turn, c, polls, ran0, rounds);
    } else if content == "" && next.afterTools && !next.emptyNudged {
      next := next.(emptyNudged := true);
      said := [Assistant("(empty)", []), User(EMPTY_NUDGE)];
      r := Emptied;
    } else if next.continued < CONTINUE_NUDGES && names != [] && w.trailingIntent(content) {
      next := next.(continued := next.continued + 1);
      said := [Assistant(content, []), User(CONTINUE_NUDGE)];
      r := Intended(content);
    } else {
      said := [Assistant(content, [])];
      stop := Some(Completed);
    }
  }

  lemma ReplyEnds(w: World, json: Json, names: seq<string>, l: Limits, opening: seq<Message>, rounds: seq<Round>,
                  messages: seq<Message>, records: seq<Record>, segments: seq<seq<Event>>, polls: nat, c: Counters,
                  next: Counters, said: seq<Message>, batch: Batch, stop: Stop, r: Round, o: Outcome)
    requires Current(json, opening, rounds, messages, records, segments, polls, c)
    requires Log(w, json, names, l, rounds) && Asks(w, l, rounds) && Replied(l, w.model(|rounds|))
    requires Made(w, json, names, rounds, w.model(|rounds|), c, next, said, batch, Some(stop), r)
    requires o == Outcome(match stop
                          case Completed => w.clean(w.model(|rounds|).text)
                          case TruncatedCalls => TRUNCATED_RESPONSE
                          case _ => "",
                          messages + said, records + batch.records, segments + batch.segments, stop,
                          |rounds| + 1, |rounds| + 1)
    ensures IsRun(w, json, names, l, opening, rounds, o) && stop != ContractError
  {
    hide Current, Log, Asks, Replied, IsRun, Quiet, NudgesEmpty, NudgesIntent, BatchOf, Runnable, Polls, Count;
    Finished(w, json, names, l, opening, rounds, messages, records, segments, polls, c, o);
  }

  lemma ReplyGoesOn(w: World, json: Json, names: seq<string>, l: Limits, opening: seq<Message>, rounds: seq<Round>,
                    messages: seq<Message>, records: seq<Record>, segments: seq<seq<Event>>, polls: nat, c: Counters,
                    next: Counters, said: seq<Message>, batch: Batch, r: Round)
    requires Current(json, opening, rounds, messages, records, segments, polls, c)
    requires Log(w, json, names, l, rounds) && Asks(w, l, rounds) && Replied(l, w.model(|rounds|))
    requires Made(w, json, names, rounds, w.model(|rounds|), c, next, said, batch, None, r)
    ensures Log(w, json, names, l, rounds + [r]) && (HaltedBy(rounds + [r]) <==> batch.halt)
    ensures Current(json, opening, rounds + [r], messages + said, records + batch.records, segments + batch.segments,
                    polls + 1 + |batch.results|, next)
  {
    hide Current, Log, Asks, Replied, Fits, Said, Bump, HaltedBy;
    Advance(w, json, names, l, opening, rounds, r, messages, records, segments, polls, c);
  }

  lemma EndsSo(w: World, json: Json, names: seq<string>, l: Limits, opening: seq<Message>, rounds: seq<Round>,
               messages: seq<Message>, records: seq<Record>, segments: seq<seq<Event>>, polls: nat, c: Counters, o: Outcome)
    requires Current(json, opening, rounds, messages, records, segments, polls, c) && Log(w, json, names, l, rounds)
    requires !o.stop.Raised? && Ends(w, json, names, l, rounds, o.stop) && o.final == Final(w, rounds, o.stop)
    requires var closing := Closing(w, rounds, o.stop); o.messages == if closing == [] then messages else messages + closing
    requires o.records == records && o.segments == segments
    requires o.iterations == |rounds| + (if o.stop in {Halted, Cancelled, IterationBound, ToolBudget} then 0 else 1)
    requires o.asked == o.iterations + (if o.stop in {IterationBound, ToolBudget, ContextBound} then 1 else 0)
    ensures IsRun(w, json, names, l, opening, rounds, o)
  {
    hide *;
    assert records + [] == records && segments + [] == segments && messages + [] == messages;
    Finished(w, json, names, l, opening, rounds, messages, records, segments, polls, c, o);
  }

  /** Run one user turn. The contract of the tools is checked before the model is asked anything. */
  method Run(w: World, json: Json, tools: seq<ToolDefinition>, system: string, history: seq<Message>, request: string,
             l: Limits) returns (o: Outcome, ghost rounds: seq<Round>)
    ensures o.stop == ContractError <==> !Executable(tools)
    ensures o.stop == ContractError ==> o.asked == 0 && o.messages == [] && o.records == []
    ensures o.stop != ContractError ==> IsRun(w, json, Names(tools), l, Opening(system, history, request), rounds, o)
  {
    hide *;
    rounds := [];
    var problems := CheckContract(tools);
    if problems != [] {
      o := Outcome("", [], [], [], ContractError, 0, 0);
      return;
    }
    o, rounds := Turns(w, json, Names(tools), Opening(system, history, request), l);
  }

  method Turns(w: World, json: Json, names: seq<string>, opening: seq<Message>, l: Limits)
      returns (o: Outcome, ghost rounds: seq<Round>)
    ensures o.stop != ContractError && IsRun(w, json, names, l, opening, rounds, o)
  {
    hide Log, Current, Transcript, Records, Segments, Polls, Count, Retries, AfterTools, IsRun, HaltedBy, Made,
         CompressAt;
    rounds := [];
    var messages, records, segments: seq<seq<Event>> := opening, [], [];
    var counters := Counters(0, 0, 0, 0, 0, false, false);
    var compressAt := CompressAt(l);
    var iterations: nat, polls: nat := 0, 0;
    NothingYet(w, json, names, l, opening);
    while true
      invariant |rounds| == iterations && !HaltedBy(rounds) && Log(w, json, names, l, rounds)
      invariant Current(json, opening, rounds, messages, records, segments, polls, counters)
      decreases l.maxIterations - iterations
    {
      CurrentIs(json, opening, rounds, messages, records, segments, polls, counters);
      if w.cancelled(polls) {
        o := Outcome("", messages, records, segments, Cancelled, iterations, iterations);
        EndsSo(w, json, names, l, opening, rounds, messages, records, segments, polls, counters, o);
        return;
      }
      if iterations >= l.maxIterations || |records| >= l.maxToolCalls {
        var stop := if iterations >= l.maxIterations then IterationBound else ToolBudget;
        var final, said := Summarize(w, messages, iterations);
        o := Outcome(final, said, records, segments, stop, iterations, iterations + 1);
        EndsSo(w, json, names, l, opening, rounds, messages, records, segments, polls, counters, o);
        return;
      }
      var turn := w.model(iterations);
      iterations := iterations + 1;
      if turn.failed {
        o := Outcome("", messages, records, segments, ModelError, iterations, iterations);
        EndsSo(w, json, names, l, opening, rounds, messages, records, segments, polls, counters, o);
        return;
      }
      if compressAt != 0 && turn.promptTokens.Some? && turn.promptTokens.value >= compressAt {
        var final, said := Summarize(w, messages, iterations);
        o := Outcome(final, said, records, segments, ContextBound, iterations, iterations + 1);
        EndsSo(w, json, names, l, opening, rounds, messages, records, segments, polls, counters, o);
        return;
      }
      var r: Round;
      var next, said, batch, stop;
      next, said, batch, stop, r := Reply(w, json, names, turn, counters, polls, |records|, rounds);
      if stop.Some? {
        var final := match stop.value
          case Completed => w.clean(turn.text)
          case TruncatedCalls => TRUNCATED_RESPONSE
          case _ => "";
        o := Outcome(final, messages + said, records + batch.records, segments + batch.segments, stop.value,
                     iterations, iterations);
        ReplyEnds(w, json, names, l, opening, rounds, messages, records, segments, polls, counters, next, said, batch,
                  stop.value, r, o);
        return;
      }
      ReplyGoesOn(w, json, names, l, opening, rounds, messages, records, segments, polls, counters, next, said, batch, r);
      rounds := rounds + [r];
      messages, records, segments := messages + said, records + batch.records, segments + batch.segments;
      polls := polls + 1 + |batch.results|;
      counters := next;
      if batch.halt {
        o := Outcome(STOPPED_RETRYING, messages, records, segments, Halted, iterations, iterations);
        EndsSo(w, json, names, l, opening, rounds, messages, records, segments, polls, counters, o);
        return;
      }
    }
  }

  lemma BatchIs(w: World, json: Json, names: seq<string>, before: seq<Round>, t: Turn, b: Batch)
    requires b.calls == Firsts(json, t.calls)
    requires Through(w, json, names, Polls(before) + 1, |Records(before)|, b)
    ensures BatchOf(w, json, names, before, t, b) && |b.results| <= |b.calls|
  {
  }
}
