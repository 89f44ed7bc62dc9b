/** What holds of every run of the agent loop. */
module AgentRuns {
  import opened Wrappers
  import opened AgentDispatch
  import opened AgentBatch
  import opened AgentLoop

  // ------------------------------------------------------------- the transcript

  lemma RoundIsAnswered(w: World, json: Json, names: seq<string>, before: seq<Round>, t: Turn, r: Round)
    requires Fits(w, json, names, before, t, r)
    ensures Answered(Said(json, r))
  {
    match r
    case CutCalls =>
    case Retried =>
    case Rejected(content, calls) => BatchIsAnswered(content, Kept(calls), Rejections(json, calls));
    case Ran(content, batch) =>
      assert batch.calls[..|batch.results|] == batch.calls;
      BatchIsAnswered(content, Kept(batch.calls), batch.results);
    case _ =>
      var said := Said(json, r);
      PlainIsAnswered(said[0]);
      PlainIsAnswered(said[1]);
      AnsweredAppends([said[0]], [said[1]]);
      assert said == [said[0]] + [said[1]];
  }

  lemma LogShrinks(w: World, json: Json, names: seq<string>, l: Limits, rounds: seq<Round>)
    requires Log(w, json, names, l, rounds) && rounds != []
    ensures Log(w, json, names, l, rounds[..|rounds| - 1]) && Follows(w, json, names, l, rounds, |rounds| - 1)
  {
    var before := rounds[..|rounds| - 1];
    forall i | 0 <= i < |before| ensures Follows(w, json, names, l, before, i) {
      assert Follows(w, json, names, l, rounds, i);
      assert before[..i] == rounds[..i];
    }
  }

  lemma {:induction false} RoundsAreAnswered(w: World, json: Json, names: seq<string>, l: Limits, rounds: seq<Round>)
    requires Log(w, json, names, l, rounds)
    ensures Answered(Transcript(json, rounds))
  {
    if rounds != [] {
      hide Log, Answered, Said, Fits, Asks, Replied;
      var last := |rounds| - 1;
      LogShrinks(w, json, names, l, rounds);
      RoundsAreAnswered(w, json, names, l, rounds[..last]);
      RoundIsAnswered(w, json, names, rounds[..last], w.model(last), rounds[last]);
      AnsweredAppends(Transcript(json, rounds[..last]), Said(json, rounds[last]));
    }
  }

  lemma ClosingIsAnsweredIff(w: World, json: Json, names: seq<string>, l: Limits, rounds: seq<Round>, stop: Stop)
    requires Ends(w, json, names, l, rounds, stop)
    ensures Answered(Closing(w, rounds, stop)) <==> !stop.Raised?
  {
    hide Log, Asks, Replied, Quiet, NudgesEmpty, NudgesIntent, HaltedBy;
    var said := Closing(w, rounds, stop);
    if !stop.Raised? && said != [] {
      PlainIsAnswered(said[0]);
      if |said| == 2 {
        PlainIsAnswered(said[1]);
        AnsweredAppends([said[0]], [said[1]]);
        assert said == [said[0]] + [said[1]];
      }
    }
  }

  /** A run leaves calls unanswered exactly when it is left by an error. */
  lemma AnsweredUnlessRaised(w: World, json: Json, names: seq<string>, l: Limits, opening: seq<Message>,
                                rounds: seq<Round>, o: Outcome)
    requires IsRun(w, json, names, l, opening, rounds, o) && Answered(opening)
    ensures Answered(o.messages) <==> !o.stop.Raised?
  {
    hide Log, Ends, Answered, Transcript, Closing, Final, AllRecords, AllSegments;
    var closing := Closing(w, rounds, o.stop);
    RoundsAreAnswered(w, json, names, l, rounds);
    ClosingIsAnsweredIff(w, json, names, l, rounds, o.stop);
    AnsweredAppends(opening, Transcript(json, rounds));
    AnsweredAppends(opening + Transcript(json, rounds), closing);
  }

  /** Earlier turns are plain: what the user said, what the assistant answered. */
  lemma {:induction false} OpeningIsAnswered(system: string, history: seq<Message>, request: string)
    requires forall m :: m in history ==> m.System? || m.User? || (m.Assistant? && m.calls == [])
    ensures Answered(Opening(system, history, request))
  {
    PlainAllAnswered(history);
    PlainIsAnswered(System(system));
    PlainIsAnswered(User(request));
    AnsweredAppends([System(system)], history);
    AnsweredAppends([System(system)] + history, [User(request)]);
  }

  lemma {:induction false} PlainAllAnswered(ms: seq<Message>)
    requires forall m :: m in ms ==> m.System? || m.User? || (m.Assistant? && m.calls == [])
    ensures Answered(ms)
  {
    if ms != [] {
      PlainAllAnswered(ms[1..]);
      PlainIsAnswered(ms[0]);
      AnsweredAppends([ms[0]], ms[1..]);
      assert ms == [ms[0]] + ms[1..];
    }
  }

  // --------------------------------------------------------------- the audit

  /** The segments of a batch, numbered from `ran0`, each in order. */
  lemma BatchIsAudited(w: World, json: Json, names: seq<string>, polls: nat, ran0: nat, b: Batch)
    requires Through(w, json, names, polls, ran0, b)
    ensures |b.segments| == |b.records| && forall k :: 0 <= k < |b.records| ==> InOrder(ran0 + k, b.segments[k], b.records[k])
  {
    hide InOrder;
    forall k | 0 <= k < |b.records| ensures InOrder(ran0 + k, b.segments[k], b.records[k]) {
      assert RanAt(w, json, names, ran0, b, k);
    }
  }

  lemma AuditExtends(segments: seq<seq<Event>>, records: seq<Record>, es: seq<seq<Event>>, rs: seq<Record>)
    requires Audit(segments, records) && |es| == |rs|
    requires forall k :: 0 <= k < |rs| ==> InOrder(|records| + k, es[k], rs[k])
    ensures Audit(segments + es, records + rs)
  {
    hide InOrder;
    forall k | 0 <= k < |records + rs| ensures InOrder(k, (segments + es)[k], (records + rs)[k]) {
      if k >= |records| {
        var j := k - |records|;
        assert InOrder(|records| + j, es[j], rs[j]);
      }
    }
  }

  lemma {:induction false} RoundsAreAudited(w: World, json: Json, names: seq<string>, l: Limits, rounds: seq<Round>)
    requires Log(w, json, names, l, rounds)
    ensures Audit(Segments(rounds), Records(rounds))
  {
    if rounds != [] {
      hide Log, Audit, Through, InOrder, Asks, Replied, Runnable;
      var last := |rounds| - 1;
      LogShrinks(w, json, names, l, rounds);
      RoundsAreAudited(w, json, names, l, rounds[..last]);
      var before := rounds[..last];
      if rounds[last].Ran? {
        var b := rounds[last].batch;
        BatchIsAudited(w, json, names, Polls(before) + 1, |Records(before)|, b);
        AuditExtends(Segments(before), Records(before), b.segments, b.records);
      } else {
        assert Segments(before) + [] == Segments(before) && Records(before) + [] == Records(before);
      }
    }
  }

  lemma RunKeepsAudit(w: World, json: Json, names: seq<string>, l: Limits, opening: seq<Message>, rounds: seq<Round>,
                      o: Outcome)
    requires IsRun(w, json, names, l, opening, rounds, o)
    ensures Audit(o.segments, o.records)
  {
    hide Log, Audit, Through, Asks, Replied, Runnable, Records, Segments, Polls, InOrder, Quiet, Closing, Transcript;
    RoundsAreAudited(w, json, names, l, rounds);
    if o.stop.Raised? {
      var b := o.stop.partial;
      BatchIsAudited(w, json, names, Polls(rounds) + 1, |Records(rounds)|, b);
      AuditExtends(Segments(rounds), Records(rounds), b.segments, b.records);
    } else {
      assert Segments(rounds) + [] == Segments(rounds) && Records(rounds) + [] == Records(rounds);
    }
  }

  /** Over a whole run, one left by an error included: the records kept are those the host was told of, in
      order; and every write, deletion and command follows an authorisation of its own call, at most one each,
      and is one that the tool recorded for its call has. */
  lemma RunIsAudited(w: World, json: Json, names: seq<string>, l: Limits, opening: seq<Message>, rounds: seq<Round>,
                     o: Outcome)
    requires IsRun(w, json, names, l, opening, rounds, o)
    ensures Told(Flat(o.segments)) == o.records
    ensures forall p :: 0 <= p < |Flat(o.segments)| && IsEffect(Flat(o.segments)[p]) ==> Allowed(Flat(o.segments), p)
    ensures forall p :: 0 <= p < |Flat(o.segments)| && IsEffect(Flat(o.segments)[p]) ==>
              var n := Flat(o.segments)[p].n; n < |o.records| && OfTool(Flat(o.segments)[p], o.records[n].name)
    ensures forall p, q :: 0 <= p < q < |Flat(o.segments)| && IsEffect(Flat(o.segments)[p]) && IsEffect(Flat(o.segments)[q])
              ==> Flat(o.segments)[p].n != Flat(o.segments)[q].n
  {
    RunKeepsAudit(w, json, names, l, opening, rounds, o);
    hide *;
    var trace := Flat(o.segments);
    RecordsAreTold(o.segments, o.records);
    forall p | 0 <= p < |trace| && IsEffect(trace[p])
      ensures Allowed(trace, p) && trace[p].n < |o.records| && OfTool(trace[p], o.records[trace[p].n].name)
    {
      EffectsAreAuthorised(o.segments, o.records, p, p);
    }
    forall p, q | 0 <= p < q < |trace| && IsEffect(trace[p]) && IsEffect(trace[q]) ensures trace[p].n != trace[q].n {
      EffectsAreAuthorised(o.segments, o.records, p, q);
    }
  }

  /** Within a batch no call runs twice: what is kept of a reply has no two equal keys, and loses none; it is the
      first call of each key, in the order the reply gave them. */
  lemma NoCallRunsTwice(w: World, json: Json, names: seq<string>, l: Limits, rounds: seq<Round>, i: nat)
    requires Log(w, json, names, l, rounds) && i < |rounds| && rounds[i].Ran?
    ensures DistinctKeys(json, rounds[i].batch.calls)
    ensures Keys(json, rounds[i].batch.calls) == Keys(json, w.model(i).calls)
    ensures exists at :: InOrderGiven(json, w.model(i).calls, rounds[i].batch.calls, at)
  {
    hide Through, Runnable, Asks, Replied;
    var at := FirstsAreInOrder(json, w.model(i).calls);
    assert Follows(w, json, names, l, rounds, i);
    FirstsRunOnce(json, w.model(i).calls);
  }

  // -------------------------------------------------------------- the bounds

  /** Every round is of one kind. */
  lemma {:induction false} CountsAddUp(rounds: seq<Round>)
    ensures |rounds| == Count(rounds, KCutText) + Count(rounds, KCutCalls) + Count(rounds, KLostCalls)
                        + Count(rounds, KRetried) + Count(rounds, KRejected) + Count(rounds, KRan)
                        + Count(rounds, KEmptied) + Count(rounds, KIntended)
  {
    if rounds != [] {
      hide Count;
      CountsAddUp(rounds[..|rounds| - 1]);
      LastIsCounted(rounds);
    }
  }

  /** How many rounds of each kind there can be: the nudges are bounded outright, the silent retries by the
      batches answered between them, and a batch is rejected only after two retries. */
  lemma {:induction false} RoundsAreCounted(w: World, json: Json, names: seq<string>, l: Limits, rounds: seq<Round>)
    requires Log(w, json, names, l, rounds)
    ensures Count(rounds, KCutText) <= 4 && Count(rounds, KCutCalls) <= 4 && Count(rounds, KLostCalls) <= 3
    ensures Count(rounds, KEmptied) <= 1 && Count(rounds, KIntended) <= 2
    ensures Retries(rounds) <= 2
    ensures 2 * Count(rounds, KRejected) + Retries(rounds) <= Count(rounds, KRetried)
    ensures Count(rounds, KRetried) <= 2 * (Count(rounds, KRejected) + Count(rounds, KRan)) + Retries(rounds)
  {
    if rounds != [] {
      hide Log, Fits, Asks, Replied, Count, Retries;
      var last := |rounds| - 1;
      LogShrinks(w, json, names, l, rounds);
      RoundsAreCounted(w, json, names, l, rounds[..last]);
      LastIsCounted(rounds);
      RoundHadRoom(w, json, names, rounds[..last], w.model(last), rounds[last]);
    }
  }

  lemma LastIsCounted(rounds: seq<Round>)
    requires rounds != []
    ensures forall k :: Count(rounds, k)
                        == Count(rounds[..|rounds| - 1], k) + (if KindOf(rounds[|rounds| - 1]) == k then 1 else 0)
    ensures Retries(rounds) == match KindOf(rounds[|rounds| - 1])
                               case KRetried => Retries(rounds[..|rounds| - 1]) + 1
                               case KRejected => 0
                               case KRan => 0
                               case _ => Retries(rounds[..|rounds| - 1])
  {
  }

  lemma RoundHadRoom(w: World, json: Json, names: seq<string>, before: seq<Round>, t: Turn, r: Round)
    requires Fits(w, json, names, before, t, r)
    ensures match KindOf(r)
            case KCutText => Count(before, KCutText) < 4
            case KCutCalls => Count(before, KCutCalls) < 4
            case KLostCalls => Count(before, KLostCalls) < 3
            case KRetried => Retries(before) < 2
            case KRejected => Retries(before) >= 2
            case KEmptied => Count(before, KEmptied) == 0
            case KIntended => Count(before, KIntended) < 2
            case KRan => true
  {
    hide Count, Retries, BatchOf, Runnable, Spoilt, Quiet, AfterTools;
  }

  /** A run lasts only as long as it gets batches answered: three rounds for each, and seventeen more. */
  lemma ProgressOrEnd(w: World, json: Json, names: seq<string>, l: Limits, opening: seq<Message>, rounds: seq<Round>,
                      o: Outcome)
    requires IsRun(w, json, names, l, opening, rounds, o)
    ensures o.iterations <= 3 * (Count(rounds, KRan) + Count(rounds, KRejected)) + 17
    ensures o.iterations - Count(rounds, KRan) - Count(rounds, KRejected) - Count(rounds, KRetried) <= 4 + 4 + 3 + 1 + 2 + 1
  {
    hide Log, Ends, Transcript, Closing, Final, AllRecords, AllSegments, Count;
    RoundsAreCounted(w, json, names, l, rounds);
    CountsAddUp(rounds);
  }

  /** At most one call of the model more than the iterations allowed; that one when a bound is reached. */
  lemma ModelCallsAreBounded(w: World, json: Json, names: seq<string>, l: Limits, opening: seq<Message>,
                             rounds: seq<Round>, o: Outcome)
    requires IsRun(w, json, names, l, opening, rounds, o)
    ensures var most := if l.maxIterations > 0 then l.maxIterations else 0;
            && o.iterations <= most && o.asked <= most + 1
            && (o.stop == IterationBound ==> o.iterations == most && o.asked == most + 1)
  {
    hide Fits, Concludes, Transcript, Closing, Final, AllRecords, AllSegments, Count, Records, Polls;
    if rounds != [] {
      assert Follows(w, json, names, l, rounds, |rounds| - 1);
    }
  }

  /** Round `i` is the last that ran a batch; it did so from below the budget, and the records since are
      within that batch. */
  ghost predicate Overran(l: Limits, rounds: seq<Round>, i: int) {
    && 0 <= i < |rounds| && rounds[i].Ran? && (forall j :: i < j < |rounds| ==> !rounds[j].Ran?)
    && |Records(rounds[..i])| < l.maxToolCalls
    && |Records(rounds)| < l.maxToolCalls + |rounds[i].batch.calls|
  }

  /** The tool budget is overrun by less than one batch, the last that ran. */
  lemma {:induction false} OverrunIsOneBatch(w: World, json: Json, names: seq<string>, l: Limits, rounds: seq<Round>)
    requires Log(w, json, names, l, rounds)
    ensures Records(rounds) == [] || exists i :: Overran(l, rounds, i)
  {
    if rounds != [] {
      hide Log, Asks, Replied, Runnable, Overran, Records, Through, Follows;
      var last := |rounds| - 1;
      LogShrinks(w, json, names, l, rounds);
      if rounds[last].Ran? {
        LastOverran(w, json, names, l, rounds);
      } else {
        OverrunIsOneBatch(w, json, names, l, rounds[..last]);
        NoRecordsMore(rounds);
        if Records(rounds) != [] {
          var i :| Overran(l, rounds[..last], i);
          StillOverran(l, rounds, i);
        }
      }
    }
  }

  lemma LastOverran(w: World, json: Json, names: seq<string>, l: Limits, rounds: seq<Round>)
    requires rounds != [] && Follows(w, json, names, l, rounds, |rounds| - 1) && rounds[|rounds| - 1].Ran?
    ensures Overran(l, rounds, |rounds| - 1)
  {
    hide Runnable, Replied, Through;
    var last := |rounds| - 1;
    BatchIsNoLonger(w, json, names, Polls(rounds[..last]) + 1, |Records(rounds[..last])|, rounds[last].batch);
  }

  lemma NoRecordsMore(rounds: seq<Round>)
    requires rounds != [] && !rounds[|rounds| - 1].Ran?
    ensures Records(rounds) == Records(rounds[..|rounds| - 1])
  {
  }

  lemma StillOverran(l: Limits, rounds: seq<Round>, i: int)
    requires rounds != [] && !rounds[|rounds| - 1].Ran? && Overran(l, rounds[..|rounds| - 1], i)
    ensures Overran(l, rounds, i)
  {
    NoRecordsMore(rounds);
    assert rounds[..|rounds| - 1][..i] == rounds[..i];
  }

  lemma BatchIsNoLonger(w: World, json: Json, names: seq<string>, polls: nat, ran0: nat, b: Batch)
    requires Through(w, json, names, polls, ran0, b)
    ensures |b.records| <= |b.results| <= |b.calls|
  {
    IncreasingIsShort(b.ran, |b.results|);
  }

  lemma {:induction false} IncreasingIsShort(ran: seq<nat>, n: nat)
    requires forall k, l :: 0 <= k < l < |ran| ==> ran[k] < ran[l]
    requires forall k :: 0 <= k < |ran| ==> ran[k] < n
    ensures |ran| <= n
  {
    if ran != [] {
      IncreasingIsShort(ran[..|ran| - 1], ran[|ran| - 1]);
    }
  }

  /** The size of a prompt at which a run stops, by window and output limit: below nothing when the output
      limit is two or more above the window, off when they are one apart or less. */
  lemma CompressAtSign(l: Limits)
    ensures CompressAt(l) < 0 <==> l.contextWindow != 0 && l.maxTokens >= l.contextWindow + 2
    ensures CompressAt(l) == 0 <==> l.contextWindow == 0 || -1 <= l.contextWindow - l.maxTokens <= 1
  {
  }

  /** A run whose first reply reports a prompt of `n` tokens ends there, for that, exactly when the output
      limit is two or more above the window, or `n` is half of what it leaves. */
  lemma EndsAtFirstReplyIff(w: World, json: Json, names: seq<string>, l: Limits, opening: seq<Message>,
                            rounds: seq<Round>, o: Outcome, n: nat)
    requires IsRun(w, json, names, l, opening, rounds, o)
    requires Asks(w, l, []) && !w.model(0).failed && w.model(0).promptTokens == Some(n)
    ensures rounds == [] && o.stop == ContextBound
            <==> && l.contextWindow != 0
                 && (|| l.maxTokens >= l.contextWindow + 2
                     || (l.contextWindow >= l.maxTokens + 2 && 2 * n + 1 >= l.contextWindow - l.maxTokens))
  {
    hide Fits, Asks, Concludes, Transcript, Closing, Final, AllRecords, AllSegments, CompressAt;
    OverContextIff(l, w.model(0), n);
    if rounds != [] { FirstReplied(w, json, names, l, rounds); }
    if rounds == [] && OverContext(l, w.model(0)) { StopsForContext(w, json, names, l, o.stop); }
  }

  lemma OverContextIff(l: Limits, t: Turn, n: nat)
    requires t.promptTokens == Some(n)
    ensures OverContext(l, t)
            <==> && l.contextWindow != 0
                 && (|| l.maxTokens >= l.contextWindow + 2
                     || (l.contextWindow >= l.maxTokens + 2 && 2 * n + 1 >= l.contextWindow - l.maxTokens))
  {
    CompressAtSign(l);
  }

  lemma FirstReplied(w: World, json: Json, names: seq<string>, l: Limits, rounds: seq<Round>)
    requires Log(w, json, names, l, rounds) && rounds != []
    ensures !OverContext(l, w.model(0))
  {
    assert Follows(w, json, names, l, rounds, 0);
  }

  lemma StopsForContext(w: World, json: Json, names: seq<string>, l: Limits, stop: Stop)
    requires Ends(w, json, names, l, [], stop) && Asks(w, l, [])
    requires !w.model(0).failed && OverContext(l, w.model(0))
    ensures stop == ContextBound
  {
  }

  const MAX_TOKENS := 65536

  /** The output limit the client asks a run for, by its window. */
  function ClientTokens(window: int): int {
    if window == 0 || window > 2 * MAX_TOKENS then MAX_TOKENS else window / 4
  }

  /** The client's own choice never puts the bound below nothing, and leaves it off only without a window. */
  lemma ClientKeepsTheBound(l: Limits)
    requires l.contextWindow >= 0 && l.maxTokens == ClientTokens(l.contextWindow)
    ensures CompressAt(l) >= 0 && (CompressAt(l) == 0 <==> l.contextWindow <= 1)
  {
    CompressAtSign(l);
  }

  // ----------------------------------------------------------------- how a run ends

  /** A run completes only at a reply without calls, and none that a nudge is still left for: four for text cut at
      the output limit, three for calls announced and not given, one for silence after tools, two for more work
      announced. What it gives is what that reply says. */
  lemma CompletedWhen(w: World, json: Json, names: seq<string>, l: Limits, opening: seq<Message>, rounds: seq<Round>,
                      o: Outcome)
    requires IsRun(w, json, names, l, opening, rounds, o) && o.stop.Completed?
    ensures var t := w.model(|rounds|); var said := w.clean(t.text);
            && t.calls == [] && !t.failed && o.final == said
            && o.messages == opening + Transcript(json, rounds) + [Assistant(said, [])]
            && (t.finish == Length ==> Count(rounds, KCutText) == 4)
            && (t.finish == ToolCalls ==> Count(rounds, KLostCalls) == 3)
            && (said == "" && Count(rounds, KRan) + Count(rounds, KRejected) > 0 ==> Count(rounds, KEmptied) == 1)
            && (names != [] && w.trailingIntent(said) ==> Count(rounds, KIntended) == 2)
  {
    hide Log, Transcript, Count, OverContext, AllRecords, AllSegments;
    RoundsAreCounted(w, json, names, l, rounds);
  }

  /** Calls cut at the output limit end a run only after four such replies were asked for again. */
  lemma TruncatedWhen(w: World, json: Json, names: seq<string>, l: Limits, opening: seq<Message>, rounds: seq<Round>,
                      o: Outcome)
    requires IsRun(w, json, names, l, opening, rounds, o) && o.stop.TruncatedCalls?
    ensures var t := w.model(|rounds|); t.finish == Length && t.calls != [] && Count(rounds, KCutCalls) == 4
  {
    hide Log, Transcript, Count, OverContext, AllRecords, AllSegments;
    RoundsAreCounted(w, json, names, l, rounds);
  }

  /** Calls cut at the output limit are dropped without a word; calls that cannot all be read are asked for again
      twice, and rejected one by one at the third; any others are run. */
  lemma CallsAreTaken(w: World, json: Json, names: seq<string>, l: Limits, rounds: seq<Round>, i: nat)
    requires Log(w, json, names, l, rounds) && i < |rounds| && w.model(i).calls != []
    ensures var t, r := w.model(i), rounds[i]; var readable := forall c :: c in t.calls ==> !IsInvalid(json, c);
            && (r.CutCalls? <==> t.finish == Length)
            && (r.Retried? <==> t.finish != Length && !readable && Retries(rounds[..i]) < 2)
            && (r.Rejected? <==> t.finish != Length && !readable && Retries(rounds[..i]) == 2)
            && (r.Ran? <==> t.finish != Length && readable)
            && (r.CutCalls? || r.Retried? ==> Said(json, r) == [])
            && (r.Rejected? ==> Said(json, r) == [Assistant(w.clean(t.text), Kept(t.calls))] + Rejections(json, t.calls))
            && (r.Ran? ==> Said(json, r) == [Assistant(w.clean(t.text), Kept(Firsts(json, t.calls)))] + r.batch.results)
  {
    hide Count, Retries, OverContext, Through, Rejections, Kept, Firsts, IsInvalid, Records, Polls;
    assert Follows(w, json, names, l, rounds, i);
    PrefixIsLog(w, json, names, l, rounds, i);
    RoundsAreCounted(w, json, names, l, rounds[..i]);
  }

  lemma PrefixIsLog(w: World, json: Json, names: seq<string>, l: Limits, rounds: seq<Round>, i: nat)
    requires Log(w, json, names, l, rounds) && i <= |rounds|
    ensures Log(w, json, names, l, rounds[..i])
  {
    hide Fits, Asks, Replied;
    forall k | 0 <= k < i ensures Follows(w, json, names, l, rounds[..i], k) {
      assert Follows(w, json, names, l, rounds, k) && rounds[..i][..k] == rounds[..k];
    }
  }

  /** A reply without calls that does not end the run is kept as it was said, or as "(empty)", and answered with a
      nudge: which one, what was said and how often it was nudged so before decide, in this order. */
  lemma WordsAreNudged(w: World, json: Json, names: seq<string>, l: Limits, rounds: seq<Round>, i: nat)
    requires Log(w, json, names, l, rounds) && i < |rounds| && w.model(i).calls == []
    ensures var t, r := w.model(i), rounds[i]; var said, before := w.clean(t.text), rounds[..i];
            var tools := Count(before, KRan) + Count(before, KRejected) > 0;
            && (r.CutText? <==> t.finish == Length && Count(before, KCutText) < 4)
            && (r.LostCalls? <==> t.finish == ToolCalls && Count(before, KLostCalls) < 3)
            && (r.Emptied? <==> !r.CutText? && !r.LostCalls? && said == "" && tools && Count(before, KEmptied) == 0)
            && (r.Intended? <==> !r.CutText? && !r.LostCalls? && !r.Emptied?)
            && (r.Intended? ==> names != [] && w.trailingIntent(said) && Count(before, KIntended) < 2)
            && Said(json, r) == [Assistant(if r.Emptied? then "(empty)" else said, []),
                                 User(if r.CutText? then LENGTH_CONTINUATION else if r.LostCalls? then DROPPED_CALL_NUDGE
                                      else if r.Emptied? then EMPTY_NUDGE else CONTINUE_NUDGE)]
  {
    hide Count, Retries, OverContext, Through, Records, Polls;
    assert Follows(w, json, names, l, rounds, i);
  }

  /** The last words: at a bound the model is asked once more, for a summary, and that is the answer; a run cut short
      in any other way adds nothing to the transcript. */
  lemma ClosesWith(w: World, json: Json, names: seq<string>, l: Limits, opening: seq<Message>, rounds: seq<Round>,
                   o: Outcome)
    requires IsRun(w, json, names, l, opening, rounds, o)
    ensures var n, so := |rounds|, opening + Transcript(json, rounds);
            var last := if o.stop.ContextBound? then n + 1 else n; var summary := w.clean(w.model(last).text);
            && (o.stop.IterationBound? || o.stop.ToolBudget? || o.stop.ContextBound? ==>
                  && o.final == summary && o.asked == last + 1
                  && o.messages == so + [User("summary request"), Assistant(summary, [])])
            && (o.stop.TruncatedCalls? || o.stop.Halted? || o.stop.ModelError? || o.stop.Cancelled? ==> o.messages == so)
            && (o.stop.TruncatedCalls? ==> o.final == "Response truncated")
            && (o.stop.Halted? ==> o.final == "I stopped retrying a tool")
            && (o.stop.ModelError? || o.stop.Cancelled? || o.stop.Raised? ==> o.final == "")
  {
    hide Log, Ends, Transcript, AllRecords, AllSegments;
  }

  /** The bounds end a run when they are reached, and not before. */
  lemma BoundedWhen(w: World, json: Json, names: seq<string>, l: Limits, opening: seq<Message>, rounds: seq<Round>,
                    o: Outcome)
    requires IsRun(w, json, names, l, opening, rounds, o)
    ensures o.stop.IterationBound? ==> |rounds| >= l.maxIterations
    ensures o.stop.ToolBudget? ==> |Records(rounds)| >= l.maxToolCalls
    ensures o.stop.Halted? ==> rounds != [] && rounds[|rounds| - 1].Ran? && rounds[|rounds| - 1].batch.halt
    ensures o.stop.ContextBound? ==> OverContext(l, w.model(|rounds|))
    ensures o.stop.ModelError? <==> o.stop != Cancelled && !o.stop.IterationBound? && !o.stop.ToolBudget? && !o.stop.Halted?
                                    && w.model(|rounds|).failed
  {
    hide Log, Transcript, Count, OverContext, AllRecords, AllSegments, Concludes, Closing, Final;
  }

  // ------------------------------------------------------ where a run is left by an error

  /** JSON as it is: nothing but blanks is no text, and "{}" is one. */
  ghost predicate Sane(json: Json) {
    json.compact("{}").Some? && forall s: string :: json.blank(s) ==> json.compact(s).None?
  }

  /** The check before a batch lets through exactly one kind of text that cannot be read: blanks only. */
  lemma OnlyBlanksSlipThrough(json: Json, c: Call)
    requires Sane(json)
    ensures !IsInvalid(json, c) && Unreadable(json, c) <==> c.arguments != "" && json.blank(c.arguments)
  {
  }

  /** The run read reply `i` and made something of it. */
  predicate WasRead(w: World, l: Limits, rounds: seq<Round>, i: nat) {
    i <= |rounds| && Asks(w, l, rounds[..i]) && Replied(l, w.model(i))
  }

  predicate HasBlank(json: Json, c: Call) {
    c.arguments != "" && json.blank(c.arguments)
  }

  /** Of the calls kept of reply `i`, one with blank arguments was not cancelled. */
  predicate BlankReached(w: World, json: Json, rounds: seq<Round>, i: nat)
    requires i <= |rounds|
  {
    && Runnable(json, w.model(i))
    && exists k :: 0 <= k < |Firsts(json, w.model(i).calls)|
         && !w.cancelled(Polls(rounds[..i]) + 1 + k) && HasBlank(json, Firsts(json, w.model(i).calls)[k])
  }

  /** A reply the run reads holds no invalid call and yet, uncancelled, one with blank arguments. */
  predicate ReachesBlank(w: World, json: Json, l: Limits, rounds: seq<Round>) {
    exists i :: 0 <= i <= |rounds| && WasRead(w, l, rounds, i) && BlankReached(w, json, rounds, i)
  }

  lemma KeptAreValid(json: Json, t: Turn, k: nat)
    requires Sane(json) && Runnable(json, t) && k < |Firsts(json, t.calls)|
    ensures Unreadable(json, Firsts(json, t.calls)[k]) <==> HasBlank(json, Firsts(json, t.calls)[k])
  {
    hide Firsts, Sane;
    FirstsAreCalls(json, t.calls);
    assert Firsts(json, t.calls)[k] in Firsts(json, t.calls);
    OnlyBlanksSlipThrough(json, Firsts(json, t.calls)[k]);
  }

  lemma AnswerIsTools(calls: seq<Call>, results: seq<Message>)
    requires Answer(calls, results)
    ensures forall i :: 0 <= i < |results| ==> results[i].Tool?
  {
  }

  lemma RanWasReadable(w: World, json: Json, names: seq<string>, polls: nat, ran0: nat, b: Batch, k: nat)
    requires Through(w, json, names, polls, ran0, b) && k < |b.results| && !w.cancelled(polls + k)
    ensures k < |b.calls| && !Unreadable(json, b.calls[k])
  {
    hide Unreadable, InOrder, HasEffect, Granted, Guarded, Executed;
    assert NotCancelled(w, polls, |b.results|, b.ran) && k in b.ran;
    var j :| 0 <= j < |b.ran| && b.ran[j] == k;
    assert b.results[b.ran[j]].Tool? by { AnswerIsTools(b.calls[..|b.results|], b.results); }
    assert RanAt(w, json, names, ran0, b, j);
  }

  /** Until a run ends, no reply it made a round of reached a blank. */
  lemma RoundsReachNoBlank(w: World, json: Json, names: seq<string>, l: Limits, rounds: seq<Round>, i: nat)
    requires Log(w, json, names, l, rounds) && i < |rounds| && Sane(json)
    ensures !BlankReached(w, json, rounds, i)
  {
    hide Sane, Firsts, Through, Unreadable, HasBlank, Asks, Replied;
    assert Follows(w, json, names, l, rounds, i);
    var calls := Firsts(json, w.model(i).calls);
    if BlankReached(w, json, rounds, i) {
      var k :| 0 <= k < |calls| && !w.cancelled(Polls(rounds[..i]) + 1 + k) && HasBlank(json, calls[k]);
      KeptAreValid(json, w.model(i), k);
      IsRanWhenRunnable(json, w, names, rounds[..i], w.model(i), rounds[i]);
      RanWasReadable(w, json, names, Polls(rounds[..i]) + 1, |Records(rounds[..i])|, rounds[i].batch, k);
    }
  }

  lemma IsRanWhenRunnable(json: Json, w: World, names: seq<string>, before: seq<Round>, t: Turn, r: Round)
    requires Fits(w, json, names, before, t, r) && Runnable(json, t)
    ensures r.Ran? && BatchOf(w, json, names, before, t, r.batch) && |r.batch.results| == |r.batch.calls|
  {
    hide BatchOf;
  }

  /** A run that ends at a reply it read and did not raise there reached no blank in it. */
  lemma EndReachesBlankIff(w: World, json: Json, names: seq<string>, l: Limits, rounds: seq<Round>, stop: Stop)
    requires Ends(w, json, names, l, rounds, stop) && Sane(json)
    ensures stop.Raised? <==> WasRead(w, l, rounds, |rounds|) && BlankReached(w, json, rounds, |rounds|)
  {
    hide Sane, Firsts, Through, Unreadable, HasBlank, Polls, Records, Count, Runnable;
    assert rounds[..|rounds|] == rounds;
    var t := w.model(|rounds|);
    if stop.Raised? {
      KeptAreValid(json, t, |stop.partial.results|);
    } else if Runnable(json, t) && WasRead(w, l, rounds, |rounds|) {
      EndsWithoutRunning(w, json, names, l, rounds, stop);
    }
  }

  lemma EndsWithoutRunning(w: World, json: Json, names: seq<string>, l: Limits, rounds: seq<Round>, stop: Stop)
    requires Ends(w, json, names, l, rounds, stop) && !stop.Raised?
    requires Asks(w, l, rounds) && Replied(l, w.model(|rounds|))
    ensures !Runnable(json, w.model(|rounds|))
  {
  }

  /** A run is left by an error exactly when a reply it reads, none of whose calls is invalid, keeps an
      uncancelled call with blank arguments. */
  lemma RaisesIffBlankReached(w: World, json: Json, names: seq<string>, l: Limits, opening: seq<Message>,
                              rounds: seq<Round>, o: Outcome)
    requires IsRun(w, json, names, l, opening, rounds, o) && Sane(json)
    ensures o.stop.Raised? <==> ReachesBlank(w, json, l, rounds)
  {
    hide *;
    RunIs(w, json, names, l, opening, rounds, o);
    EndReachesBlankIff(w, json, names, l, rounds, o.stop);
    forall i: nat | i < |rounds| ensures !BlankReached(w, json, rounds, i) {
      RoundsReachNoBlank(w, json, names, l, rounds, i);
    }
    ReachesBlankAt(w, json, l, rounds);
  }

  lemma RunIs(w: World, json: Json, names: seq<string>, l: Limits, opening: seq<Message>, rounds: seq<Round>, o: Outcome)
    requires IsRun(w, json, names, l, opening, rounds, o)
    ensures Log(w, json, names, l, rounds) && Ends(w, json, names, l, rounds, o.stop)
  {
    hide Log, Ends;
  }

  lemma ReachesBlankAt(w: World, json: Json, l: Limits, rounds: seq<Round>)
    requires forall i: nat :: i < |rounds| ==> !BlankReached(w, json, rounds, i)
    ensures ReachesBlank(w, json, l, rounds)
            <==> WasRead(w, l, rounds, |rounds|) && BlankReached(w, json, rounds, |rounds|)
  {
    hide WasRead, BlankReached;
  }

  /** After any run every assistant message is followed at once by the answers to exactly its calls, whatever
      was invalid, blocked or cancelled, unless a reply the run read, none of whose calls is invalid, keeps an
      uncancelled call with blank arguments; then, and only then, calls are left unanswered. */
  lemma TranscriptIsAnsweredIff(w: World, json: Json, names: seq<string>, l: Limits, opening: seq<Message>,
                                rounds: seq<Round>, o: Outcome)
    requires IsRun(w, json, names, l, opening, rounds, o) && Answered(opening) && Sane(json)
    ensures Answered(o.messages) <==> !ReachesBlank(w, json, l, rounds)
  {
    hide *;
    AnsweredUnlessRaised(w, json, names, l, opening, rounds, o);
    RaisesIffBlankReached(w, json, names, l, opening, rounds, o);
  }

  /** A first reply with one call, whose arguments are blank, is such a run, unless it was stopped before. */
  lemma OneBlankCallRaises(w: World, json: Json, names: seq<string>, l: Limits, opening: seq<Message>,
                           rounds: seq<Round>, o: Outcome, c: Call)
    requires IsRun(w, json, names, l, opening, rounds, o) && Answered(opening) && Sane(json)
    requires w.model(0).calls == [c] && w.model(0).finish != Length && HasBlank(json, c)
    requires Asks(w, l, []) && Replied(l, w.model(0)) && !w.cancelled(1)
    ensures o.stop.Raised? && !Answered(o.messages)
  {
    OneCallIsKept(json, c);
    hide IsRun, Answered, Asks, Replied, Firsts;
    OnlyBlanksSlipThrough(json, c);
    assert rounds[..0] == [];
    assert Polls([]) == 0;
    assert WasRead(w, l, rounds, 0);
    assert Runnable(json, w.model(0));
    assert BlankReached(w, json, rounds, 0) by { assert Firsts(json, [c])[0] == c; }
    assert ReachesBlank(w, json, l, rounds);
    RaisesIffBlankReached(w, json, names, l, opening, rounds, o);
    TranscriptIsAnsweredIff(w, json, names, l, opening, rounds, o);
  }

  lemma OneCallIsKept(json: Json, c: Call)
    ensures Firsts(json, [c]) == [c]
  {
  }
}
