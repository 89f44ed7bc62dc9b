/**
  Which changes of a user reach the team: said of the two stores before a
  consolidation and the common one after it, and of nothing the merge decides.
 */
module MergeReach {
  import opened Consolidation
  import opened KnowledgeModel
  import opened KnowledgeRules
  import opened MergeConflicts
  import opened Wrappers

  // --------------------------------------------------------- said of the stores alone

  /** Settled by its user: accepted or revoked, and neither waiting nor out of step with a tree. */
  predicate IsSettled(r: Record) {
    r.Lifecycle().Active? || r.Lifecycle().Revoked?
  }

  /** The user's history holds, at some version, what the common store says of the record now. */
  ghost predicate KnewCommon(common: Tables, local: Tables, id: RecordId)
    requires id in common.records
  {
    exists v :: v in HistoryOf(local, id) && SameBody(HistoryOf(local, id)[v], common.records[id].body)
  }

  /** Some record of the common workspace, proposed or active, says what `r` says, on the same sources. */
  ghost predicate SaidInCommon(lex: Lexicon, common: Tables, r: Record) {
    exists id :: Holds(common, r.Workspace(), id) && SaysAs(lex, common.records[id].body, r)
  }

  ghost predicate SaysAs(lex: Lexicon, x: Record, r: Record) {
    && (x.Lifecycle().Active? || x.Lifecycle().Proposed?)
    && x.about.kind == r.about.kind && lex.words(x.about.subject) == lex.words(r.about.subject)
    && lex.words(x.claim.statement) == lex.words(r.claim.statement)
    && Bindings(x.claim.sources) == Bindings(r.claim.sources)
  }

  /** Some active record of the common workspace says otherwise of the same subject. */
  ghost predicate DeniedInCommon(lex: Lexicon, common: Tables, r: Record) {
    exists id :: Holds(common, r.Workspace(), id) && Denies(lex, common.records[id].body, r)
  }

  ghost predicate Denies(lex: Lexicon, x: Record, r: Record) {
    && x.Lifecycle().Active? && x.about.kind == r.about.kind
    && lex.normalise(x.about.subject) == lex.normalise(r.about.subject)
    && lex.words(x.claim.statement) != lex.words(r.claim.statement)
  }

  // ------------------------------------------------------------- what is not written stays

  lemma {:induction false} UnwrittenStays(common: Tables, local: Tables, outcomes: seq<Outcome>, id: RecordId)
    requires Named(local, outcomes)
    requires forall i :: 0 <= i < |outcomes| && outcomes[i].record.Id() == id ==> !Writes(outcomes[i].action)
    ensures var after := Apply(common, local, outcomes);
            && (id in after.records <==> id in common.records)
            && (id in common.records ==> after.records[id] == common.records[id])
            && HistoryOf(after, id) == HistoryOf(common, id)
    decreases |outcomes|
  {
    if outcomes != [] {
      var o, rest := outcomes[0], outcomes[1..];
      assert forall i :: 0 <= i < |rest| ==> rest[i] == outcomes[i + 1];
      UnwrittenStays(if Writes(o.action) then ApplyOne(common, local, o.record) else common, local, rest, id);
    }
  }

  /** A record no outcome names is not touched, whatever becomes of the others. */
  lemma OthersAreUntouched(lex: Lexicon, common: Tables, local: Tables, rs: seq<Record>, id: RecordId)
    requires FromStore(local, rs) && Wf(local) && forall i :: 0 <= i < |rs| ==> rs[i].Id() != id
    ensures var after := Consolidated(lex, common, local, rs);
            && (id in after.records <==> id in common.records)
            && (id in common.records ==> after.records[id] == common.records[id])
            && HistoryOf(after, id) == HistoryOf(common, id)
  {
    hide MergeOne;
    UnwrittenStays(common, local, Decide(lex, common, local, rs), id);
  }

  lemma OneDecides(lex: Lexicon, common: Tables, local: Tables, rs: seq<Record>, i: nat)
    requires Wf(common) && Wf(local) && Agree(common, local) && FromStore(local, rs) && i < |rs|
    ensures var id, after := rs[i].Id(), Consolidated(lex, common, local, rs);
            if Writes(MergeOne(lex, common, local, rs[i])) then
              id in after.records && after.records[id].body == rs[i]
            else
              && (id in after.records <==> id in common.records)
              && (id in common.records ==> after.records[id] == common.records[id])
  {
    hide MergeOne, Apply, Wf, Grafts;
    var outcomes := Decide(lex, common, local, rs);
    var id := rs[i].Id();
    DecidedIsPending(lex, common, local, rs);
    assert outcomes[i].record == rs[i];
    if Writes(MergeOne(lex, common, local, rs[i])) {
      BatchSettles(common, local, outcomes, id);
    } else {
      forall j | 0 <= j < |outcomes| && outcomes[j].record.Id() == id ensures !Writes(outcomes[j].action) {
        assert outcomes[j].record == rs[j] == local.records[id].body;
      }
      UnwrittenStays(common, local, outcomes, id);
    }
  }

  // -------------------------------------------------------------------- what gets through

  lemma KnownWritesIff(lex: Lexicon, common: Tables, local: Tables, r: Record)
    requires Wf(common) && Wf(local) && Agree(common, local)
    requires r.Id() in local.records && local.records[r.Id()] == Row(r.Workspace(), r) && r.Id() in common.records
    ensures Writes(MergeOne(lex, common, local, r))
            <==> IsSettled(r) && KnewCommon(common, local, r.Id()) && !SameBody(common.records[r.Id()].body, r)
  {
    assert Holds(common, r.Workspace(), r.Id());
  }

  /** Of a record the common store has: afterwards it says what the user says exactly when it did, or the user
      accepted or revoked knowing what it said. Else it says what it said. */
  lemma KnownComesThroughIff(lex: Lexicon, common: Tables, local: Tables, rs: seq<Record>, r: Record)
    requires Wf(common) && Wf(local) && Agree(common, local) && FromStore(local, rs)
    requires r in rs && r.Id() in common.records
    ensures var id, after := r.Id(), Consolidated(lex, common, local, rs);
            && id in after.records
            && (SameBody(after.records[id].body, r)
                <==> SameBody(common.records[id].body, r) || (IsSettled(r) && KnewCommon(common, local, id)))
            && (!SameBody(after.records[id].body, r) ==> after.records[id] == common.records[id])
  {
    var i :| 0 <= i < |rs| && rs[i] == r;
    OneDecides(lex, common, local, rs, i);
    AgreedRow(common, local, rs, i);
    KnownWritesIff(lex, common, local, r);
  }

  lemma AgreedRow(common: Tables, local: Tables, rs: seq<Record>, i: nat)
    requires FromStore(local, rs) && i < |rs|
    ensures rs[i].Id() in local.records && local.records[rs[i].Id()] == Row(rs[i].Workspace(), rs[i])
  {
  }

  lemma SaidIsDuplicate(lex: Lexicon, common: Tables, r: Record)
    requires Wf(common)
    ensures HasDuplicate(lex, Store(common, EMPTY), r.Workspace(), r.about.kind, r.about.subject, r.claim.statement,
                         r.claim.sources)
            <==> SaidInCommon(lex, common, r)
  {
    var s, ws := Store(common, EMPTY), r.Workspace();
    forall id | Holds(common, ws, id)
      ensures id in View(s, ws) && View(s, ws)[id] == common.records[id].body && common.records[id].body.Id() == id
      ensures Get(s, ws, id) == Some(common.records[id].body)
    {
      assert Sound(common, id);
    }
    if SaidInCommon(lex, common, r) {
      var id :| Holds(common, ws, id) && SaysAs(lex, common.records[id].body, r);
      assert IsDuplicate(lex, s, ws, View(s, ws)[id], r.about.kind, r.about.subject, r.claim.statement, r.claim.sources);
    }
    if HasDuplicate(lex, s, ws, r.about.kind, r.about.subject, r.claim.statement, r.claim.sources) {
      var id :| id in View(s, ws)
        && IsDuplicate(lex, s, ws, View(s, ws)[id], r.about.kind, r.about.subject, r.claim.statement, r.claim.sources);
      assert Holds(common, ws, id) && SaysAs(lex, common.records[id].body, r);
    }
  }

  lemma DeniedIsConflict(lex: Lexicon, common: Tables, r: Record)
    requires r.Lifecycle().Active?
    ensures (exists g :: g in Conflicts(lex, Actives(common, r.Workspace()) + {r}) && r in g)
            <==> DeniedInCommon(lex, common, r)
  {
    hide Conflicts;
    var ws, rs := r.Workspace(), Actives(common, r.Workspace()) + {r};
    InConflictIff(lex, rs, r);
    if x :| x in rs && x.Lifecycle().Active? && Contradict(lex, r, x) {
      var id :| id in common.records && Holds(common, ws, id) && common.records[id].body == x;
      assert Denies(lex, common.records[id].body, r);
    }
    if DeniedInCommon(lex, common, r) {
      var id :| Holds(common, ws, id) && Denies(lex, common.records[id].body, r);
      assert common.records[id].body in rs && Contradict(lex, r, common.records[id].body);
    }
    assert InConflict(lex, rs, r) <==> exists g :: g in Conflicts(lex, rs) && r in g;
  }

  /** Of a record the common store does not have: it is there afterwards exactly when the user holds it active
      and no common record already says it or denies it. */
  lemma NewComesThroughIff(lex: Lexicon, common: Tables, local: Tables, rs: seq<Record>, r: Record)
    requires Wf(common) && Wf(local) && Agree(common, local) && FromStore(local, rs)
    requires r in rs && r.Id() !in common.records
    ensures var id, after := r.Id(), Consolidated(lex, common, local, rs);
            && (id in after.records
                <==> r.Lifecycle().Active? && !SaidInCommon(lex, common, r) && !DeniedInCommon(lex, common, r))
            && (id in after.records ==> after.records[id].body == r)
  {
    hide Conflicts, HasDuplicate, Consolidated, SaidInCommon, DeniedInCommon;
    var i :| 0 <= i < |rs| && rs[i] == r;
    OneDecides(lex, common, local, rs, i);
    SaidIsDuplicate(lex, common, r);
    if r.Lifecycle().Active? { DeniedIsConflict(lex, common, r); }
  }

  /** What each answer says of the two stores. */
  lemma AnswersMean(lex: Lexicon, common: Tables, local: Tables, r: Record)
    requires Wf(common) && Wf(local) && Agree(common, local)
    requires r.Id() in local.records && local.records[r.Id()] == Row(r.Workspace(), r)
    ensures var id, answer, known := r.Id(), MergeOne(lex, common, local, r), r.Id() in common.records;
            && (answer.Skipped? <==> !IsSettled(r) || (r.Lifecycle().Revoked? && !known))
            && (answer.Unchanged? <==> IsSettled(r) && known && SameBody(common.records[id].body, r))
            && (answer.RevokedInCommon? <==> && r.Lifecycle().Revoked? && known && KnewCommon(common, local, id)
                                             && !SameBody(common.records[id].body, r))
            && (answer.Updated? <==> && r.Lifecycle().Active? && known && KnewCommon(common, local, id)
                                     && !SameBody(common.records[id].body, r))
            && (answer.AlreadyCommon? <==> r.Lifecycle().Active? && !known && SaidInCommon(lex, common, r))
            && (answer.Conflict? <==>
                  if known then IsSettled(r) && !SameBody(common.records[id].body, r) && !KnewCommon(common, local, id)
                  else r.Lifecycle().Active? && !SaidInCommon(lex, common, r) && DeniedInCommon(lex, common, r))
  {
    hide Conflicts, HasDuplicate, SaidInCommon, DeniedInCommon;
    SaidIsDuplicate(lex, common, r);
    if r.Lifecycle().Active? { DeniedIsConflict(lex, common, r); }
    assert r.Id() in common.records ==> Holds(common, r.Workspace(), r.Id());
  }

  /** So a revocation of what the team still says as the user knew it reaches the team. */
  lemma RevocationsReachTheTeam(lex: Lexicon, common: Tables, local: Tables, rs: seq<Record>, r: Record)
    requires Wf(common) && Wf(local) && Agree(common, local) && FromStore(local, rs)
    requires r in rs && r.Id() in common.records && r.Lifecycle().Revoked? && KnewCommon(common, local, r.Id())
    ensures var after := Consolidated(lex, common, local, rs);
            r.Id() in after.records && after.records[r.Id()].body.Lifecycle().Revoked?
  {
    hide Consolidated, KnewCommon;
    KnownComesThroughIff(lex, common, local, rs, r);
  }
}
