/**
  Merging a user's store into the team's common one: what is decided of each
  record, what writing it does, and what one consolidation keeps.
 */
module Consolidation {
  import opened KnowledgeModel
  import opened KnowledgeRules

  // --------------------------------------------------------------- conflicts

  function TopicOf(lex: Lexicon, r: Record): (Kind, string) {
    (r.about.kind, lex.normalise(r.about.subject))
  }

  function Group(lex: Lexicon, rs: set<Record>, topic: (Kind, string)): set<Record> {
    set r | r in rs && r.Lifecycle().Active? && TopicOf(lex, r) == topic
  }

  /** Two records of a group say different things. */
  predicate Clash(lex: Lexicon, group: set<Record>) {
    exists a, b :: a in group && b in group && lex.words(a.claim.statement) != lex.words(b.claim.statement)
  }

  /** The groups of active records that disagree about one subject. */
  function Conflicts(lex: Lexicon, rs: set<Record>): set<set<Record>> {
    set r | r in rs && r.Lifecycle().Active? && Clash(lex, Group(lex, rs, TopicOf(lex, r)))
      :: Group(lex, rs, TopicOf(lex, r))
  }

  function Actives(t: Tables, ws: Workspace): set<Record> {
    set id | id in t.records && Holds(t, ws, id) && t.records[id].body.Lifecycle().Active? :: t.records[id].body
  }

  // ----------------------------------------------------------------- merging

  datatype Action = Added | Updated | RevokedInCommon | Unchanged | AlreadyCommon | Conflict | Skipped

  predicate Writes(a: Action) {
    a.Added? || a.Updated? || a.RevokedInCommon?
  }

  /** The user's history holds what the common store now says. */
  predicate Recognises(h: History, current: Record) {
    exists v :: v in h && SameBody(h[v], current)
  }

  /** A record the common store does not have: a new active fact, unless it repeats or contradicts one. */
  function MergeNew(lex: Lexicon, common: Tables, r: Record): Action {
    if !r.Lifecycle().Active? then Skipped
    else if HasDuplicate(lex, Store(common, EMPTY), r.Workspace(), r.about.kind, r.about.subject,
                         r.claim.statement, r.claim.sources) then AlreadyCommon
    else if exists g :: g in Conflicts(lex, Actives(common, r.Workspace()) + {r}) && r in g then Conflict
    else Added
  }

  /** A record the common store has: a change counts only if it was made knowing what common says now. */
  function MergeKnown(current: Record, mine: History, r: Record): Action {
    if SameBody(current, r) then Unchanged
    else if !Recognises(mine, current) then Conflict
    else if r.Lifecycle().Revoked? then RevokedInCommon
    else Updated
  }

  function MergeOne(lex: Lexicon, common: Tables, local: Tables, r: Record): Action {
    if r.Lifecycle().Proposed? || r.Lifecycle().Stale? then Skipped
    else if !Holds(common, r.Workspace(), r.Id()) then MergeNew(lex, common, r)
    else MergeKnown(common.records[r.Id()].body, HistoryOf(local, r.Id()), r)
  }

  /** Write one record of `local` over the common tables, existing version rows kept. */
  function ApplyOne(common: Tables, local: Tables, r: Record): Tables
    requires r.Id() in local.records
  {
    var id := r.Id();
    var ws := if id in common.records then common.records[id].workspace else r.Workspace();
    Tables(common.records[id := Row(ws, local.records[id].body)],
           common.versions[id := HistoryOf(local, id) + HistoryOf(common, id)])
  }

  datatype Outcome = Outcome(action: Action, record: Record)

  /** Every record named is the current row of the store it is merged from. */
  predicate FromStore(local: Tables, rs: seq<Record>) {
    forall i :: 0 <= i < |rs| ==> Holds(local, rs[i].Workspace(), rs[i].Id()) && local.records[rs[i].Id()].body == rs[i]
  }

  function Decide(lex: Lexicon, common: Tables, local: Tables, rs: seq<Record>): seq<Outcome> {
    seq(|rs|, i requires 0 <= i < |rs| => Outcome(MergeOne(lex, common, local, rs[i]), rs[i]))
  }

  predicate Named(local: Tables, outcomes: seq<Outcome>) {
    forall i :: 0 <= i < |outcomes| ==> outcomes[i].record.Id() in local.records
  }

  function Apply(common: Tables, local: Tables, outcomes: seq<Outcome>): Tables
    requires Named(local, outcomes)
    decreases |outcomes|
  {
    if outcomes == [] then common
    else
      var o := outcomes[0];
      Apply(if Writes(o.action) then ApplyOne(common, local, o.record) else common, local, outcomes[1..])
  }

  // ------------------------------------------------------- what a merge keeps

  ghost predicate Keeps(h: History, g: History) {
    forall v :: v in h ==> v in g && g[v] == h[v]
  }

  /** One table later in time: no version row changed or lost, no revocation undone. */
  ghost predicate Evolves(t: Tables, u: Tables) {
    forall id :: id in t.records ==> RecordEvolves(t, u, id)
  }

  ghost predicate RecordEvolves(t: Tables, u: Tables, id: RecordId)
    requires id in t.records
  {
    && id in u.records && u.records[id].workspace == t.records[id].workspace
    && t.records[id].body.version <= u.records[id].body.version
    && (t.records[id].body.Lifecycle().Revoked? ==> u.records[id].body.Lifecycle().Revoked?)
    && Keeps(HistoryOf(t, id), HistoryOf(u, id))
  }

  lemma EvolvesTransitively(t: Tables, u: Tables, w: Tables)
    requires Evolves(t, u) && Evolves(u, w)
    ensures Evolves(t, w)
  {
    forall id | id in t.records ensures RecordEvolves(t, w, id) {
      assert RecordEvolves(t, u, id) && RecordEvolves(u, w, id);
    }
  }

  /** Revocation is absorbing along a history. */
  lemma {:induction false} RevokedForGood(h: History, n: int, i: int, j: int)
    requires Chain(h, n) && 1 <= i <= j <= n && h[i].Lifecycle().Revoked?
    ensures h[j].Lifecycle().Revoked?
    decreases j - i
  {
    if i < j {
      assert LegalAt(h, i);
      StepKeepsIdentity(h[i], h[i + 1]);
      RevokedForGood(h, n, i + 1, j);
    }
  }

  /** A user's history that holds the common one's last version continues it: spliced where common's
      version k meets the user's k + 1, it is again a legal history. */
  lemma SpliceIsChain(hl: History, m: int, hc: History, k: int)
    requires Chain(hl, m) && Chain(hc, k)
    requires Recognises(hl, hc[k]) && !SameBody(hc[k], hl[m])
    ensures k < m && SameBody(hl[k], hc[k])
    ensures Chain(hl + hc, m) && (hl + hc)[m] == hl[m]
    ensures hc[k].Lifecycle().Revoked? ==> hl[m].Lifecycle().Revoked?
  {
    var v :| v in hl && SameBody(hl[v], hc[k]);
    assert v == k;
    var h := hl + hc;
    forall i {:trigger LegalAt(h, i)} | 1 <= i < m
      ensures LegalAt(h, i)
    {
      assert LegalAt(hl, i);
      if i < k {
        assert LegalAt(hc, i);
      } else if i == k {
        StepReadsBodies(hl[k], hc[k], hl[k + 1]);
      }
    }
    if hc[k].Lifecycle().Revoked? {
      RevokedForGood(hl, m, k, m);
    }
  }

  /** What makes it safe to write `local`'s record `id` over `common`. */
  ghost predicate Grafts(common: Tables, local: Tables, id: RecordId) {
    && id in local.records
    && (id in common.records ==>
          && !SameBody(common.records[id].body, local.records[id].body)
          && Recognises(HistoryOf(local, id), common.records[id].body))
  }

  /** The record has just been written: writing it again changes nothing. */
  ghost predicate Grafted(common: Tables, local: Tables, id: RecordId) {
    && id in local.records && id in common.records && common.records[id].body == local.records[id].body
    && HistoryOf(local, id).Keys <= HistoryOf(common, id).Keys
  }

  lemma GraftedRecord(row: Row, h: History, id: RecordId, mine: Row, hl: History)
    requires RecordOk(row, h, id) && RecordOk(mine, hl, id) && row.workspace == mine.workspace
    requires Recognises(hl, row.body) && !SameBody(row.body, mine.body)
    ensures row.body.version < mine.body.version
    ensures RecordOk(mine, hl + h, id)
    ensures row.body.Lifecycle().Revoked? ==> mine.body.Lifecycle().Revoked?
  {
    SpliceIsChain(hl, mine.body.version, h, row.body.version);
  }

  /** The grafted record alone: its row, its history, and what they owe the ones before. */
  lemma GraftedAlone(common: Tables, local: Tables, r: Record)
    requires Wf(common) && Wf(local) && Agree(common, local)
    requires r.Id() in local.records && local.records[r.Id()] == Row(r.Workspace(), r)
    requires Grafts(common, local, r.Id())
    ensures var id := r.Id();
            var row, h := local.records[id], HistoryOf(local, id) + HistoryOf(common, id);
            && RecordOk(row, h, id)
            && (id in common.records ==>
                  && common.records[id].workspace == row.workspace
                  && common.records[id].body.version <= row.body.version
                  && (common.records[id].body.Lifecycle().Revoked? ==> row.body.Lifecycle().Revoked?))
  {
    var id := r.Id();
    assert Sound(local, id);
    if id in common.records {
      assert Sound(common, id);
      GraftedRecord(common.records[id], common.versions[id], id, local.records[id], local.versions[id]);
    } else {
      assert id !in common.versions.Keys;
      assert HistoryOf(local, id) + HistoryOf(common, id) == HistoryOf(local, id);
    }
  }

  lemma AgainIsNothing(common: Tables, local: Tables, r: Record)
    requires Keyed(common) && Agree(common, local)
    requires r.Id() in local.records && local.records[r.Id()] == Row(r.Workspace(), r)
    requires Grafted(common, local, r.Id())
    ensures ApplyOne(common, local, r) == common
  {
    var id := r.Id();
    assert id in common.versions.Keys;
    assert HistoryOf(local, id) + HistoryOf(common, id) == HistoryOf(common, id);
  }

  /** Grafting a record keeps the common tables well formed, loses nothing, and undoes no revocation. */
  lemma GraftKeepsCommon(common: Tables, local: Tables, r: Record)
    requires Wf(common) && Wf(local) && Agree(common, local)
    requires r.Id() in local.records && local.records[r.Id()] == Row(r.Workspace(), r)
    requires Grafts(common, local, r.Id())
    ensures Wf(ApplyOne(common, local, r))
    ensures Evolves(common, ApplyOne(common, local, r))
  {
    var id, after := r.Id(), ApplyOne(common, local, r);
    GraftedAlone(common, local, r);
    assert after.records[id] == local.records[id];
    forall other ensures Sound(after, other) {
      assert Sound(common, other);
    }
    forall other | other in common.records ensures RecordEvolves(common, after, other) {
    }
  }

  lemma GraftedAfter(common: Tables, local: Tables, r: Record)
    requires Agree(common, local)
    requires r.Id() in local.records && local.records[r.Id()] == Row(r.Workspace(), r)
    ensures Grafted(ApplyOne(common, local, r), local, r.Id())
  {
  }

  /** An outcome that writes names a record safe to graft; one that updates is strictly newer. */
  lemma DecisionIsSafe(lex: Lexicon, common: Tables, local: Tables, r: Record)
    requires Wf(common) && Wf(local) && Agree(common, local)
    requires r.Id() in local.records && local.records[r.Id()] == Row(r.Workspace(), r)
    requires Writes(MergeOne(lex, common, local, r))
    ensures Grafts(common, local, r.Id())
    ensures !MergeOne(lex, common, local, r).Added? ==>
              r.Id() in common.records && common.records[r.Id()].body.version < r.version
    ensures MergeOne(lex, common, local, r).Added? <==> r.Id() !in common.records
  {
    var id := r.Id();
    assert Sound(local, id) && Sound(common, id);
    if id in common.records {
      GraftedRecord(common.records[id], common.versions[id], id, local.records[id], local.versions[id]);
    }
  }

  /** Every row of `w` sits in the workspace `t` or `u` gave it. */
  ghost predicate Between(t: Tables, u: Tables, w: Tables) {
    forall id :: id in w.records ==>
      || (id in t.records && t.records[id].workspace == w.records[id].workspace)
      || (id in u.records && u.records[id].workspace == w.records[id].workspace)
  }

  /** The outcomes' records are the local store's current rows. */
  ghost predicate Rows(local: Tables, outcomes: seq<Outcome>) {
    forall i :: 0 <= i < |outcomes| ==>
      var r := outcomes[i].record;
      r.Id() in local.records && local.records[r.Id()] == Row(r.Workspace(), r)
  }

  ghost predicate Pending(common: Tables, local: Tables, outcomes: seq<Outcome>) {
    forall i :: 0 <= i < |outcomes| && Writes(outcomes[i].action) ==>
      var id := outcomes[i].record.Id();
      Grafts(common, local, id) || Grafted(common, local, id)
  }

  lemma OneOutcome(common: Tables, local: Tables, r: Record)
    requires Wf(common) && Wf(local) && Agree(common, local)
    requires r.Id() in local.records && local.records[r.Id()] == Row(r.Workspace(), r)
    requires Grafts(common, local, r.Id()) || Grafted(common, local, r.Id())
    ensures var after := ApplyOne(common, local, r);
            Wf(after) && Evolves(common, after) && Between(common, local, after) && Agree(after, local)
  {
    if Grafts(common, local, r.Id()) {
      GraftKeepsCommon(common, local, r);
    } else {
      AgainIsNothing(common, local, r);
    }
  }

  /** Writing one record settles it, and leaves every other as pending, or as settled, as it was. */
  lemma OthersWait(common: Tables, local: Tables, r: Record, id: RecordId)
    requires Agree(common, local)
    requires r.Id() in local.records && local.records[r.Id()] == Row(r.Workspace(), r)
    ensures var after := ApplyOne(common, local, r);
            && (Grafted(common, local, id) ==> Grafted(after, local, id))
            && (Grafts(common, local, id) ==> Grafts(after, local, id) || Grafted(after, local, id))
  {
    GraftedAfter(common, local, r);
  }

  /** A whole batch, decided before any of it is written, keeps what each of its writes keeps. */
  lemma {:induction false} BatchKeepsCommon(common: Tables, local: Tables, outcomes: seq<Outcome>)
    requires Wf(common) && Wf(local) && Agree(common, local)
    requires Named(local, outcomes) && Rows(local, outcomes) && Pending(common, local, outcomes)
    ensures var after := Apply(common, local, outcomes);
            Wf(after) && Evolves(common, after) && Between(common, local, after)
    decreases |outcomes|
  {
    if outcomes != [] {
      var o, rest := outcomes[0], outcomes[1..];
      assert forall i :: 0 <= i < |rest| ==> rest[i] == outcomes[i + 1];
      if Writes(o.action) {
        var next := ApplyOne(common, local, o.record);
        OneOutcome(common, local, o.record);
        StillPending(common, local, o.record, rest);
        BatchKeepsCommon(next, local, rest);
        EvolvesTransitively(common, next, Apply(next, local, rest));
      } else {
        BatchKeepsCommon(common, local, rest);
      }
    }
  }

  lemma StillPending(common: Tables, local: Tables, r: Record, rest: seq<Outcome>)
    requires Agree(common, local) && Pending(common, local, rest)
    requires r.Id() in local.records && local.records[r.Id()] == Row(r.Workspace(), r)
    ensures Pending(ApplyOne(common, local, r), local, rest)
  {
    forall i | 0 <= i < |rest| && Writes(rest[i].action)
      ensures var id := rest[i].record.Id();
              Grafts(ApplyOne(common, local, r), local, id) || Grafted(ApplyOne(common, local, r), local, id)
    {
      OthersWait(common, local, r, rest[i].record.Id());
    }
  }

  /** What a batch has written, or found written, stands when it ends. */
  lemma {:induction false} BatchSettles(common: Tables, local: Tables, outcomes: seq<Outcome>, id: RecordId)
    requires Agree(common, local) && Named(local, outcomes) && Rows(local, outcomes)
    requires Grafted(common, local, id)
             || exists i :: 0 <= i < |outcomes| && Writes(outcomes[i].action) && outcomes[i].record.Id() == id
    ensures Grafted(Apply(common, local, outcomes), local, id)
    decreases |outcomes|
  {
    if outcomes != [] {
      var o, rest := outcomes[0], outcomes[1..];
      assert forall i :: 0 <= i < |rest| ==> rest[i] == outcomes[i + 1];
      if Writes(o.action) {
        OthersWait(common, local, o.record, id);
        GraftedAfter(common, local, o.record);
        BatchSettles(ApplyOne(common, local, o.record), local, rest, id);
      } else {
        BatchSettles(common, local, rest, id);
      }
    }
  }

  lemma DecidedIsPending(lex: Lexicon, common: Tables, local: Tables, rs: seq<Record>)
    requires Wf(common) && Wf(local) && Agree(common, local) && FromStore(local, rs)
    ensures var outcomes := Decide(lex, common, local, rs);
            Named(local, outcomes) && Rows(local, outcomes) && Pending(common, local, outcomes)
  {
    var outcomes := Decide(lex, common, local, rs);
    forall i | 0 <= i < |outcomes| && Writes(outcomes[i].action)
      ensures Grafts(common, local, outcomes[i].record.Id())
    {
      DecisionIsSafe(lex, common, local, rs[i]);
    }
  }

  /** One consolidation, decided and then applied. */
  function Consolidated(lex: Lexicon, common: Tables, local: Tables, rs: seq<Record>): Tables
    requires FromStore(local, rs)
  {
    Apply(common, local, Decide(lex, common, local, rs))
  }

  lemma ConsolidationKeepsCommon(lex: Lexicon, common: Tables, local: Tables, rs: seq<Record>)
    requires Wf(common) && Wf(local) && Agree(common, local) && FromStore(local, rs)
    ensures var after := Consolidated(lex, common, local, rs);
            Wf(after) && Evolves(common, after) && Between(common, local, after)
  {
    DecidedIsPending(lex, common, local, rs);
    BatchKeepsCommon(common, local, Decide(lex, common, local, rs));
  }

  /** Deciding again finds every record the first pass wrote unchanged in common. */
  lemma DecidingAgainIsUnchanged(lex: Lexicon, common: Tables, local: Tables, rs: seq<Record>, i: int)
    requires Wf(common) && Wf(local) && Agree(common, local) && FromStore(local, rs)
    requires 0 <= i < |rs| && Writes(MergeOne(lex, common, local, rs[i]))
    ensures MergeOne(lex, Consolidated(lex, common, local, rs), local, rs[i]) == Unchanged
  {
    var outcomes := Decide(lex, common, local, rs);
    ConsolidationKeepsCommon(lex, common, local, rs);
    assert outcomes[i].record == rs[i];
    BatchSettles(common, local, outcomes, rs[i].Id());
  }
}
