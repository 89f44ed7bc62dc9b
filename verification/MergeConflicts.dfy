/**
  What a consolidation does to the common store's contradictions: which the
  additions and updates it writes bring, and which they cannot.
 */
module MergeConflicts {
  import opened Consolidation
  import opened KnowledgeModel
  import opened KnowledgeRules

  /** Two records make different claims about one subject. */
  predicate Contradict(lex: Lexicon, a: Record, b: Record) {
    TopicOf(lex, a) == TopicOf(lex, b) && lex.words(a.claim.statement) != lex.words(b.claim.statement)
  }

  /** The record is in a group that disagrees. */
  ghost predicate InConflict(lex: Lexicon, rs: set<Record>, r: Record) {
    exists g :: g in Conflicts(lex, rs) && r in g
  }

  /** A record is in a disagreeing group exactly when some active record contradicts it. */
  lemma InConflictIff(lex: Lexicon, rs: set<Record>, r: Record)
    requires r in rs && r.Lifecycle().Active?
    ensures InConflict(lex, rs, r) <==> exists x :: x in rs && x.Lifecycle().Active? && Contradict(lex, r, x)
  {
    var mine := Group(lex, rs, TopicOf(lex, r));
    assert r in mine;
    if InConflict(lex, rs, r) {
      var g :| g in Conflicts(lex, rs) && r in g;
      var a, b :| a in g && b in g && lex.words(a.claim.statement) != lex.words(b.claim.statement);
      assert Contradict(lex, r, a) || Contradict(lex, r, b);
    }
    if x :| x in rs && x.Lifecycle().Active? && Contradict(lex, r, x) {
      assert x in mine && Clash(lex, mine) && mine in Conflicts(lex, rs);
    }
  }

  // ----------------------------------------------------------- one record written

  lemma AddedGroups(lex: Lexicon, rs: set<Record>, r: Record, other: Record)
    requires r.Lifecycle().Active? && other in rs && other.Lifecycle().Active?
    ensures TopicOf(lex, other) != TopicOf(lex, r)
            ==> Group(lex, rs + {r}, TopicOf(lex, other)) == Group(lex, rs, TopicOf(lex, other))
    ensures Group(lex, rs, TopicOf(lex, other)) <= Group(lex, rs + {r}, TopicOf(lex, other))
  {
  }

  /** A record in no group that disagrees adds none, whatever the others say among themselves. */
  lemma AgreeingAddsNoConflict(lex: Lexicon, rs: set<Record>, r: Record)
    requires r.Lifecycle().Active?
    requires !exists g :: g in Conflicts(lex, rs + {r}) && r in g
    ensures Conflicts(lex, rs + {r}) == Conflicts(lex, rs)
  {
    var topic := TopicOf(lex, r);
    var mine := Group(lex, rs + {r}, topic);
    assert r in rs + {r} && r in mine;
    assert Clash(lex, mine) ==> mine in Conflicts(lex, rs + {r});
    forall other | other in rs && other.Lifecycle().Active?
      ensures Clash(lex, Group(lex, rs, TopicOf(lex, other))) <==> Clash(lex, Group(lex, rs + {r}, TopicOf(lex, other)))
      ensures TopicOf(lex, other) != topic
              ==> Group(lex, rs, TopicOf(lex, other)) == Group(lex, rs + {r}, TopicOf(lex, other))
    {
      AddedGroups(lex, rs, r, other);
      assert Clash(lex, Group(lex, rs, TopicOf(lex, other))) ==> Clash(lex, Group(lex, rs + {r}, TopicOf(lex, other)));
    }
  }

  lemma AddedIsOneMore(common: Tables, local: Tables, r: Record, ws: Workspace)
    requires r.Id() in local.records && local.records[r.Id()] == Row(r.Workspace(), r)
    requires r.Id() !in common.records && r.Lifecycle().Active?
    ensures Actives(ApplyOne(common, local, r), ws)
            == Actives(common, ws) + (if ws == r.Workspace() then {r} else {})
  {
    var after := ApplyOne(common, local, r);
    forall x | x in Actives(common, ws) ensures x in Actives(after, ws) {
      var id :| id in common.records && Holds(common, ws, id) && common.records[id].body == x;
      assert id != r.Id() && after.records[id] == common.records[id];
      assert Holds(after, ws, id) && after.records[id].body == x;
    }
    if ws == r.Workspace() {
      assert Holds(after, ws, r.Id());
    }
  }

  /** Writing one added record leaves every workspace of the common store with the conflicts it had. */
  lemma AddingNeverContradicts(lex: Lexicon, common: Tables, local: Tables, r: Record, ws: Workspace)
    requires Wf(common) && Wf(local) && Agree(common, local)
    requires r.Id() in local.records && local.records[r.Id()] == Row(r.Workspace(), r)
    requires MergeOne(lex, common, local, r).Added?
    ensures Conflicts(lex, Actives(ApplyOne(common, local, r), ws)) == Conflicts(lex, Actives(common, ws))
  {
    DecisionIsSafe(lex, common, local, r);
    AddedIsOneMore(common, local, r, ws);
    if ws == r.Workspace() {
      AgreeingAddsNoConflict(lex, Actives(common, ws), r);
    } else {
      assert Actives(common, ws) + {} == Actives(common, ws);
    }
  }

  /** The active records of a workspace but one. */
  function OtherActives(t: Tables, ws: Workspace, id: RecordId): set<Record> {
    set x | x in Actives(t, ws) && x.Id() != id
  }

  lemma ActivesAfterOne(common: Tables, local: Tables, r: Record, ws: Workspace)
    requires Wf(common) && Agree(common, local) && ws == r.Workspace()
    requires r.Id() in local.records && local.records[r.Id()] == Row(r.Workspace(), r)
    ensures Actives(ApplyOne(common, local, r), ws)
            == OtherActives(common, ws, r.Id()) + if r.Lifecycle().Active? then {r} else {}
  {
    var after := ApplyOne(common, local, r);
    assert after.records[r.Id()] == Row(ws, r);
    forall id | id in common.records ensures common.records[id].body.Id() == id {
      assert Sound(common, id);
    }
    forall x | x in OtherActives(common, ws, r.Id()) ensures x in Actives(after, ws) {
      assert Holds(after, ws, x.Id()) && after.records[x.Id()].body == x;
    }
    if r.Lifecycle().Active? { assert Holds(after, ws, r.Id()); }
  }

  /** An update is compared with nothing but its own history. It brings no contradiction exactly when no
      other active record of the common workspace contradicts it. */
  lemma UpdateIsSafeIff(lex: Lexicon, common: Tables, local: Tables, r: Record)
    requires Wf(common) && Wf(local) && Agree(common, local)
    requires r.Id() in local.records && local.records[r.Id()] == Row(r.Workspace(), r)
    requires MergeOne(lex, common, local, r).Updated?
    ensures var ws := r.Workspace();
            InConflict(lex, Actives(ApplyOne(common, local, r), ws), r)
            <==> exists x :: x in OtherActives(common, ws, r.Id()) && Contradict(lex, r, x)
  {
    ActivesAfterOne(common, local, r, r.Workspace());
    InConflictIff(lex, Actives(ApplyOne(common, local, r), r.Workspace()), r);
  }

  // -------------------------------------------------------------- a whole batch

  function WrittenIn(outcomes: seq<Outcome>, ws: Workspace): set<Record> {
    set i | 0 <= i < |outcomes| && Writes(outcomes[i].action) && outcomes[i].record.Workspace() == ws
      :: outcomes[i].record
  }

  function WrittenIds(outcomes: seq<Outcome>): set<RecordId> {
    set i | 0 <= i < |outcomes| && Writes(outcomes[i].action) :: outcomes[i].record.Id()
  }

  /** The common active records of a workspace that a batch does not write over. */
  function LeftIn(common: Tables, outcomes: seq<Outcome>, ws: Workspace): set<Record> {
    set x | x in Actives(common, ws) && x.Id() !in WrittenIds(outcomes)
  }

  lemma FirstId(outcomes: seq<Outcome>)
    requires outcomes != []
    ensures WrittenIds(outcomes)
            == (if Writes(outcomes[0].action) then {outcomes[0].record.Id()} else {}) + WrittenIds(outcomes[1..])
  {
    var rest := outcomes[1..];
    forall id | id in WrittenIds(rest) ensures id in WrittenIds(outcomes) {
      var i :| 0 <= i < |rest| && Writes(rest[i].action) && rest[i].record.Id() == id;
      assert outcomes[i + 1].record.Id() == id;
    }
    forall id | id in WrittenIds(outcomes)
      ensures id in WrittenIds(rest) || (Writes(outcomes[0].action) && id == outcomes[0].record.Id())
    {
      var i :| 0 <= i < |outcomes| && Writes(outcomes[i].action) && outcomes[i].record.Id() == id;
      if i > 0 { assert rest[i - 1].record.Id() == id; }
    }
  }

  /** After a batch the rows written are the user's, and every other is what it was. */
  lemma {:induction false} RowsAfter(common: Tables, local: Tables, outcomes: seq<Outcome>, id: RecordId)
    requires Agree(common, local) && Named(local, outcomes) && Rows(local, outcomes)
    requires id in WrittenIds(outcomes) || (id in common.records && id in local.records && common.records[id] == local.records[id])
    ensures var after := Apply(common, local, outcomes);
            id in after.records && id in local.records && after.records[id] == local.records[id]
    decreases |outcomes|
  {
    if outcomes != [] {
      hide WrittenIds;
      FirstId(outcomes);
      var o, rest := outcomes[0], outcomes[1..];
      assert forall i :: 0 <= i < |rest| ==> rest[i] == outcomes[i + 1];
      RowsAfter(if Writes(o.action) then ApplyOne(common, local, o.record) else common, local, rest, id);
    }
  }

  lemma {:induction false} OtherRowsAfter(common: Tables, local: Tables, outcomes: seq<Outcome>, id: RecordId)
    requires Named(local, outcomes) && id !in WrittenIds(outcomes)
    ensures var after := Apply(common, local, outcomes);
            (id in after.records <==> id in common.records)
            && (id in common.records ==> after.records[id] == common.records[id])
    decreases |outcomes|
  {
    if outcomes != [] {
      hide WrittenIds;
      FirstId(outcomes);
      var o, rest := outcomes[0], outcomes[1..];
      assert forall i :: 0 <= i < |rest| ==> rest[i] == outcomes[i + 1];
      OtherRowsAfter(if Writes(o.action) then ApplyOne(common, local, o.record) else common, local, rest, id);
    }
  }

  function ActiveOf(rs: set<Record>): set<Record> {
    set r | r in rs && r.Lifecycle().Active?
  }

  /** After a batch the active records of a workspace are the active ones written there and those left. */
  lemma ActivesAfter(common: Tables, local: Tables, outcomes: seq<Outcome>, ws: Workspace)
    requires Wf(common) && Agree(common, local) && Named(local, outcomes) && Rows(local, outcomes)
    ensures Actives(Apply(common, local, outcomes), ws)
            == ActiveOf(WrittenIn(outcomes, ws)) + LeftIn(common, outcomes, ws)
  {
    hide Apply, Wf;
    var after := Apply(common, local, outcomes);
    forall x | x in Actives(after, ws) ensures x in ActiveOf(WrittenIn(outcomes, ws)) + LeftIn(common, outcomes, ws) {
      var id :| id in after.records && Holds(after, ws, id) && after.records[id].body == x;
      if id in WrittenIds(outcomes) {
        RowsAfter(common, local, outcomes, id);
        var i :| 0 <= i < |outcomes| && Writes(outcomes[i].action) && outcomes[i].record.Id() == id;
        assert outcomes[i].record == x;
      } else {
        OtherRowsAfter(common, local, outcomes, id);
        BodiesAreNamed(common, id);
        assert Holds(common, ws, id);
      }
    }
    forall x | x in ActiveOf(WrittenIn(outcomes, ws)) ensures x in Actives(after, ws) {
      var i :| 0 <= i < |outcomes| && Writes(outcomes[i].action) && outcomes[i].record == x;
      RowsAfter(common, local, outcomes, x.Id());
      assert Holds(after, ws, x.Id());
    }
    forall x | x in LeftIn(common, outcomes, ws) ensures x in Actives(after, ws) {
      var id :| id in common.records && Holds(common, ws, id) && common.records[id].body == x;
      BodiesAreNamed(common, id);
      OtherRowsAfter(common, local, outcomes, id);
      assert Holds(after, ws, id);
    }
  }

  lemma BodiesAreNamed(t: Tables, id: RecordId)
    requires Wf(t) && id in t.records
    ensures t.records[id].body.Id() == id && t.records[id].body.Workspace() == t.records[id].workspace
  {
    assert Sound(t, id);
  }

  /** Two of the records written contradict each other. */
  ghost predicate DisagreeAmongThemselves(lex: Lexicon, written: set<Record>) {
    exists a, b :: a in ActiveOf(written) && b in ActiveOf(written) && Contradict(lex, a, b)
  }

  /** An update written contradicts an active record left as it was. */
  ghost predicate DisagreeWithTheRest(lex: Lexicon, common: Tables, local: Tables, written: set<Record>, left: set<Record>) {
    exists a, b :: a in written && MergeOne(lex, common, local, a).Updated? && b in left && Contradict(lex, a, b)
  }

  /** Whatever mix of additions, updates and revocations a consolidation writes: a record it wrote in a
      workspace ends in a disagreeing group exactly when two active ones it wrote there contradict each
      other, or an update it wrote contradicts an active record it left. Additions need no comparing with
      what is left: that was done. */
  lemma ConsolidationIsSafeIff(lex: Lexicon, common: Tables, local: Tables, rs: seq<Record>, ws: Workspace)
    requires Wf(common) && Wf(local) && Agree(common, local) && FromStore(local, rs)
    ensures var outcomes := Decide(lex, common, local, rs);
            var written, left := WrittenIn(outcomes, ws), LeftIn(common, outcomes, ws);
            var after := Actives(Consolidated(lex, common, local, rs), ws);
            (exists r :: r in written && InConflict(lex, after, r))
            <==> DisagreeAmongThemselves(lex, written) || DisagreeWithTheRest(lex, common, local, written, left)
  {
    var outcomes := Decide(lex, common, local, rs);
    var written, left := WrittenIn(outcomes, ws), LeftIn(common, outcomes, ws);
    var after := Actives(Consolidated(lex, common, local, rs), ws);
    DecidedIsPending(lex, common, local, rs);
    ActivesAfter(common, local, outcomes, ws);
    hide Apply, Consolidated, Conflicts, WrittenIn, LeftIn, Actives, Wf, Rows, Pending, InConflict, Decide;
    forall r | r in written
      ensures InConflict(lex, after, r)
              <==> r.Lifecycle().Active? && exists x :: x in after && x.Lifecycle().Active? && Contradict(lex, r, x)
      ensures r.Lifecycle().Active? ==> MergeOne(lex, common, local, r).Added? || MergeOne(lex, common, local, r).Updated?
      ensures MergeOne(lex, common, local, r).Updated? ==> r.Lifecycle().Active?
      ensures MergeOne(lex, common, local, r).Added? ==> forall x :: x in left ==> !Contradict(lex, r, x)
    {
      WrittenIsDecided(lex, common, local, rs, ws, r);
      if r.Lifecycle().Active? { InConflictIff(lex, after, r); } else { OnlyActivesConflict(lex, after, r); }
      if MergeOne(lex, common, local, r).Added? { AddedAgreesWithLeft(lex, common, local, outcomes, r, ws); }
    }
    LeftIsActive(common, outcomes, ws);
  }

  lemma LeftIsActive(common: Tables, outcomes: seq<Outcome>, ws: Workspace)
    ensures forall x :: x in LeftIn(common, outcomes, ws) ==> x in Actives(common, ws) && x.Lifecycle().Active?
  {
  }

  lemma OnlyActivesConflict(lex: Lexicon, rs: set<Record>, r: Record)
    requires !r.Lifecycle().Active?
    ensures !InConflict(lex, rs, r)
  {
  }

  lemma WrittenIsDecided(lex: Lexicon, common: Tables, local: Tables, rs: seq<Record>, ws: Workspace, r: Record)
    requires FromStore(local, rs) && r in WrittenIn(Decide(lex, common, local, rs), ws)
    ensures Writes(MergeOne(lex, common, local, r)) && r.Workspace() == ws
    ensures r.Lifecycle().Active? <==> MergeOne(lex, common, local, r).Added? || MergeOne(lex, common, local, r).Updated?
  {
  }

  lemma AddedAgreesWithLeft(lex: Lexicon, common: Tables, local: Tables, outcomes: seq<Outcome>, r: Record, ws: Workspace)
    requires MergeOne(lex, common, local, r).Added? && r.Workspace() == ws
    requires Wf(common) && Wf(local) && Agree(common, local)
    requires r.Id() in local.records && local.records[r.Id()] == Row(r.Workspace(), r)
    ensures forall x :: x in LeftIn(common, outcomes, ws) ==> !Contradict(lex, r, x)
  {
    DecisionIsSafe(lex, common, local, r);
    AddedAgrees(lex, common, local, r);
    forall x | x in LeftIn(common, outcomes, ws) ensures !Contradict(lex, r, x) {
      var all := Actives(common, ws) + {r};
      assert r in Group(lex, all, TopicOf(lex, r));
      assert TopicOf(lex, r) == TopicOf(lex, x) ==> x in Group(lex, all, TopicOf(lex, r));
    }
  }

  // ------------------------------------------------------ a batch of additions only

  /** Each of `added` was found to contradict nothing in `known`, looked at alone. */
  ghost predicate EachAgrees(lex: Lexicon, known: set<Record>, added: set<Record>) {
    forall r :: r in added ==> r.Lifecycle().Active? && r !in known && !Clash(lex, Group(lex, known + {r}, TopicOf(lex, r)))
  }

  /** A batch of additions, each decided against the store as it was, leaves the conflicts as they
      were exactly when no two of the additions contradict each other: nothing compares them. */
  lemma AddedTogether(lex: Lexicon, known: set<Record>, added: set<Record>)
    requires EachAgrees(lex, known, added)
    ensures Conflicts(lex, known + added) == Conflicts(lex, known)
            <==> !exists a, b :: a in added && b in added && Contradict(lex, a, b)
  {
    if exists a, b :: a in added && b in added && Contradict(lex, a, b) {
      var a, b :| a in added && b in added && Contradict(lex, a, b);
      ContradictionShows(lex, known, added, a, b);
    } else {
      forall x | x in known + added && x.Lifecycle().Active? ensures SameGroups(lex, known, added, x) {
        TopicWithAdditions(lex, known, added, TopicOf(lex, x));
      }
    }
  }

  lemma ContradictionShows(lex: Lexicon, known: set<Record>, added: set<Record>, a: Record, b: Record)
    requires EachAgrees(lex, known, added) && a in added && b in added && Contradict(lex, a, b)
    ensures Conflicts(lex, known + added) != Conflicts(lex, known)
  {
    var group := Group(lex, known + added, TopicOf(lex, a));
    assert a in group && b in group && Clash(lex, group);
    assert group in Conflicts(lex, known + added);
    assert forall g :: g in Conflicts(lex, known) ==> a !in g;
  }

  /** About `x`'s subject, the additions change nothing that disagrees. */
  ghost predicate SameGroups(lex: Lexicon, known: set<Record>, added: set<Record>, x: Record) {
    var before, after := Group(lex, known, TopicOf(lex, x)), Group(lex, known + added, TopicOf(lex, x));
    && (Clash(lex, after) ==> x in known && before == after)
    && (x in known && Clash(lex, before) ==> before == after)
  }

  lemma TopicWithAdditions(lex: Lexicon, known: set<Record>, added: set<Record>, topic: (Kind, string))
    requires EachAgrees(lex, known, added)
    requires forall a, b :: a in added && b in added ==> !Contradict(lex, a, b)
    ensures Group(lex, known + added, topic) == Group(lex, known, topic)
            || (!Clash(lex, Group(lex, known + added, topic)) && !Clash(lex, Group(lex, known, topic)))
  {
    if r :| r in added && TopicOf(lex, r) == topic {
      forall x | x in Group(lex, known + added, topic)
        ensures lex.words(x.claim.statement) == lex.words(r.claim.statement)
      {
        var alone := Group(lex, known + {r}, topic);
        assert r in alone && !Clash(lex, alone);
        if x in known { assert x in alone; } else { assert !Contradict(lex, x, r); }
      }
    }
  }

  lemma AddedAgrees(lex: Lexicon, common: Tables, local: Tables, r: Record)
    requires MergeOne(lex, common, local, r).Added? && r.Id() !in common.records
    ensures r.Lifecycle().Active? && !Clash(lex, Group(lex, Actives(common, r.Workspace()) + {r}, TopicOf(lex, r)))
  {
    var rs := Actives(common, r.Workspace()) + {r};
    assert r in rs && r in Group(lex, rs, TopicOf(lex, r));
    assert Clash(lex, Group(lex, rs, TopicOf(lex, r))) ==> Group(lex, rs, TopicOf(lex, r)) in Conflicts(lex, rs);
  }

  /** A consolidation that only adds leaves a workspace's conflicts as they were exactly when no two
      of the records it adds there contradict each other. */
  lemma AddingBatchIsSafeIff(lex: Lexicon, common: Tables, local: Tables, rs: seq<Record>, ws: Workspace)
    requires Wf(common) && Wf(local) && Agree(common, local) && FromStore(local, rs)
    requires forall i :: 0 <= i < |rs| && Writes(MergeOne(lex, common, local, rs[i]))
                         ==> MergeOne(lex, common, local, rs[i]).Added?
    ensures var added := WrittenIn(Decide(lex, common, local, rs), ws);
            Conflicts(lex, Actives(Consolidated(lex, common, local, rs), ws)) == Conflicts(lex, Actives(common, ws))
            <==> !exists a, b :: a in added && b in added && Contradict(lex, a, b)
  {
    var outcomes := Decide(lex, common, local, rs);
    var added := WrittenIn(outcomes, ws);
    DecidedIsPending(lex, common, local, rs);
    ActivesAfter(common, local, outcomes, ws);
    forall i | 0 <= i < |rs| && Writes(outcomes[i].action) ensures rs[i].Id() !in common.records {
      DecisionIsSafe(lex, common, local, rs[i]);
    }
    AllAreLeft(common, outcomes, ws);
    AllAgree(lex, common, local, rs, ws);
    hide *;
    AddedTogether(lex, Actives(common, ws), added);
    SetsCommute(Actives(common, ws), added);
  }

  lemma SetsCommute<T>(a: set<T>, b: set<T>)
    ensures a + b == b + a
  {
  }

  lemma AllAgree(lex: Lexicon, common: Tables, local: Tables, rs: seq<Record>, ws: Workspace)
    requires Wf(common) && Wf(local) && Agree(common, local) && FromStore(local, rs)
    requires forall i :: 0 <= i < |rs| && Writes(MergeOne(lex, common, local, rs[i]))
                         ==> MergeOne(lex, common, local, rs[i]).Added?
    ensures var added := WrittenIn(Decide(lex, common, local, rs), ws);
            EachAgrees(lex, Actives(common, ws), added) && ActiveOf(added) == added
  {
    hide Clash, Group, Actives, Wf, MergeOne;
    var added := WrittenIn(Decide(lex, common, local, rs), ws);
    forall r | r in added
      ensures r.Lifecycle().Active? && r !in Actives(common, ws)
      ensures !Clash(lex, Group(lex, Actives(common, ws) + {r}, TopicOf(lex, r)))
    {
      DecidedRow(lex, common, local, rs, ws, r);
      DecisionIsSafe(lex, common, local, r);
      AddedAgrees(lex, common, local, r);
      NotYetCommon(common, r, ws);
    }
  }

  lemma DecidedRow(lex: Lexicon, common: Tables, local: Tables, rs: seq<Record>, ws: Workspace, r: Record)
    requires Wf(local) && FromStore(local, rs) && r in WrittenIn(Decide(lex, common, local, rs), ws)
    requires forall i :: 0 <= i < |rs| && Writes(MergeOne(lex, common, local, rs[i]))
                         ==> MergeOne(lex, common, local, rs[i]).Added?
    ensures r.Id() in local.records && local.records[r.Id()] == Row(r.Workspace(), r) && r.Workspace() == ws
    ensures MergeOne(lex, common, local, r).Added?
  {
    hide MergeOne, Wf;
    var i :| 0 <= i < |rs| && Writes(MergeOne(lex, common, local, rs[i])) && rs[i] == r;
    BodiesAreNamed(local, r.Id());
  }

  lemma AllAreLeft(common: Tables, outcomes: seq<Outcome>, ws: Workspace)
    requires Wf(common) && forall id :: id in WrittenIds(outcomes) ==> id !in common.records
    ensures LeftIn(common, outcomes, ws) == Actives(common, ws)
  {
    forall x | x in Actives(common, ws) ensures x.Id() !in WrittenIds(outcomes) {
      var id :| id in common.records && common.records[id].body == x;
      BodiesAreNamed(common, id);
    }
  }

  lemma NotYetCommon(common: Tables, r: Record, ws: Workspace)
    requires Wf(common) && r.Id() !in common.records
    ensures r !in Actives(common, ws)
  {
    forall id | id in common.records ensures common.records[id].body != r {
      assert Sound(common, id);
    }
  }

  // ------------------------------------------------------------------ it happens

  lemma FirstRecordIsAdded(lex: Lexicon, local: Tables, r: Record)
    requires r.Lifecycle().Active?
    ensures MergeOne(lex, EMPTY, local, r) == Added
  {
    assert Actives(EMPTY, r.Workspace()) == {};
    assert View(Store(EMPTY, EMPTY), r.Workspace()) == map[];
    assert Conflicts(lex, {} + {r}) == {};
  }

  function OneVersion(r: Record): History {
    map[r.version := r]
  }

  lemma FirstVersionIsOk(r: Record)
    requires Initial(r)
    ensures RecordOk(Row(r.Workspace(), r), OneVersion(r), r.Id())
  {
  }

  lemma NextVersionIsOk(a: Record, b: Record)
    requires Initial(a) && LegalStep(a, b)
    ensures RecordOk(Row(a.Workspace(), b), OneVersion(a) + OneVersion(b), a.Id())
  {
    StepKeepsIdentity(a, b);
    assert LegalAt(OneVersion(a) + OneVersion(b), 1);
  }

  /** Two new records of one user can each be an addition, and contradict each other. */
  lemma AdditionsMayContradict(lex: Lexicon, a: Record, b: Record)
    requires a.Id() != b.Id() && a.Workspace() == b.Workspace()
    requires Initial(a) && Initial(b) && a.Lifecycle().Active? && b.Lifecycle().Active? && Contradict(lex, a, b)
    ensures var ws := a.Workspace();
            var local := Tables(map[a.Id() := Row(ws, a), b.Id() := Row(ws, b)],
                                map[a.Id() := OneVersion(a), b.Id() := OneVersion(b)]);
            && Wf(local) && FromStore(local, [a, b])
            && Decide(lex, EMPTY, local, [a, b]) == [Outcome(Added, a), Outcome(Added, b)]
            && InConflict(lex, Actives(Consolidated(lex, EMPTY, local, [a, b]), ws), a)
  {
    var ws := a.Workspace();
    var local := Tables(map[a.Id() := Row(ws, a), b.Id() := Row(ws, b)],
                        map[a.Id() := OneVersion(a), b.Id() := OneVersion(b)]);
    FirstVersionIsOk(a);
    FirstVersionIsOk(b);
    assert forall id :: Sound(local, id);
    FirstRecordIsAdded(lex, local, a);
    FirstRecordIsAdded(lex, local, b);
    var outcomes := Decide(lex, EMPTY, local, [a, b]);
    assert outcomes == [Outcome(Added, a), Outcome(Added, b)];
    DecidedIsPending(lex, EMPTY, local, [a, b]);
    ActivesAfter(EMPTY, local, outcomes, ws);
    assert outcomes[0].record in WrittenIn(outcomes, ws) && outcomes[1].record in WrittenIn(outcomes, ws);
    InConflictIff(lex, Actives(Consolidated(lex, EMPTY, local, [a, b]), ws), a);
  }

  /** And a user's amendment of a common record can be merged over, and contradict, another common record. */
  lemma UpdateMayContradict(lex: Lexicon, a: Record, amended: Record, b: Record)
    requires a.Id() != b.Id() && a.Workspace() == b.Workspace()
    requires Initial(a) && Initial(b) && a.Lifecycle().Active? && b.Lifecycle().Active?
    requires Amends(a, amended) && Contradict(lex, amended, b)
    ensures var ws := a.Workspace();
            var common := Tables(map[a.Id() := Row(ws, a), b.Id() := Row(ws, b)],
                                 map[a.Id() := OneVersion(a), b.Id() := OneVersion(b)]);
            var local := Tables(map[a.Id() := Row(ws, amended)], map[a.Id() := OneVersion(a) + OneVersion(amended)]);
            && Wf(common) && Wf(local) && Agree(common, local)
            && MergeOne(lex, common, local, amended) == Updated
            && InConflict(lex, Actives(ApplyOne(common, local, amended), ws), amended)
  {
    var ws := a.Workspace();
    var common := Tables(map[a.Id() := Row(ws, a), b.Id() := Row(ws, b)],
                         map[a.Id() := OneVersion(a), b.Id() := OneVersion(b)]);
    var local := Tables(map[a.Id() := Row(ws, amended)], map[a.Id() := OneVersion(a) + OneVersion(amended)]);
    FirstVersionIsOk(a);
    FirstVersionIsOk(b);
    NextVersionIsOk(a, amended);
    assert (forall id :: Sound(common, id)) && forall id :: Sound(local, id);
    assert HistoryOf(local, a.Id())[1] == a;
    assert Recognises(HistoryOf(local, a.Id()), a);
    assert Holds(common, ws, b.Id()) && b in Actives(common, ws);
    UpdateIsSafeIff(lex, common, local, amended);
  }
}
