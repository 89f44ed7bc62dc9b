/**
  The whole system: a team's common store, and users who each read some image
  of it under their own. Users and the team edit their stores, images are
  renewed, and users' stores are consolidated into the team's, in any order.
 */
module SharedKnowledge {
  import opened Wrappers
  import opened KnowledgeModel
  import opened KnowledgeRules
  import opened KnowledgeLaws
  import opened Consolidation

  /** One call on one store. An added record takes the id it is given. */
  datatype Edit =
    | Add(ws: Workspace, draft: Draft, id: RecordId, now: Time)
    | Accept(ws: Workspace, id: RecordId, now: Time)
    | Amend(ws: Workspace, id: RecordId, text: string, now: Time)
    | Revoke(ws: Workspace, id: RecordId, text: string, now: Time)
    | Validate(ws: Workspace, tree: Worktree, clock: RecordId -> Time)
    | Revalidate(ws: Workspace, tree: Worktree, clock: RecordId -> Time)
    | Purge(ws: Workspace)

  function One(result: Result<Record, Error>): map<RecordId, Record> {
    if result.Success? then map[result.value.Id() := result.value] else map[]
  }

  /** What a call writes. */
  function Written(lex: Lexicon, s: Store, e: Edit): map<RecordId, Record> {
    match e
    case Add(ws, draft, id, now) =>
      var d := Cleaned(lex, draft);
      if Refusal(lex, ws, d) == None && !HasDuplicate(lex, s, ws, d.kind, SubjectOf(d), d.statement, d.sources)
      then One(Created(lex, ws, d, id, now)) else map[]
    case Accept(ws, id, now) => One(Accepted(s, ws, id, now))
    case Amend(ws, id, text, now) => One(Amended(lex, s, ws, id, text, now))
    case Revoke(ws, id, text, now) => One(Withdrawn(s, ws, id, text, now))
    case Validate(ws, tree, clock) => StaleAmong(View(s, ws), tree, clock)
    case Revalidate(ws, tree, clock) => RestoredAmong(View(s, ws), tree, clock)
    case Purge(ws) => map[]
  }

  function Edited(lex: Lexicon, s: Store, e: Edit): Tables {
    if e.Purge? then Purged(s.local, e.ws) else WriteAll(s, Written(lex, s, e))
  }

  lemma EditIsWritable(lex: Lexicon, s: Store, e: Edit)
    requires Valid(s)
    requires e.Add? ==> e.id !in s.local.records && e.id !in s.common.records
    ensures Writable(s, Written(lex, s, e))
    ensures if e.Add? then Written(lex, s, e).Keys <= {e.id} else Following(s, Written(lex, s, e))
  {
    match e
    case Add(ws, draft, id, now) =>
      var d := Cleaned(lex, draft);
      if Created(lex, ws, d, id, now).Success? { CreatedIsInitial(lex, ws, d, id, now); }
    case Accept(ws, id, now) => if Accepted(s, ws, id, now).Success? { AcceptedFollows(s, ws, id, now); }
    case Amend(ws, id, text, now) =>
      if Amended(lex, s, ws, id, text, now).Success? { AmendedFollows(lex, s, ws, id, text, now); }
    case Revoke(ws, id, text, now) =>
      if Withdrawn(s, ws, id, text, now).Success? { WithdrawnFollows(s, ws, id, text, now); }
    case Validate(ws, tree, clock) => StaleVersionsFollow(s, ws, tree, clock);
    case Revalidate(ws, tree, clock) => RestoredVersionsFollow(s, ws, tree, clock);
    case Purge(_) =>
  }

  /** An edit leaves the local tables that the store's own call leaves. */
  lemma EditsAreTheCalls(lex: Lexicon, s: Store, e: Edit)
    ensures match e
            case Add(ws, draft, id, now) =>
              var d := Cleaned(lex, draft);
              Edited(lex, s, e)
              == (if Refusal(lex, ws, d).Some? || HasDuplicate(lex, s, ws, d.kind, SubjectOf(d), d.statement, d.sources)
                  then s.local else Committed(s, Created(lex, ws, d, id, now)))
            case Accept(ws, id, now) => Edited(lex, s, e) == Committed(s, Accepted(s, ws, id, now))
            case Amend(ws, id, text, now) => Edited(lex, s, e) == Committed(s, Amended(lex, s, ws, id, text, now))
            case Revoke(ws, id, text, now) => Edited(lex, s, e) == Committed(s, Withdrawn(s, ws, id, text, now))
            case Validate(ws, tree, clock) => Store(Edited(lex, s, e), s.common) == AfterValidate(s, ws, tree, clock)
            case Revalidate(ws, tree, clock) => Store(Edited(lex, s, e), s.common) == AfterRevalidate(s, ws, tree, clock)
            case Purge(ws) => Edited(lex, s, e) == Purged(s.local, ws)
  {
    hide Created, Accepted, Amended, Withdrawn, Refusal, HasDuplicate, StaleAmong, RestoredAmong, View, WriteAll, One,
         Committed, Purged, SubjectOf, Cleaned;
    NoneAreWritten(s);
    match e
    case Add(ws, draft, id, now) => OneIsCommitted(s, Created(lex, ws, Cleaned(lex, draft), id, now));
    case Accept(ws, id, now) => OneIsCommitted(s, Accepted(s, ws, id, now));
    case Amend(ws, id, text, now) => OneIsCommitted(s, Amended(lex, s, ws, id, text, now));
    case Revoke(ws, id, text, now) => OneIsCommitted(s, Withdrawn(s, ws, id, text, now));
    case _ =>
  }

  lemma NoneAreWritten(s: Store)
    ensures WriteAll(s, map[]) == s.local
  {
    assert NewRows(s.local, map[]) == map[] && NewHistories(s, map[]) == map[];
    assert s.local.records + map[] == s.local.records && s.local.versions + map[] == s.local.versions;
  }

  lemma OneIsCommitted(s: Store, result: Result<Record, Error>)
    ensures WriteAll(s, One(result)) == Committed(s, result)
  {
    NoneAreWritten(s);
    hide WriteAll;
  }

  // ------------------------------------------------------------ what edits keep

  lemma EditKeepsValid(lex: Lexicon, s: Store, e: Edit)
    requires Valid(s)
    requires e.Add? ==> e.id !in s.local.records && e.id !in s.common.records
    ensures Valid(Store(Edited(lex, s, e), s.common))
  {
    if e.Purge? {
      PurgeKeepsValid(s, e.ws);
    } else {
      EditIsWritable(lex, s, e);
      WriteAllPreserves(s, Written(lex, s, e));
    }
  }

  lemma WrittenEvolves(s: Store, r: Record)
    requires Valid(s) && (Follows(s, r) || Fresh(s, r)) && r.Id() in s.local.records
    ensures s.local.records[r.Id()].workspace == r.Workspace()
    ensures s.local.records[r.Id()].body.version <= r.version
    ensures s.local.records[r.Id()].body.Lifecycle().Revoked? ==> r.Lifecycle().Revoked?
    ensures Keeps(HistoryOf(s.local, r.Id()), Extended(s, r))
  {
    var id := r.Id();
    WriteExtendsHistory(s, r);
    assert Sound(s.local, id);
    assert Get(s, r.Workspace(), id) == Some(s.local.records[id].body);
    StepKeepsIdentity(s.local.records[id].body, r);
  }

  /** No edit but a purge changes a version row, or undoes a revocation. */
  lemma EditEvolves(lex: Lexicon, s: Store, e: Edit)
    requires Valid(s) && !e.Purge?
    requires e.Add? ==> e.id !in s.local.records && e.id !in s.common.records
    ensures Evolves(s.local, Edited(lex, s, e))
  {
    EditIsWritable(lex, s, e);
    var m := Written(lex, s, e);
    forall id | id in s.local.records ensures RecordEvolves(s.local, WriteAll(s, m), id) {
      WriteEvolvesRecord(s, m, id);
    }
  }

  lemma WriteEvolvesRecord(s: Store, m: map<RecordId, Record>, id: RecordId)
    requires Valid(s) && Writable(s, m) && id in s.local.records
    ensures RecordEvolves(s.local, WriteAll(s, m), id)
  {
    if id in m { WrittenEvolves(s, m[id]); }
  }

  lemma WritesKeepRevoked(s: Store, m: map<RecordId, Record>, ws: Workspace, id: RecordId)
    requires Writable(s, m) && id in View(s, ws) && View(s, ws)[id].Lifecycle().Revoked?
    ensures id in Part(m, ws) ==> m[id].Lifecycle().Revoked?
  {
    GetReadsView(s, ws, id);
    if id in m && m[id].Workspace() == ws {
      StepKeepsIdentity(View(s, ws)[id], m[id]);
    }
  }

  /** What a reader saw revoked stays revoked through every edit but a purge of that workspace. */
  lemma EditKeepsRevoked(lex: Lexicon, s: Store, e: Edit, ws: Workspace, id: RecordId)
    requires Valid(s) && id in View(s, ws) && View(s, ws)[id].Lifecycle().Revoked?
    requires e.Add? ==> e.id !in s.local.records && e.id !in s.common.records
    requires e.Purge? ==> e.ws != ws
    ensures var view := View(Store(Edited(lex, s, e), s.common), ws);
            id in view && view[id].Lifecycle().Revoked?
  {
    if e.Purge? {
      PurgeRestoresCommon(s, e.ws, ws, id);
    } else {
      EditIsWritable(lex, s, e);
      WritesUpdateTheView(s, Written(lex, s, e), ws);
      WritesKeepRevoked(s, Written(lex, s, e), ws, id);
    }
  }

  // --------------------------------------------------------------- the system

  type User = string

  /** `owner` is bookkeeping: the workspace each id was ever used in. */
  datatype System = System(team: Tables, users: map<User, Store>, owner: map<RecordId, Workspace>)

  datatype Step =
    | UserEdit(user: User, edit: Edit)
    | TeamEdit(edit: Edit)
    | NewImage(user: User)
    | Consolidate(user: User, records: seq<Record>)

  ghost predicate Enabled(sys: System, step: Step) {
    match step
    case UserEdit(u, e) => u in sys.users && (e.Add? ==> e.id !in sys.owner)
    case TeamEdit(e) => !e.Purge? && (e.Add? ==> e.id !in sys.owner)
    case NewImage(u) => u in sys.users
    case Consolidate(u, rs) => u in sys.users && FromStore(sys.users[u].local, rs)
  }

  function Owners(owner: map<RecordId, Workspace>, m: map<RecordId, Record>): map<RecordId, Workspace> {
    owner + map id | id in m :: m[id].Workspace()
  }

  ghost function Next(lex: Lexicon, sys: System, step: Step): System
    requires Enabled(sys, step)
  {
    match step
    case UserEdit(u, e) =>
      var s := sys.users[u];
      sys.(users := sys.users[u := Store(Edited(lex, s, e), s.common)], owner := Owners(sys.owner, Written(lex, s, e)))
    case TeamEdit(e) =>
      var s := Store(sys.team, EMPTY);
      sys.(team := Edited(lex, s, e), owner := Owners(sys.owner, Written(lex, s, e)))
    case NewImage(u) => sys.(users := sys.users[u := Store(sys.users[u].local, sys.team)])
    case Consolidate(u, rs) => sys.(team := Consolidated(lex, sys.team, sys.users[u].local, rs))
  }

  ghost predicate Placed(t: Tables, owner: map<RecordId, Workspace>) {
    forall id :: id in t.records ==> id in owner && owner[id] == t.records[id].workspace
  }

  ghost predicate UserOk(s: Store, team: Tables, owner: map<RecordId, Workspace>) {
    && Wf(s.local) && Placed(s.local, owner)
    && Wf(s.common) && Placed(s.common, owner)
    && Evolves(s.common, team)
  }

  ghost predicate Inv(sys: System) {
    && Wf(sys.team) && Placed(sys.team, sys.owner)
    && forall u :: u in sys.users ==> UserOk(sys.users[u], sys.team, sys.owner)
  }

  ghost predicate Extends(a: map<RecordId, Workspace>, b: map<RecordId, Workspace>) {
    forall id :: id in a ==> id in b && b[id] == a[id]
  }

  lemma EditIsPlaced(lex: Lexicon, s: Store, e: Edit, owner: map<RecordId, Workspace>)
    requires Valid(s) && Placed(s.local, owner) && Placed(s.common, owner)
    requires e.Add? ==> e.id !in owner
    ensures Extends(owner, Owners(owner, Written(lex, s, e)))
    ensures Placed(Edited(lex, s, e), Owners(owner, Written(lex, s, e)))
  {
    hide Written, Wf;
    EditIsWritable(lex, s, e);
    WritesArePlaced(s, Written(lex, s, e), owner);
  }

  lemma WritesArePlaced(s: Store, m: map<RecordId, Record>, owner: map<RecordId, Workspace>)
    requires Valid(s) && Placed(s.local, owner) && Placed(s.common, owner) && Writable(s, m)
    requires Following(s, m) || m.Keys !! owner.Keys
    ensures Extends(owner, Owners(owner, m))
    ensures Placed(WriteAll(s, m), Owners(owner, m))
  {
    hide Wf, Extended, NewHistories;
    forall id | id in m
      ensures Upserted(s.local, m[id]) == Row(m[id].Workspace(), m[id])
      ensures id in owner ==> owner[id] == m[id].Workspace()
    {
      RowStays(s, m[id]);
    }
  }

  lemma UserMovesOn(s: Store, team: Tables, later: Tables, owner: map<RecordId, Workspace>,
                    grown: map<RecordId, Workspace>)
    requires UserOk(s, team, owner) && Evolves(team, later) && Extends(owner, grown)
    ensures UserOk(s, later, grown)
  {
    EvolvesTransitively(s.common, team, later);
  }

  lemma EvolvesReflexively(t: Tables)
    ensures Evolves(t, t)
  {
    forall id | id in t.records ensures RecordEvolves(t, t, id) {
    }
  }

  // ------------------------------------------------------------- whole systems

  lemma TeamEditKeepsInv(lex: Lexicon, sys: System, e: Edit)
    requires Inv(sys) && Enabled(sys, TeamEdit(e))
    ensures Inv(Next(lex, sys, TeamEdit(e))) && Evolves(sys.team, Next(lex, sys, TeamEdit(e)).team)
  {
    hide Edited, Written;
    var s, after := Store(sys.team, EMPTY), Next(lex, sys, TeamEdit(e));
    EditKeepsValid(lex, s, e);
    EditEvolves(lex, s, e);
    EditIsPlaced(lex, s, e, sys.owner);
    forall u | u in sys.users ensures UserOk(sys.users[u], after.team, after.owner) {
      UserMovesOn(sys.users[u], sys.team, after.team, sys.owner, after.owner);
    }
  }

  lemma UserEditKeepsInv(lex: Lexicon, sys: System, u: User, e: Edit)
    requires Inv(sys) && Enabled(sys, UserEdit(u, e))
    ensures Inv(Next(lex, sys, UserEdit(u, e)))
  {
    hide Edited, Written, Wf;
    var s, after := sys.users[u], Next(lex, sys, UserEdit(u, e));
    EditKeepsValid(lex, s, e);
    EvolvesReflexively(sys.team);
    EditIsPlaced(lex, s, e, sys.owner);
    forall v | v in sys.users ensures UserOk(after.users[v], after.team, after.owner) {
      UserMovesOn(sys.users[v], sys.team, sys.team, sys.owner, after.owner);
    }
  }

  lemma ConsolidateKeepsInv(lex: Lexicon, sys: System, u: User, rs: seq<Record>)
    requires Inv(sys) && Enabled(sys, Consolidate(u, rs))
    ensures var after := Next(lex, sys, Consolidate(u, rs));
            Inv(after) && Evolves(sys.team, after.team)
  {
    var after := Next(lex, sys, Consolidate(u, rs));
    ConsolidationKeepsCommon(lex, sys.team, sys.users[u].local, rs);
    forall v | v in sys.users ensures UserOk(sys.users[v], after.team, sys.owner) {
      UserMovesOn(sys.users[v], sys.team, after.team, sys.owner, sys.owner);
    }
  }

  /** Every step keeps every store well formed, and the team's store only grows. */
  lemma StepKeepsInv(lex: Lexicon, sys: System, step: Step)
    requires Inv(sys) && Enabled(sys, step)
    ensures Inv(Next(lex, sys, step)) && Evolves(sys.team, Next(lex, sys, step).team)
  {
    EvolvesReflexively(sys.team);
    match step
    case UserEdit(u, e) => UserEditKeepsInv(lex, sys, u, e);
    case TeamEdit(e) => TeamEditKeepsInv(lex, sys, e);
    case NewImage(u) =>
      forall v | v in sys.users ensures UserOk(Next(lex, sys, step).users[v], sys.team, sys.owner) {
        assert UserOk(sys.users[v], sys.team, sys.owner);
      }
    case Consolidate(u, rs) => ConsolidateKeepsInv(lex, sys, u, rs);
  }

  /** A new image shows its user the team's records as they are, under the user's own, and touches nobody else. */
  lemma ImageShowsTheTeam(lex: Lexicon, sys: System, u: User, ws: Workspace, id: RecordId)
    requires Enabled(sys, NewImage(u))
    ensures var after := Next(lex, sys, NewImage(u));
            var team, own := View(Store(sys.team, EMPTY), ws), View(Store(sys.users[u].local, EMPTY), ws);
            var seen := View(after.users[u], ws);
            && after.team == sys.team && after.users.Keys == sys.users.Keys
            && (forall v :: v in sys.users && v != u ==> after.users[v] == sys.users[v])
            && (id in seen <==> id in team || id in own)
            && (id in seen ==> seen[id] == if id in own then own[id] else team[id])
  {
  }

  /** Step `i` was enabled, and led to the next system. */
  ghost predicate Stepped(lex: Lexicon, run: seq<System>, steps: seq<Step>, i: int)
    requires 0 <= i < |steps| && |run| == |steps| + 1
  {
    Enabled(run[i], steps[i]) && run[i + 1] == Next(lex, run[i], steps[i])
  }

  /** A run from a good system: every system it went through, and the steps between. */
  ghost predicate IsRun(lex: Lexicon, run: seq<System>, steps: seq<Step>) {
    && |run| == |steps| + 1 && Inv(run[0])
    && forall i :: 0 <= i < |steps| ==> Stepped(lex, run, steps, i)
  }

  lemma {:induction false} RunKeepsInv(lex: Lexicon, run: seq<System>, steps: seq<Step>, i: int)
    requires IsRun(lex, run, steps) && 0 <= i < |run|
    ensures Inv(run[i])
    decreases i
  {
    hide Inv, Next;
    if i > 0 {
      RunKeepsInv(lex, run, steps, i - 1);
      assert Stepped(lex, run, steps, i - 1);
      StepKeepsInv(lex, run[i - 1], steps[i - 1]);
    }
  }

  /** No lost updates: between any two moments of any interleaving, the team's histories are exactly the
      versions 1..n with the current record last, every version row there was is still there as it was,
      no record changes workspace, and nothing revoked comes back. */
  lemma {:induction false} NoLostUpdates(lex: Lexicon, run: seq<System>, steps: seq<Step>, i: int, j: int)
    requires IsRun(lex, run, steps) && 0 <= i <= j < |run|
    ensures Wf(run[j].team) && Evolves(run[i].team, run[j].team)
    decreases j
  {
    hide Next, Evolves;
    RunKeepsInv(lex, run, steps, j);
    if i == j {
      EvolvesReflexively(run[i].team);
    } else {
      NoLostUpdates(lex, run, steps, i, j - 1);
      RunKeepsInv(lex, run, steps, j - 1);
      assert Stepped(lex, run, steps, j - 1);
      StepKeepsInv(lex, run[j - 1], steps[j - 1]);
      EvolvesTransitively(run[i].team, run[j - 1].team, run[j].team);
    }
  }

  /** Every body that was ever the team's current one can be read in its history ever after. */
  lemma CurrentBodiesAreKept(lex: Lexicon, run: seq<System>, steps: seq<Step>, i: int, j: int, id: RecordId)
    requires IsRun(lex, run, steps) && 0 <= i <= j < |run| && id in run[i].team.records
    ensures var current, later := run[i].team.records[id].body, HistoryOf(run[j].team, id);
            current.version in later && later[current.version] == current
  {
    NoLostUpdates(lex, run, steps, i, j);
    RunKeepsInv(lex, run, steps, i);
    assert Sound(run[i].team, id);
    assert RecordEvolves(run[i].team, run[j].team, id);
  }

  predicate Purges(step: Step, u: User, ws: Workspace) {
    step.UserEdit? && step.user == u && step.edit.Purge? && step.edit.ws == ws
  }

  predicate RevokedFor(s: Store, ws: Workspace, id: RecordId) {
    id in View(s, ws) && View(s, ws)[id].Lifecycle().Revoked?
  }

  lemma NewImageKeepsRevoked(s: Store, team: Tables, ws: Workspace, id: RecordId)
    requires RevokedFor(s, ws, id) && Evolves(s.common, team)
    ensures RevokedFor(Store(s.local, team), ws, id)
  {
    if !Holds(s.local, ws, id) {
      assert Holds(s.common, ws, id) && RecordEvolves(s.common, team, id);
    }
  }

  lemma StepKeepsRevoked(lex: Lexicon, sys: System, step: Step, u: User, ws: Workspace, id: RecordId)
    requires Inv(sys) && Enabled(sys, step) && !Purges(step, u, ws)
    requires u in sys.users && RevokedFor(sys.users[u], ws, id)
    ensures u in Next(lex, sys, step).users && RevokedFor(Next(lex, sys, step).users[u], ws, id)
  {
    hide Edited, View, Wf;
    var s := sys.users[u];
    assert UserOk(s, sys.team, sys.owner);
    if step.UserEdit? && step.user == u {
      EditKeepsRevoked(lex, s, step.edit, ws, id);
    } else if step.NewImage? && step.user == u {
      NewImageKeepsRevoked(s, sys.team, ws, id);
    }
  }

  /** Revocation is absorbing for every reader: what a user saw revoked stays revoked through every
      edit, new image and consolidation, until that user purges the workspace. */
  lemma {:induction false} RevocationIsAbsorbing(lex: Lexicon, run: seq<System>, steps: seq<Step>, i: int, j: int,
                                                 u: User, ws: Workspace, id: RecordId)
    requires IsRun(lex, run, steps) && 0 <= i <= j < |run|
    requires u in run[i].users && RevokedFor(run[i].users[u], ws, id)
    requires forall k :: i <= k < j ==> !Purges(steps[k], u, ws)
    ensures u in run[j].users && RevokedFor(run[j].users[u], ws, id)
    decreases j
  {
    hide Next, View, Inv, Edited, Written, FromStore;
    if i < j {
      RevocationIsAbsorbing(lex, run, steps, i, j - 1, u, ws, id);
      RunKeepsInv(lex, run, steps, j - 1);
      assert Stepped(lex, run, steps, j - 1);
      StepKeepsRevoked(lex, run[j - 1], steps[j - 1], u, ws, id);
    }
  }

  // ------------------------------------------- nothing becomes active on its own

  /** How far one version may claim: seen as active or stale only once verified, proposed only at first. */
  predicate Earned(r: Record) {
    && (r.Lifecycle().Active? || r.Lifecycle().Stale? ==>
          r.claim.verification.UserConfirmed? || r.claim.verification.SourceVerified?)
    && (r.Lifecycle().Proposed? ==> r.version == 1)
  }

  lemma {:induction false} EveryVersionIsEarned(h: History, n: int, i: int)
    requires Chain(h, n) && 1 <= i <= n
    ensures Earned(h[i])
    decreases i
  {
    if i > 1 {
      EveryVersionIsEarned(h, n, i - 1);
      assert LegalAt(h, i - 1);
    }
  }

  /** Version `j` is the operator's: an acceptance or an amendment of the one before. */
  predicate ByOperator(h: History, j: int) {
    j - 1 in h && j in h && (Accepts(h[j - 1], h[j]) || Amends(h[j - 1], h[j]))
  }

  /** Created on a model's, a tool's or an import's word, a record is proposed or revoked at every
      version until the operator accepts or amends it. */
  lemma {:induction false} ActiveOnlyByTheOperator(h: History, n: int, i: int)
    requires Chain(h, n) && 1 <= i <= n && ProposeOnly(h[1].claim.provenance)
    ensures WasActive(h[i]) ==> exists j :: 1 < j <= i && ByOperator(h, j)
    decreases i
  {
    if i > 1 {
      ActiveOnlyByTheOperator(h, n, i - 1);
      assert LegalAt(h, i - 1);
      if Accepts(h[i - 1], h[i]) || Amends(h[i - 1], h[i]) { assert ByOperator(h, i); }
    }
  }

  /** Users who have nothing yet, and a team that has nothing yet. */
  ghost predicate Start(sys: System) {
    sys.team == EMPTY && sys.owner == map[] && forall u :: u in sys.users ==> sys.users[u] == Store(EMPTY, EMPTY)
  }

  lemma StartIsOk(sys: System)
    requires Start(sys)
    ensures Inv(sys)
  {
    EvolvesReflexively(EMPTY);
  }

  /** Active, or active before its files changed. */
  predicate WasActive(r: Record) {
    r.Lifecycle().Active? || r.Lifecycle().Stale?
  }

  ghost predicate AllEarned(t: Tables) {
    forall id :: id in t.records ==> EarnedRecord(t, id)
  }

  /** The current record, and every version before it. */
  ghost predicate EarnedRecord(t: Tables, id: RecordId)
    requires id in t.records
  {
    var h := HistoryOf(t, id);
    && Earned(t.records[id].body)
    && (forall v :: v in h ==> Earned(h[v]))
    && 1 in h
    && (forall v :: v in h && WasActive(h[v]) && ProposeOnly(h[1].claim.provenance) ==>
          exists j :: 1 < j <= v && ByOperator(h, j))
  }

  lemma WfIsEarned(t: Tables)
    requires Wf(t)
    ensures AllEarned(t)
  {
    forall id | id in t.records ensures EarnedRecord(t, id) {
      assert Sound(t, id);
      var h, n := HistoryOf(t, id), t.records[id].body.version;
      forall v | v in h
        ensures Earned(h[v])
        ensures WasActive(h[v]) && ProposeOnly(h[1].claim.provenance)
                ==> exists j :: 1 < j <= v && ByOperator(h, j)
      {
        EveryVersionIsEarned(h, n, v);
        if ProposeOnly(h[1].claim.provenance) { ActiveOnlyByTheOperator(h, n, v); }
      }
    }
  }

  /** In every store of every reachable system, nothing is active on its own word. */
  lemma NothingActivatesItself(lex: Lexicon, run: seq<System>, steps: seq<Step>, i: int)
    requires IsRun(lex, run, steps) && 0 <= i < |run|
    ensures AllEarned(run[i].team)
    ensures forall u :: u in run[i].users ==> AllEarned(run[i].users[u].local) && AllEarned(run[i].users[u].common)
  {
    RunKeepsInv(lex, run, steps, i);
    var sys := run[i];
    WfIsEarned(sys.team);
    forall u | u in sys.users ensures AllEarned(sys.users[u].local) && AllEarned(sys.users[u].common) {
      assert UserOk(sys.users[u], sys.team, sys.owner);
      WfIsEarned(sys.users[u].local);
      WfIsEarned(sys.users[u].common);
    }
  }
}
