/**
  Workspace knowledge: records, their version histories, and the two layers
  (a user's own tables over a read-only common store) that serve them.

  `Tables` is one SQLite file. Its `versions` table is keyed by record and then
  by version, so the history of one record is a map from version to body. A
  store without a common layer has an empty one.
 */
module KnowledgeModel {
  import opened Wrappers

  type RecordId = string
  type Workspace = string
  /** An instant; only its order is used. */
  type Time = int

  datatype Kind = ProjectFact | ArchitectureFact | BuildFact | ComponentRelation | Decision | CommandKnowledge

  datatype Provenance = ByUser | ByProjectSource | ByToolObservation | ByExternalCapability | Imported | ByModel

  datatype Verification = Unverified | Observed | SourceVerified | UserConfirmed

  datatype Lifecycle = Proposed | Active | Stale | Revoked

  /** Provenances that can never make a record active on their own word. */
  predicate ProposeOnly(p: Provenance) {
    p in {ByModel, ByExternalCapability, ByToolObservation, Imported}
  }

  const FILE := "file"

  datatype SourceRef = SourceRef(kind: string, locator: string, digest: string, line: Option<int>, quote: string)

  /** What never changes about a record. */
  datatype Identity = Identity(
    id: RecordId, workspace: Workspace, kind: Kind, subject: string, tags: seq<string>, paths: seq<string>,
    createdAt: Time)

  /** What a version of a record says, on whose word, and how far it is to be believed. */
  datatype Claim = Claim(
    statement: string, provenance: Provenance, verification: Verification, lifecycle: Lifecycle,
    sources: seq<SourceRef>)

  datatype Record = Record(about: Identity, claim: Claim, version: int, updatedAt: Time, reason: string) {
    function Id(): RecordId { about.id }
    function Workspace(): Workspace { about.workspace }
    function Lifecycle(): Lifecycle { claim.lifecycle }
  }

  /** What two copies of a record are compared on: everything but when and why it was last written. */
  predicate SameBody(a: Record, b: Record) {
    a.about == b.about && a.claim == b.claim && a.version == b.version
  }

  // ------------------------------------------------------------------ tables

  /** One row of the records table. The lifecycle column repeats the body's. */
  datatype Row = Row(workspace: Workspace, body: Record)

  type History = map<int, Record>

  datatype Tables = Tables(records: map<RecordId, Row>, versions: map<RecordId, History>)

  const EMPTY := Tables(map[], map[])

  function HistoryOf(t: Tables, id: RecordId): History {
    if id in t.versions then t.versions[id] else map[]
  }

  predicate Holds(t: Tables, ws: Workspace, id: RecordId) {
    id in t.records && t.records[id].workspace == ws
  }

  /** One workspace of one layer, as a flat map. */
  function Slice(t: Tables, ws: Workspace): map<RecordId, Record> {
    map id | id in t.records && t.records[id].workspace == ws :: t.records[id].body
  }

  // ------------------------------------------------------------------ layers

  datatype Store = Store(local: Tables, common: Tables)

  datatype Layer = Local | Common

  function LayerOf(s: Store, ws: Workspace, id: RecordId): Option<Layer> {
    if Holds(s.local, ws, id) then Some(Local)
    else if Holds(s.common, ws, id) then Some(Common)
    else None
  }

  /** The flat map a workspace's reader sees: common overridden by local. */
  function View(s: Store, ws: Workspace): map<RecordId, Record> {
    Slice(s.common, ws) + Slice(s.local, ws)
  }

  function Get(s: Store, ws: Workspace, id: RecordId): Option<Record> {
    match LayerOf(s, ws, id)
    case Some(Local) => Some(s.local.records[id].body)
    case Some(Common) => Some(s.common.records[id].body)
    case None => None
  }

  /** The history of a visible record, from the layer that serves it. */
  function ServedHistory(s: Store, ws: Workspace, id: RecordId): History {
    match LayerOf(s, ws, id)
    case Some(Local) => HistoryOf(s.local, id)
    case Some(Common) => HistoryOf(s.common, id)
    case None => map[]
  }

  /** What a write copies down first: the whole common history of a record not yet local. */
  function Inherited(s: Store, ws: Workspace, id: RecordId): History {
    if LayerOf(s, ws, id) == Some(Common) then HistoryOf(s.common, id) else map[]
  }

  function Upserted(t: Tables, r: Record): Row {
    Row(if r.Id() in t.records then t.records[r.Id()].workspace else r.Workspace(), r)
  }

  /** INSERT OR IGNORE the inherited rows, then INSERT OR REPLACE the new one. */
  function Extended(s: Store, r: Record): History {
    (Inherited(s, r.Workspace(), r.Id()) + HistoryOf(s.local, r.Id()))[r.version := r]
  }

  function NewRows(t: Tables, m: map<RecordId, Record>): map<RecordId, Row> {
    map id | id in m :: Upserted(t, m[id])
  }

  function NewHistories(s: Store, m: map<RecordId, Record>): map<RecordId, History> {
    map id | id in m :: Extended(s, m[id])
  }

  /** The local tables after writing each of `m`, one record per id. */
  function WriteAll(s: Store, m: map<RecordId, Record>): Tables {
    Tables(s.local.records + NewRows(s.local, m), s.local.versions + NewHistories(s, m))
  }

  function Write(s: Store, r: Record): Tables {
    WriteAll(s, map[r.Id() := r])
  }

  /** The local tables after deleting one workspace's records and their history. */
  function Purged(t: Tables, ws: Workspace): Tables {
    var ids := set id | id in t.records && t.records[id].workspace == ws;
    Tables(t.records - ids, t.versions - ids)
  }

  // ------------------------------------------------------- one record's life

  /** `b` is the next version of `a`, now claiming `c`. */
  predicate Bumps(a: Record, b: Record, c: Claim) {
    b.about == a.about && b.claim == c && b.version == a.version + 1
  }

  predicate Accepts(a: Record, b: Record) {
    a.Lifecycle().Proposed? && Bumps(a, b, a.claim.(lifecycle := Active, verification := UserConfirmed))
  }

  predicate Amends(a: Record, b: Record) {
    !a.Lifecycle().Revoked? && Bumps(a, b, Claim(b.claim.statement, ByUser, UserConfirmed, Active, []))
  }

  predicate Revokes(a: Record, b: Record) {
    Bumps(a, b, a.claim.(lifecycle := Revoked))
  }

  predicate GoesStale(a: Record, b: Record) {
    a.Lifecycle().Active? && Bumps(a, b, a.claim.(lifecycle := Stale))
  }

  predicate Restores(a: Record, b: Record) {
    a.Lifecycle().Stale? && Bumps(a, b, a.claim.(lifecycle := Active, sources := b.claim.sources))
  }

  /** One record changes only through one of the five transitions. */
  predicate LegalStep(a: Record, b: Record) {
    Accepts(a, b) || Amends(a, b) || Revokes(a, b) || GoesStale(a, b) || Restores(a, b)
  }

  /** A first version, in the state its provenance allows. */
  predicate Initial(r: Record) {
    && r.version == 1
    && match r.claim.provenance
       case ByUser => r.Lifecycle().Active? && r.claim.verification.UserConfirmed?
       case ByProjectSource => r.Lifecycle().Active? && r.claim.verification.SourceVerified?
       case _ => r.Lifecycle().Proposed?
  }

  predicate LegalAt(h: History, v: int) {
    v in h && v + 1 in h && LegalStep(h[v], h[v + 1])
  }

  /** A history is exactly the versions 1..n, each the legal successor of the one before. */
  ghost predicate Chain(h: History, n: int) {
    && 1 <= n
    && (forall v :: v in h <==> 1 <= v <= n)
    && (forall v :: v in h ==> h[v].version == v)
    && Initial(h[1])
    && (forall v :: 1 <= v < n ==> LegalAt(h, v))
  }

  /** One record's row and history agree, and both belong to `ws`. */
  ghost predicate RecordOk(row: Row, h: History, id: RecordId) {
    && Chain(h, row.body.version)
    && h[row.body.version] == row.body
    && (forall v :: v in h ==> h[v].Id() == id && h[v].Workspace() == row.workspace)
  }

  predicate Keyed(t: Tables) {
    t.versions.Keys == t.records.Keys
  }

  /** The row of `id`, when there is one, is sound. */
  ghost predicate Sound(t: Tables, id: RecordId) {
    id in t.records ==> RecordOk(t.records[id], HistoryOf(t, id), id)
  }

  ghost predicate Wf(t: Tables) {
    Keyed(t) && forall id :: Sound(t, id)
  }

  /** An id belongs to one workspace, in whichever tables it appears. */
  ghost predicate Agree(t: Tables, u: Tables) {
    forall id :: id in t.records && id in u.records ==> t.records[id].workspace == u.records[id].workspace
  }

  ghost predicate Valid(s: Store) {
    Wf(s.local) && Wf(s.common) && Agree(s.local, s.common)
  }

  /** `r` is a legal next version of the record its workspace now sees. */
  ghost predicate Follows(s: Store, r: Record) {
    && Get(s, r.Workspace(), r.Id()).Some?
    && LegalStep(Get(s, r.Workspace(), r.Id()).value, r)
  }

  /** `r` is a first version under an id neither layer uses. */
  ghost predicate Fresh(s: Store, r: Record) {
    r.Id() !in s.local.records && r.Id() !in s.common.records && Initial(r)
  }

  // ------------------------------------------------------------------ lemmas

  /** A legal step keeps who and where a record is, counts, and never undoes a revocation. */
  lemma StepKeepsIdentity(a: Record, b: Record)
    requires LegalStep(a, b)
    ensures b.about == a.about && b.version == a.version + 1
    ensures a.Lifecycle().Revoked? ==> b.Lifecycle().Revoked?
  {
  }

  /** Whether a step is legal does not depend on when or why a record was written. */
  lemma StepReadsBodies(a: Record, a': Record, b: Record)
    requires SameBody(a, a') && LegalStep(a, b)
    ensures LegalStep(a', b)
  {
  }

  lemma ChainExtends(h: History, n: int, r: Record)
    requires Chain(h, n) && LegalStep(h[n], r)
    ensures Chain(h[r.version := r], n + 1)
  {
    StepKeepsIdentity(h[n], r);
    var g := h[r.version := r];
    forall v {:trigger LegalAt(g, v)} | 1 <= v < n + 1
      ensures LegalAt(g, v)
    {
      assert v < n ==> LegalAt(h, v);
    }
  }

  lemma RecordExtends(row: Row, h: History, id: RecordId, r: Record)
    requires RecordOk(row, h, id) && LegalStep(row.body, r)
    ensures r.Id() == id && r.Workspace() == row.workspace
    ensures RecordOk(Row(row.workspace, r), h[r.version := r], id)
  {
    StepKeepsIdentity(row.body, r);
    ChainExtends(h, row.body.version, r);
  }

  /** What the visible record's history is, in a valid store. */
  lemma ServedIsChain(s: Store, ws: Workspace, id: RecordId)
    requires Wf(s.local) && Wf(s.common) && Get(s, ws, id).Some?
    ensures RecordOk(Row(ws, Get(s, ws, id).value), ServedHistory(s, ws, id), id)
  {
    var layer := if Holds(s.local, ws, id) then s.local else s.common;
    assert Sound(layer, id);
  }

  lemma SeenUnderItsName(s: Store, ws: Workspace, id: RecordId)
    requires Wf(s.local) && Wf(s.common) && Get(s, ws, id).Some?
    ensures Get(s, ws, id).value.Id() == id && Get(s, ws, id).value.Workspace() == ws
  {
    ServedIsChain(s, ws, id);
  }

  /** A record a write sees is local with all its history, or common and copied with all of it. */
  lemma CopiesWhatWasServed(s: Store, ws: Workspace, id: RecordId)
    requires Keyed(s.local) && Agree(s.local, s.common) && LayerOf(s, ws, id).Some?
    ensures Inherited(s, ws, id) + HistoryOf(s.local, id) == ServedHistory(s, ws, id)
    ensures id in s.local.records ==> s.local.records[id].workspace == ws
  {
    if !Holds(s.local, ws, id) {
      assert id !in s.local.records;
      assert id !in s.local.versions.Keys;
      assert HistoryOf(s.local, id) == map[];
    }
  }

  /** A write prolongs the history the reader saw, whichever layer served it. */
  lemma WriteExtendsHistory(s: Store, r: Record)
    requires Valid(s) && Follows(s, r)
    ensures Extended(s, r) == ServedHistory(s, r.Workspace(), r.Id())[r.version := r]
    ensures Upserted(s.local, r) == Row(r.Workspace(), r)
  {
    CopiesWhatWasServed(s, r.Workspace(), r.Id());
  }

  lemma FreshHistory(s: Store, r: Record)
    requires Keyed(s.local) && Fresh(s, r)
    ensures Extended(s, r) == map[1 := r] && Upserted(s.local, r) == Row(r.Workspace(), r)
  {
    assert LayerOf(s, r.Workspace(), r.Id()) == None;
    assert r.Id() !in s.local.versions.Keys;
  }

  lemma WrittenIsOk(s: Store, r: Record)
    requires Valid(s) && (Follows(s, r) || Fresh(s, r))
    ensures Upserted(s.local, r) == Row(r.Workspace(), r)
    ensures RecordOk(Row(r.Workspace(), r), Extended(s, r), r.Id())
    ensures r.Id() in s.common.records ==> s.common.records[r.Id()].workspace == r.Workspace()
  {
    if Follows(s, r) {
      WriteExtendsHistory(s, r);
      ServedIsChain(s, r.Workspace(), r.Id());
      RecordExtends(Row(r.Workspace(), Get(s, r.Workspace(), r.Id()).value),
                    ServedHistory(s, r.Workspace(), r.Id()), r.Id(), r);
    } else {
      FreshHistory(s, r);
    }
  }

  /** A written record's row stays in its workspace. */
  lemma RowStays(s: Store, r: Record)
    requires Valid(s) && (Follows(s, r) || Fresh(s, r))
    ensures Upserted(s.local, r) == Row(r.Workspace(), r)
  {
    WrittenIsOk(s, r);
  }

  /** Any set of legal next versions and first versions leaves the store well formed. */
  lemma WriteAllPreserves(s: Store, m: map<RecordId, Record>)
    requires Valid(s)
    requires forall id :: id in m ==> m[id].Id() == id && (Follows(s, m[id]) || Fresh(s, m[id]))
    ensures Valid(Store(WriteAll(s, m), s.common))
  {
    var t := WriteAll(s, m);
    forall id
      ensures Sound(t, id)
      ensures id in t.records && id in s.common.records ==> t.records[id].workspace == s.common.records[id].workspace
    {
      assert Sound(s.local, id);
      if id in m {
        WrittenIsOk(s, m[id]);
      }
    }
  }

  /** One legal version written keeps a store valid. */
  lemma WriteKeepsValid(s: Store, r: Record)
    ensures Valid(s) && (Follows(s, r) || Fresh(s, r)) ==> Valid(Store(Write(s, r), s.common))
  {
    if Valid(s) && (Follows(s, r) || Fresh(s, r)) { WriteAllPreserves(s, map[r.Id() := r]); }
  }
}
