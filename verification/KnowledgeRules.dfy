/**
  The operations of the knowledge store as functions of what it holds: which
  record each would write, or why it refuses, and what writing it changes in
  the flat map a reader sees.
 */
module KnowledgeRules {
  import opened Wrappers
  import opened KnowledgeModel
  import opened Strings

  const STATEMENT_CHARS := 600
  const SUBJECT_CHARS := 120
  const QUOTE_CHARS := 400
  const SUBJECT_FALLBACK := 60

  /** The text functions a store uses, left uninterpreted. */
  datatype Lexicon = Lexicon(
    strip: string -> string, squeeze: string -> string, words: string -> string, normalise: string -> string,
    tags: seq<string> -> seq<string>, instruction: string -> bool, transient: string -> bool)

  /** The files under a workspace's root while one call runs. */
  datatype Worktree = Worktree(
    read: string -> Option<string>, digest: string -> string, decode: string -> string, normpath: string -> string)

  datatype Error =
    | NoWorkspace | NoStatement | TooLong | ReadsAsInstruction | ReadsAsMoment | NeedsFile
    | NoSuchRecord | WrongState(lifecycle: Lifecycle) | BadStatement

  /** What `add` is given. */
  datatype Draft = Draft(
    kind: Kind, subject: string, statement: string, provenance: Provenance, verification: Option<Verification>,
    tags: seq<string>, paths: seq<string>, sources: seq<SourceRef>)

  function Take(s: string, n: nat): string {
    if |s| <= n then s else s[..n]
  }

  // --------------------------------------------------------------- recording

  /** The draft as it is stored: trimmed, and with a subject. */
  function Cleaned(lex: Lexicon, d: Draft): Draft {
    var statement := lex.squeeze(d.statement);
    d.(subject := lex.strip(d.subject), statement := statement)
  }

  function SubjectOf(d: Draft): string {
    if d.subject == "" then Take(d.statement, SUBJECT_FALLBACK) else d.subject
  }

  /** Why a cleaned draft is refused before anything is looked up. */
  function Refusal(lex: Lexicon, ws: Workspace, d: Draft): Option<Error> {
    if ws == "" then Some(NoWorkspace)
    else if d.statement == "" then Some(NoStatement)
    else if |d.statement| > STATEMENT_CHARS || |d.subject| > SUBJECT_CHARS then Some(TooLong)
    else if lex.instruction(d.statement) then Some(ReadsAsInstruction)
    else if lex.transient(d.statement) then Some(ReadsAsMoment)
    else None
  }

  function Bindings(sources: seq<SourceRef>): multiset<(string, string)> {
    multiset(seq(|sources|, i requires 0 <= i < |sources| => (sources[i].kind, sources[i].locator)))
  }

  /** Same kind, subject and statement word for word, same sources. */
  predicate SaysTheSame(lex: Lexicon, r: Record, kind: Kind, subject: string, statement: string,
                        sources: seq<SourceRef>)
  {
    && r.about.kind == kind && lex.words(r.about.subject) == lex.words(subject)
    && lex.words(r.claim.statement) == lex.words(statement) && Bindings(r.claim.sources) == Bindings(sources)
  }

  predicate IsDuplicate(lex: Lexicon, s: Store, ws: Workspace, r: Record, kind: Kind, subject: string,
                        statement: string, sources: seq<SourceRef>)
  {
    && Get(s, ws, r.Id()) == Some(r)
    && (r.Lifecycle().Active? || r.Lifecycle().Proposed?)
    && SaysTheSame(lex, r, kind, subject, statement, sources)
  }

  predicate HasDuplicate(lex: Lexicon, s: Store, ws: Workspace, kind: Kind, subject: string, statement: string,
                         sources: seq<SourceRef>)
  {
    exists id :: id in View(s, ws)
      && IsDuplicate(lex, s, ws, View(s, ws)[id], kind, subject, statement, sources)
  }

  predicate RestsOnFile(sources: seq<SourceRef>) {
    exists i :: 0 <= i < |sources| && sources[i].kind == FILE && sources[i].digest != ""
  }

  /** The first version of a draft nothing refuses and nothing repeats. */
  function Created(lex: Lexicon, ws: Workspace, d: Draft, id: RecordId, now: Time): Result<Record, Error> {
    var first := (v: Verification, l: Lifecycle) =>
      Record(Identity(id, ws, d.kind, SubjectOf(d), lex.tags(d.tags), d.paths, now),
             Claim(d.statement, d.provenance, v, l, d.sources), 1, now, "created");
    match d.provenance
    case ByUser => Success(first(UserConfirmed, Active))
    case ByProjectSource =>
      if RestsOnFile(d.sources) then Success(first(SourceVerified, Active)) else Failure(NeedsFile)
    case _ =>
      var default := if d.provenance.ByToolObservation? then Observed else Unverified;
      Success(first(if d.verification.Some? then d.verification.value else default, Proposed))
  }

  // --------------------------------------------------------------- operators

  /** The next version of a record, making a new claim. */
  function Next(r: Record, claim: Claim, now: Time, reason: string): Record {
    Record(r.about, claim, r.version + 1, now, reason)
  }

  function Own(s: Store, ws: Workspace, id: RecordId): Result<Record, Error> {
    match Get(s, ws, id)
    case Some(r) => Success(r)
    case None => Failure(NoSuchRecord)
  }

  function Accepted(s: Store, ws: Workspace, id: RecordId, now: Time): Result<Record, Error> {
    match Own(s, ws, id)
    case Failure(e) => Failure(e)
    case Success(r) =>
      if !r.Lifecycle().Proposed? then Failure(WrongState(r.Lifecycle()))
      else Success(Next(r, r.claim.(lifecycle := Active, verification := UserConfirmed), now, "accepted by the operator"))
  }

  function Amended(lex: Lexicon, s: Store, ws: Workspace, id: RecordId, text: string, now: Time)
    : Result<Record, Error>
  {
    match Own(s, ws, id)
    case Failure(e) => Failure(e)
    case Success(r) =>
      var statement := lex.squeeze(text);
      if r.Lifecycle().Revoked? then Failure(WrongState(Revoked))
      else if statement == "" || lex.instruction(statement) || |statement| > STATEMENT_CHARS then Failure(BadStatement)
      else Success(Next(r, Claim(statement, ByUser, UserConfirmed, Active, []), now, "amended by the operator"))
  }

  function Withdrawn(s: Store, ws: Workspace, id: RecordId, why: string, now: Time): Result<Record, Error> {
    match Own(s, ws, id)
    case Failure(e) => Failure(e)
    case Success(r) =>
      Success(Next(r, r.claim.(lifecycle := Revoked), now, if why == "" then "revoked by the operator" else why))
  }

  /** The local tables after an operation that writes one record, or refuses. */
  function Committed(s: Store, result: Result<Record, Error>): Tables {
    if result.Success? then Write(s, result.value) else s.local
  }

  // ----------------------------------------------------------- keeping it true

  function FileDigest(tree: Worktree, path: string): Option<string> {
    match tree.read(path)
    case Some(data) => Some(tree.digest(data))
    case None => None
  }

  predicate Current(tree: Worktree, source: SourceRef) {
    source.kind == FILE ==> FileDigest(tree, source.locator) == Some(source.digest)
  }

  /** The files, in order, that no longer read as a record's sources say. */
  function Changed(tree: Worktree, sources: seq<SourceRef>): seq<string> {
    if sources == [] then []
    else (if Current(tree, sources[0]) then [] else [sources[0].locator]) + Changed(tree, sources[1..])
  }

  /** A digest that is missing, or empty, reads as a missing file. */
  function StaleReason(tree: Worktree, changed: seq<string>): string {
    Join(", ", changed)
    + if forall p :: p in changed ==> FileDigest(tree, p) != None && FileDigest(tree, p) != Some("")
      then " changed since the fact was verified" else " is gone"
  }

  predicate Unsupported(tree: Worktree, r: Record) {
    r.Lifecycle().Active? && Changed(tree, r.claim.sources) != []
  }

  function MarkedStale(tree: Worktree, r: Record, now: Time): Record {
    Next(r, r.claim.(lifecycle := Stale), now, StaleReason(tree, Changed(tree, r.claim.sources)))
  }

  /** What `validate` writes over what a workspace sees: each write at its own instant. */
  function StaleAmong(view: map<RecordId, Record>, tree: Worktree, clock: RecordId -> Time): map<RecordId, Record> {
    map id | id in view && Unsupported(tree, view[id]) :: MarkedStale(tree, view[id], clock(id))
  }

  predicate At(text: string, quote: string, i: int) {
    0 <= i <= |text| - |quote| && text[i..i + |quote|] == quote
  }

  predicate Contains(text: string, quote: string) {
    exists i :: 0 <= i <= |text| && At(text, quote, i)
  }

  predicate Outside(path: string) {
    (|path| >= 2 && path[..2] == "..") || (|path| >= 1 && path[0] == '/')
  }

  /** The evidence for a quote, with no line named: the file as it reads now, if it still holds the quote. */
  function Evidence(tree: Worktree, path: string, quote: string): Option<SourceRef> {
    var relative := tree.normpath(path);
    var wanted := Take(quote, QUOTE_CHARS);
    if Outside(relative) || tree.read(relative) == None || quote == "" then None
    else
      var data := tree.read(relative).value;
      if Contains(tree.decode(data), wanted) then Some(SourceRef(FILE, relative, tree.digest(data), None, wanted))
      else None
  }

  /** Every source bound again to the files as they are, or None when one is missing. */
  function Rebound(tree: Worktree, sources: seq<SourceRef>): Option<seq<SourceRef>> {
    if sources == [] then Some([])
    else
      var source := sources[0];
      var again := if source.kind == FILE then Evidence(tree, source.locator, source.quote) else Some(source);
      var rest := Rebound(tree, sources[1..]);
      if again == None || rest == None then None
      else Some([again.value.(line := source.line)] + rest.value)
  }

  predicate Supported(tree: Worktree, r: Record) {
    && r.Lifecycle().Stale? && Rebound(tree, r.claim.sources).Some? && Rebound(tree, r.claim.sources).value != []
  }

  function Restored(tree: Worktree, r: Record, now: Time): Record
    requires Supported(tree, r)
  {
    Next(r, r.claim.(sources := Rebound(tree, r.claim.sources).value, lifecycle := Active), now, "the evidence was found again")
  }

  /** What `revalidate` writes over what a workspace sees. */
  function RestoredAmong(view: map<RecordId, Record>, tree: Worktree, clock: RecordId -> Time)
    : map<RecordId, Record>
  {
    map id | id in view && Supported(tree, view[id]) :: Restored(tree, view[id], clock(id))
  }

  // ------------------------------------------------------------ what a draft becomes

  /** A draft that may be recorded: a lasting fact of some workspace, not too long, and no instruction. */
  predicate Lasts(lex: Lexicon, ws: Workspace, draft: Draft) {
    && ws != "" && 1 <= |lex.squeeze(draft.statement)| <= 600 && |lex.strip(draft.subject)| <= 120
    && !lex.instruction(lex.squeeze(draft.statement)) && !lex.transient(lex.squeeze(draft.statement))
  }

  predicate IsDigested(source: SourceRef) {
    source.kind == "file" && source.digest != ""
  }

  /** The first version says what the draft said, under the draft's name or the start of its statement; only what
      the user says, or a file bears out, is active. */
  predicate IsDraft(lex: Lexicon, r: Record, draft: Draft, ws: Workspace, id: RecordId, now: Time) {
    var said, subject := lex.squeeze(draft.statement), lex.strip(draft.subject);
    && r.version == 1 && r.updatedAt == now && r.about.createdAt == now && r.Id() == id && r.Workspace() == ws
    && r.about.kind == draft.kind && r.about.paths == draft.paths && r.about.tags == lex.tags(draft.tags)
    && (if subject != "" then r.about.subject == subject
        else r.about.subject <= said && |r.about.subject| == if |said| <= 60 then |said| else 60)
    && r.claim.statement == said && r.claim.sources == draft.sources && r.claim.provenance == draft.provenance
    && (r.Lifecycle().Active? <==> draft.provenance.ByUser? || draft.provenance.ByProjectSource?)
    && (r.Lifecycle().Proposed? <==> ProposeOnly(draft.provenance))
    && (r.claim.verification.UserConfirmed? && ProposeOnly(draft.provenance) ==> draft.verification == Some(UserConfirmed))
    && (ProposeOnly(draft.provenance) && draft.verification.Some? ==> r.claim.verification == draft.verification.value)
    && (ProposeOnly(draft.provenance) && draft.verification.None? ==>
          r.claim.verification == if draft.provenance.ByToolObservation? then Observed else Unverified)
  }

  lemma RefusedIff(lex: Lexicon, ws: Workspace, draft: Draft)
    ensures Refusal(lex, ws, Cleaned(lex, draft)).None? <==> Lasts(lex, ws, draft)
  {
  }

  /** Why a draft is refused: the first of these, in this order. */
  lemma RefusedWhy(lex: Lexicon, ws: Workspace, draft: Draft)
    ensures var why := Refusal(lex, ws, Cleaned(lex, draft)); var said := lex.squeeze(draft.statement);
            && (why == Some(NoWorkspace) <==> ws == "")
            && (why == Some(NoStatement) ==> said == "") && (ws != "" && said == "" ==> why == Some(NoStatement))
            && (why == Some(TooLong) ==> |said| > 600 || |lex.strip(draft.subject)| > 120)
            && (why == Some(ReadsAsInstruction) ==> lex.instruction(said)) && (why == Some(ReadsAsMoment) ==> lex.transient(said))
  {
  }

  lemma CreatedSays(lex: Lexicon, ws: Workspace, draft: Draft, id: RecordId, now: Time)
    ensures var made := Created(lex, ws, Cleaned(lex, draft), id, now);
            && (made.Success? ==> IsDraft(lex, made.value, draft, ws, id, now))
            && (made.Failure? <==> draft.provenance.ByProjectSource? && !exists i :: 0 <= i < |draft.sources| && IsDigested(draft.sources[i]))
  {
    assert RestsOnFile(draft.sources) <==> exists i :: 0 <= i < |draft.sources| && IsDigested(draft.sources[i]);
  }

  lemma IdIsNew(s: Store, ws: Workspace, id: RecordId)
    requires id !in s.local.records && id !in s.common.records
    ensures id !in View(s, ws)
  {
  }

  // ------------------------------------------------------- all of it is legal

  lemma NextFollows(s: Store, ws: Workspace, id: RecordId, claim: Claim, now: Time, why: string)
    requires Valid(s) && Get(s, ws, id).Some?
    requires LegalStep(Get(s, ws, id).value, Next(Get(s, ws, id).value, claim, now, why))
    ensures Follows(s, Next(Get(s, ws, id).value, claim, now, why))
    ensures Get(s, ws, id).value.Id() == id && Get(s, ws, id).value.Workspace() == ws
  {
    SeenUnderItsName(s, ws, id);
  }

  lemma AcceptedFollows(s: Store, ws: Workspace, id: RecordId, now: Time)
    requires Valid(s) && Accepted(s, ws, id, now).Success?
    ensures Follows(s, Accepted(s, ws, id, now).value)
    ensures Get(s, ws, id).Some? && Accepts(Get(s, ws, id).value, Accepted(s, ws, id, now).value)
  {
    var next := Accepted(s, ws, id, now).value;
    NextFollows(s, ws, id, next.claim, now, next.reason);
  }

  lemma AmendedFollows(lex: Lexicon, s: Store, ws: Workspace, id: RecordId, text: string, now: Time)
    requires Valid(s) && Amended(lex, s, ws, id, text, now).Success?
    ensures Follows(s, Amended(lex, s, ws, id, text, now).value)
    ensures Get(s, ws, id).Some? && Amends(Get(s, ws, id).value, Amended(lex, s, ws, id, text, now).value)
  {
    var next := Amended(lex, s, ws, id, text, now).value;
    assert Amends(Get(s, ws, id).value, next);
    NextFollows(s, ws, id, next.claim, now, next.reason);
  }

  lemma WithdrawnFollows(s: Store, ws: Workspace, id: RecordId, why: string, now: Time)
    requires Valid(s) && Withdrawn(s, ws, id, why, now).Success?
    ensures Follows(s, Withdrawn(s, ws, id, why, now).value)
    ensures Get(s, ws, id).Some? && Revokes(Get(s, ws, id).value, Withdrawn(s, ws, id, why, now).value)
  {
    var next := Withdrawn(s, ws, id, why, now).value;
    NextFollows(s, ws, id, next.claim, now, next.reason);
  }

  lemma CreatedIsInitial(lex: Lexicon, ws: Workspace, d: Draft, id: RecordId, now: Time)
    requires Created(lex, ws, d, id, now).Success?
    ensures Initial(Created(lex, ws, d, id, now).value) && Created(lex, ws, d, id, now).value.Id() == id
  {
  }

  /** What the operator may do to a record is decided by what is served of it, and by nothing else. */
  lemma OperatorMayIff(lex: Lexicon, s: Store, ws: Workspace, id: RecordId, text: string, now: Time)
    requires Valid(s)
    ensures Accepted(s, ws, id, now).Success? <==> id in View(s, ws) && View(s, ws)[id].Lifecycle().Proposed?
    ensures Withdrawn(s, ws, id, text, now).Success? <==> id in View(s, ws)
    ensures Amended(lex, s, ws, id, text, now).Success?
            <==> && id in View(s, ws) && !View(s, ws)[id].Lifecycle().Revoked?
                 && 0 < |lex.squeeze(text)| <= STATEMENT_CHARS && !lex.instruction(lex.squeeze(text))
  {
    GetReadsView(s, ws, id);
  }

  lemma GetReadsView(s: Store, ws: Workspace, id: RecordId)
    ensures Get(s, ws, id) == if id in View(s, ws) then Some(View(s, ws)[id]) else None
  {
  }
}
