/**
  The store as the program keeps it: two tables updated in place, over a
  common layer that is only read. Every method is proved against the functions
  of `KnowledgeRules` and `Consolidation`.
 */
module KnowledgeStore {
  import opened Wrappers
  import opened KnowledgeModel
  import opened KnowledgeRules
  import opened KnowledgeLaws
  import opened Consolidation
  import Strings

  predicate Wanted(r: Record, lifecycles: set<Lifecycle>) {
    lifecycles == {} || r.Lifecycle() in lifecycles
  }

  /** The wanted records of a view, each once, oldest first. */
  ghost predicate Listing(view: map<RecordId, Record>, lifecycles: set<Lifecycle>, rs: seq<Record>) {
    && (forall i :: 0 <= i < |rs| ==> rs[i].Id() in view && view[rs[i].Id()] == rs[i] && Wanted(rs[i], lifecycles))
    && (forall i, j :: 0 <= i < j < |rs| ==> rs[i].Id() != rs[j].Id())
    && (forall id :: id in view && Wanted(view[id], lifecycles) ==> exists k :: 0 <= k < |rs| && rs[k].Id() == id)
    && OldestFirst(rs)
  }

  predicate OldestFirst(rs: seq<Record>) {
    forall i, j :: 0 <= i < j < |rs| ==> rs[i].about.createdAt <= rs[j].about.createdAt
  }

  /** Where `r` goes: after the records no younger than it. */
  function Position(rs: seq<Record>, r: Record): (k: nat)
    requires OldestFirst(rs)
    ensures k <= |rs|
    ensures forall i :: 0 <= i < k ==> rs[i].about.createdAt <= r.about.createdAt
    ensures forall i :: k <= i < |rs| ==> r.about.createdAt < rs[i].about.createdAt
  {
    if rs == [] || rs[|rs| - 1].about.createdAt <= r.about.createdAt then |rs| else Position(rs[..|rs| - 1], r)
  }

  function Inserted(rs: seq<Record>, r: Record): (out: seq<Record>)
    requires OldestFirst(rs)
    ensures |out| == |rs| + 1 && out[Position(rs, r)] == r
    ensures forall i :: 0 <= i < |out| && i != Position(rs, r) ==>
              out[i] == rs[if i < Position(rs, r) then i else i - 1]
    ensures OldestFirst(out)
  {
    var k := Position(rs, r);
    rs[..k] + [r] + rs[k..]
  }

  lemma InsertedKeepsIds(rs: seq<Record>, r: Record, id: RecordId)
    requires OldestFirst(rs)
    requires id == r.Id() || exists k :: 0 <= k < |rs| && rs[k].Id() == id
    ensures var out := Inserted(rs, r);
            exists k :: 0 <= k < |out| && out[k].Id() == id
  {
    var p, out := Position(rs, r), Inserted(rs, r);
    if id == r.Id() {
      assert out[p].Id() == id;
    } else {
      var k :| 0 <= k < |rs| && rs[k].Id() == id;
      assert out[if k < p then k else k + 1] == rs[k];
    }
  }

  lemma InsertedHasOnce(rs: seq<Record>, r: Record)
    requires OldestFirst(rs)
    requires forall i, j :: 0 <= i < j < |rs| ==> rs[i].Id() != rs[j].Id()
    requires forall i :: 0 <= i < |rs| ==> rs[i].Id() != r.Id()
    ensures var out := Inserted(rs, r);
            forall i, j :: 0 <= i < j < |out| ==> out[i].Id() != out[j].Id()
  {
  }

  lemma InsertedAreWanted(view: map<RecordId, Record>, lifecycles: set<Lifecycle>, rs: seq<Record>, r: Record)
    requires OldestFirst(rs) && Wanted(r, lifecycles)
    requires forall i :: 0 <= i < |rs| ==>
               rs[i].Id() in view && rs[i].Id() != r.Id() && view[rs[i].Id()] == rs[i] && Wanted(rs[i], lifecycles)
    ensures var out, grown := Inserted(rs, r), view[r.Id() := r];
            forall i :: 0 <= i < |out| ==>
              out[i].Id() in grown && grown[out[i].Id()] == out[i] && Wanted(out[i], lifecycles)
  {
  }

  lemma InsertedIsListed(view: map<RecordId, Record>, lifecycles: set<Lifecycle>, rs: seq<Record>, r: Record)
    requires Listing(view, lifecycles, rs) && r.Id() !in view && Wanted(r, lifecycles)
    ensures Listing(view[r.Id() := r], lifecycles, Inserted(rs, r))
  {
    hide Wanted;
    var grown, out := view[r.Id() := r], Inserted(rs, r);
    InsertedHasOnce(rs, r);
    InsertedAreWanted(view, lifecycles, rs, r);
    forall id | id in grown && Wanted(grown[id], lifecycles) ensures exists k :: 0 <= k < |out| && out[k].Id() == id {
      InsertedKeepsIds(rs, r, id);
    }
  }

  class KnowledgeStore {
    var records: map<RecordId, Row>
    var versions: map<RecordId, History>
    const common: Tables

    function Local(): Tables
      reads this
    {
      Tables(records, versions)
    }

    function Now(): Store
      reads this
    {
      Store(Local(), common)
    }

    constructor (common: Tables)
      ensures Now() == Store(EMPTY, common)
    {
      records, versions, this.common := map[], map[], common;
    }

    // ---------------------------------------------------------------- writing

    /** The one place a record is written: copy down what is inherited, then add the new version. */
    method WriteRecord(r: Record)
      modifies this
      ensures Local() == Write(old(Now()), r)
      ensures old(Valid(Now())) && (Follows(old(Now()), r) || Fresh(old(Now()), r)) ==> Valid(Now())
    {
      WriteKeepsValid(Now(), r);
      var inherited := if LayerOf(Now(), r.Workspace(), r.Id()) == Some(Common) then HistoryOf(common, r.Id()) else map[];
      var kept := inherited + HistoryOf(Local(), r.Id());
      WriteIs(Now(), r);
      var ws := if r.Id() in records then records[r.Id()].workspace else r.Workspace();
      records := records[r.Id() := Row(ws, r)];
      versions := versions[r.Id() := kept[r.version := r]];
    }

    method Add(lex: Lexicon, ws: Workspace, draft: Draft, id: RecordId, now: Time)
        returns (result: Result<Record, Error>)
      requires Valid(Now())
      requires id !in records && id !in common.records
      modifies this
      ensures var d := Cleaned(lex, draft);
              if Refusal(lex, ws, d).Some? then
                result == Failure(Refusal(lex, ws, d).value) && Now() == old(Now())
              else if HasDuplicate(lex, old(Now()), ws, d.kind, SubjectOf(d), d.statement, d.sources) then
                && result.Success? && Now() == old(Now())
                && IsDuplicate(lex, Now(), ws, result.value, d.kind, SubjectOf(d), d.statement, d.sources)
              else
                result == Created(lex, ws, d, id, now) && Local() == Committed(old(Now()), result)
      ensures Valid(Now())
      ensures result.Success? ==> Lasts(lex, ws, draft)
      ensures Lasts(lex, ws, draft) && result.Failure? ==>
                draft.provenance.ByProjectSource? && !exists i :: 0 <= i < |draft.sources| && IsDigested(draft.sources[i])
      ensures View(Now(), ws) != View(old(Now()), ws) ==>
                result.Success? && View(Now(), ws) == View(old(Now()), ws)[id := result.value]
      ensures id in View(Now(), ws) ==> result.Success? && View(Now(), ws)[id] == result.value && IsDraft(lex, result.value, draft, ws, id, now)
    {
      var d := Cleaned(lex, draft);
      IdIsNew(Now(), ws, id);
      RefusedIff(lex, ws, draft);
      if Refusal(lex, ws, d).Some? {
        return Failure(Refusal(lex, ws, d).value);
      }
      var same := FindDuplicate(lex, ws, d.kind, SubjectOf(d), d.statement, d.sources);
      if same.Some? {
        assert same.value.Id() in View(Now(), ws) by { GetReadsView(Now(), ws, same.value.Id()); }
        return Success(same.value);
      }
      result := Created(lex, ws, d, id, now);
      if result.Success? {
        CreatedIsInitial(lex, ws, d, id, now);
        CreatedSays(lex, ws, draft, id, now);
        OneIsShown(Now(), result.value);
        WriteRecord(result.value);
      }
    }

    method Commit(result: Result<Record, Error>)
      requires Valid(Now()) && (result.Success? ==> Follows(Now(), result.value))
      modifies this
      ensures Local() == Committed(old(Now()), result)
      ensures Valid(Now())
    {
      if result.Success? {
        WriteRecord(result.value);
      }
    }

    method Accept(ws: Workspace, id: RecordId, now: Time) returns (result: Result<Record, Error>)
      requires Valid(Now())
      modifies this
      ensures result == Accepted(old(Now()), ws, id, now) && Local() == Committed(old(Now()), result)
      ensures Valid(Now())
      ensures result.Success? ==>
                var before := View(old(Now()), ws);
                && id in before && View(Now(), ws) == before[id := result.value] && result.value.updatedAt == now
                && Bumps(before[id], result.value, before[id].claim.(lifecycle := Active, verification := UserConfirmed))
      ensures result == Failure(NoSuchRecord) <==> id !in View(old(Now()), ws)
    {
      hide Accepted, View, Valid, Follows, Committed, Bumps;
      result := Accepted(Now(), ws, id, now);
      AcceptShows(Now(), ws, id, now);
      Commit(result);
    }

    method Amend(lex: Lexicon, ws: Workspace, id: RecordId, text: string, now: Time)
        returns (result: Result<Record, Error>)
      requires Valid(Now())
      modifies this
      ensures result == Amended(lex, old(Now()), ws, id, text, now) && Local() == Committed(old(Now()), result)
      ensures Valid(Now())
      ensures result.Success? ==>
                var before := View(old(Now()), ws);
                && id in before && View(Now(), ws) == before[id := result.value] && result.value.updatedAt == now
                && Bumps(before[id], result.value, Claim(lex.squeeze(text), ByUser, UserConfirmed, Active, []))
      ensures result == Failure(NoSuchRecord) <==> id !in View(old(Now()), ws)
      ensures result == Failure(WrongState(Revoked))
              <==> id in View(old(Now()), ws) && View(old(Now()), ws)[id].Lifecycle().Revoked?
    {
      hide Amended, View, Valid, Follows, Committed, Bumps;
      result := Amended(lex, Now(), ws, id, text, now);
      AmendShows(lex, Now(), ws, id, text, now);
      Commit(result);
    }

    method Revoke(ws: Workspace, id: RecordId, why: string, now: Time) returns (result: Result<Record, Error>)
      requires Valid(Now())
      modifies this
      ensures result == Withdrawn(old(Now()), ws, id, why, now) && Local() == Committed(old(Now()), result)
      ensures Valid(Now())
      ensures result.Success? ==>
                var before := View(old(Now()), ws);
                && id in before && View(Now(), ws) == before[id := result.value] && result.value.updatedAt == now
                && Bumps(before[id], result.value, before[id].claim.(lifecycle := Revoked))
                && (why != "" ==> result.value.reason == why)
      ensures result.Failure? ==> result == Failure(NoSuchRecord) && id !in View(old(Now()), ws)
    {
      hide Withdrawn, View, Valid, Follows, Committed, Bumps;
      result := Withdrawn(Now(), ws, id, why, now);
      RevokeShows(Now(), ws, id, why, now);
      Commit(result);
    }

    method Purge(ws: Workspace) returns (deleted: nat)
      requires Valid(Now())
      modifies this
      ensures Local() == Purged(old(Local()), ws) && deleted == |Slice(old(Local()), ws)|
      ensures Valid(Now())
    {
      PurgeKeepsValid(Now(), ws);
      var ids := set id | id in records && records[id].workspace == ws;
      assert ids == Slice(Local(), ws).Keys;
      deleted := |ids|;
      versions := versions - ids;
      records := records - ids;
    }

    // ---------------------------------------------------------------- reading

    /** One layer's rows, put under those already seen. */
    method MergeUnder(seen: map<RecordId, Record>, rows: map<RecordId, Record>)
        returns (merged: map<RecordId, Record>)
      ensures merged == rows + seen
    {
      merged := seen;
      var waiting := rows.Keys;
      while waiting != {}
        invariant waiting <= rows.Keys
        invariant merged == (map id | id in rows && id !in waiting :: rows[id]) + seen
        decreases waiting
      {
        var id :| id in waiting;
        if id !in merged { merged := merged[id := rows[id]]; }
        waiting := waiting - {id};
      }
    }

    /** The lifecycle is filtered after the layers are merged. */
    method List(ws: Workspace, lifecycles: set<Lifecycle>) returns (rs: seq<Record>)
      requires Valid(Now())
      ensures Listing(View(Now(), ws), lifecycles, rs)
    {
      var merged := MergeUnder(map[], Slice(Local(), ws));
      merged := MergeUnder(merged, Slice(common, ws));
      assert merged == View(Now(), ws);
      forall id | id in merged ensures merged[id].Id() == id {
        SeenUnderItsName(Now(), ws, id);
      }
      rs := Sorted(merged, lifecycles);
    }

    static method Sorted(merged: map<RecordId, Record>, lifecycles: set<Lifecycle>) returns (rs: seq<Record>)
      requires forall id :: id in merged ==> merged[id].Id() == id
      ensures Listing(merged, lifecycles, rs)
    {
      rs := [];
      var waiting := merged.Keys;
      ghost var done: map<RecordId, Record> := map[];
      while waiting != {}
        invariant waiting <= merged.Keys && done.Keys == merged.Keys - waiting
        invariant forall id :: id in done ==> done[id] == merged[id]
        invariant Listing(done, lifecycles, rs)
        decreases waiting
      {
        var id :| id in waiting;
        var r := merged[id];
        if Wanted(r, lifecycles) {
          InsertedIsListed(done, lifecycles, rs, r);
          rs := Inserted(rs, r);
        }
        done := done[id := r];
        waiting := waiting - {id};
      }
      assert done == merged;
    }

    method FindDuplicate(lex: Lexicon, ws: Workspace, kind: Kind, subject: string, statement: string,
                         sources: seq<SourceRef>) returns (same: Option<Record>)
      requires Valid(Now())
      ensures same.Some? ==> IsDuplicate(lex, Now(), ws, same.value, kind, subject, statement, sources)
      ensures same.None? ==> !HasDuplicate(lex, Now(), ws, kind, subject, statement, sources)
    {
      hide Valid, View, SaysTheSame, IsDuplicate, HasDuplicate;
      var rs := List(ws, {Active, Proposed});
      var i := 0;
      while i < |rs|
        invariant 0 <= i <= |rs|
        invariant forall k :: 0 <= k < i ==> !SaysTheSame(lex, rs[k], kind, subject, statement, sources)
      {
        if SaysTheSame(lex, rs[i], kind, subject, statement, sources) {
          ListedIsDuplicate(lex, Now(), ws, rs[i], kind, subject, statement, sources);
          return Some(rs[i]);
        }
        i := i + 1;
      }
      NoneListed(lex, Now(), ws, rs, kind, subject, statement, sources);
      same := None;
    }

    // ------------------------------------------------------- keeping it true

    /** The changed files of one record, each file digested once for the whole call. */
    static method FindChanged(tree: Worktree, sources: seq<SourceRef>, digests: map<string, Option<string>>)
        returns (changed: seq<string>, cache: map<string, Option<string>>)
      requires Cached(tree, digests)
      ensures Cached(tree, cache) && changed == Changed(tree, sources)
      ensures forall path :: path in changed ==> path in cache
    {
      changed, cache := [], digests;
      var k := 0;
      assert sources[..0] == [];
      while k < |sources|
        invariant 0 <= k <= |sources| && Cached(tree, cache)
        invariant changed == Changed(tree, sources[..k])
        invariant forall path :: path in changed ==> path in cache
      {
        var source := sources[k];
        ChangedNext(tree, sources, k);
        if source.kind == FILE {
          if source.locator !in cache {
            cache := cache[source.locator := FileDigest(tree, source.locator)];
          }
          if cache[source.locator] != Some(source.digest) {
            changed := changed + [source.locator];
          }
        }
        k := k + 1;
      }
      assert sources[..k] == sources;
    }

    /** Why a record is marked, from the digests there already are. */
    static function Why(ghost tree: Worktree, changed: seq<string>, digests: map<string, Option<string>>): (why: string)
      requires Cached(tree, digests) && forall p :: p in changed ==> p in digests
      ensures why == StaleReason(tree, changed)
    {
      Strings.Join(", ", changed)
      + if forall p :: p in changed ==> digests[p] != None && digests[p] != Some("")
        then " changed since the fact was verified" else " is gone"
    }

    static function Marked(ghost tree: Worktree, r: Record, changed: seq<string>, digests: map<string, Option<string>>,
                           now: Time): (next: Record)
      requires Cached(tree, digests) && changed == Changed(tree, r.claim.sources)
      requires forall p :: p in changed ==> p in digests
      ensures next == MarkedStale(tree, r, now)
    {
      Next(r, r.claim.(lifecycle := Stale), now, Why(tree, changed, digests))
    }

    method ValidateFiles(ws: Workspace, tree: Worktree, clock: RecordId -> Time) returns (stale: seq<Record>)
      requires Valid(Now())
      modifies this
      ensures Now() == AfterValidate(old(Now()), ws, tree, clock)
      ensures Valid(Now())
      ensures Holding(stale, StaleAmong(View(old(Now()), ws), tree, clock))
    {
      hide WriteAll, Write, AfterValidate, Valid, View, StaleAmong, Marking, Follows, Fresh, Cached, Holding, Listing,
           Changed, Marked, MarkedStale;
      var rs := List(ws, {Active});
      ghost var s := Now();
      ghost var m: map<RecordId, Record> := map[];
      var digests := map[];
      stale := [];
      var i := 0;
      NothingCached(tree);
      NothingMarked(s, ws, tree, clock, rs);
      while i < |rs|
        invariant 0 <= i <= |rs| && Cached(tree, digests)
        invariant Marking(s, ws, tree, clock, rs, i, m, Local(), stale)
      {
        var r := rs[i];
        var changed;
        changed, digests := FindChanged(tree, r.claim.sources, digests);
        MarkOne(s, ws, tree, clock, rs, i, m, Local(), stale);
        if changed != [] {
          var next := Marked(tree, r, changed, digests, clock(r.Id()));
          WriteRecord(next);
          m := m[r.Id() := next];
          stale := stale + [next];
        }
        i := i + 1;
      }
      AllMarked(s, ws, tree, clock, rs, m, Local(), stale);
    }

    /** The sources bound again, in a loop that stops at the first one missing. */
    static method Rebind(tree: Worktree, sources: seq<SourceRef>) returns (again: Option<seq<SourceRef>>)
      ensures again == Rebound(tree, sources)
    {
      var bound := [];
      var k := 0;
      assert sources[0..] == sources;
      Bound([], Rebound(tree, sources));
      while k < |sources|
        invariant 0 <= k <= |sources|
        invariant Rebound(tree, sources) == After(bound, Rebound(tree, sources[k..]))
      {
        var source := sources[k];
        assert sources[k..][0] == source && sources[k..][1..] == sources[k + 1..];
        var found := if source.kind != FILE then Some(source) else Evidence(tree, source.locator, source.quote);
        if found == None {
          return None;
        }
        Bound(bound + [found.value.(line := source.line)], Rebound(tree, sources[k + 1..]));
        bound := bound + [found.value.(line := source.line)];
        k := k + 1;
      }
      assert sources[k..] == [];
      Bound(bound, Some([]));
      again := Some(bound);
    }

    method Revalidate(ws: Workspace, tree: Worktree, clock: RecordId -> Time) returns (restored: seq<Record>)
      requires Valid(Now())
      modifies this
      ensures Now() == AfterRevalidate(old(Now()), ws, tree, clock)
      ensures Valid(Now())
      ensures Holding(restored, RestoredAmong(View(old(Now()), ws), tree, clock))
    {
      hide WriteAll, Write, AfterRevalidate, Valid, View, RestoredAmong, Through, Supported;
      var rs := List(ws, {Stale});
      ghost var s, view := Now(), View(Now(), ws);
      ghost var all := RestoredAmong(view, tree, clock);
      ghost var m: map<RecordId, Record> := map[];
      restored := [];
      var i := 0;
      NothingWritten(s);
      NothingThrough(rs, all);
      while i < |rs|
        invariant 0 <= i <= |rs|
        invariant Local() == WriteAll(s, m)
        invariant Through(rs, i, all, m)
        invariant Holding(restored, m)
      {
        var r := rs[i];
        var sources := Rebind(tree, r.claim.sources);
        RestoredIff(view, tree, clock, r);
        OneMoreThrough(rs, i, all, m);
        if sources.Some? && sources.value != [] {
          var next := Next(r, r.claim.(sources := sources.value, lifecycle := Active), clock(r.Id()),
                           "the evidence was found again");
          WritesAccumulate(s, m, next);
          WriteRecord(next);
          HoldOneMore(restored, m, next);
          m := m[r.Id() := next];
          restored := restored + [next];
        }
        i := i + 1;
      }
      CandidatesAreListed(view, tree, clock);
      AllThrough(view, rs, all, m, {Stale});
      AfterRevalidateIs(s, ws, tree, clock);
      ChecksKeepValid(s, ws, tree, clock);
    }
  }

  // ------------------------------------------------------------ consolidation

  /** What merging `local` into `common` would do, record by record. */
  method ConsolidateStores(lex: Lexicon, common: KnowledgeStore, local: KnowledgeStore, names: seq<Workspace>)
      returns (outcomes: seq<Outcome>, rs: seq<Record>)
    requires Valid(common.Now()) && Valid(local.Now()) && common.common == EMPTY && local.common == EMPTY
    ensures FromStore(local.Local(), rs) && outcomes == Decide(lex, common.Local(), local.Local(), rs)
    ensures forall ws :: ws in names ==> Covers(rs, local.Local(), ws)
  {
    hide Valid, View, Listing, Covers, FromStore, MergeOne;
    outcomes, rs := [], [];
    var i := 0;
    NothingDecided(lex, common.Local(), local.Local());
    while i < |names|
      invariant 0 <= i <= |names|
      invariant FromStore(local.Local(), rs) && outcomes == Decide(lex, common.Local(), local.Local(), rs)
      invariant forall ws :: ws in names[..i] ==> Covers(rs, local.Local(), ws)
    {
      var listed := local.List(names[i], {});
      OwnRecords(local.Now(), names[i], listed);
      var j := 0;
      ghost var before := rs;
      assert rs == before + listed[..0];
      while j < |listed|
        invariant 0 <= j <= |listed| && rs == before + listed[..j]
        invariant FromStore(local.Local(), rs) && outcomes == Decide(lex, common.Local(), local.Local(), rs)
      {
        OneMoreDecided(lex, common.Local(), local.Local(), rs, listed, j);
        outcomes := outcomes + [Outcome(MergeOne(lex, common.Local(), local.Local(), listed[j]), listed[j])];
        rs := rs + [listed[j]];
        assert rs == before + listed[..j + 1];
        j := j + 1;
      }
      assert rs == before + listed;
      forall ws | ws in names[..i + 1] ensures Covers(rs, local.Local(), ws) {
        StillCovers(before, listed, local.Local(), ws);
      }
      i := i + 1;
    }
  }

  /** Every record the table holds for a workspace is in the list. */
  ghost predicate Covers(rs: seq<Record>, t: Tables, ws: Workspace) {
    forall id :: Holds(t, ws, id) ==> exists k :: 0 <= k < |rs| && rs[k].Id() == id
  }

  lemma StillCovers(before: seq<Record>, listed: seq<Record>, t: Tables, ws: Workspace)
    requires Covers(before, t, ws) || Covers(listed, t, ws)
    ensures Covers(before + listed, t, ws)
  {
    var rs := before + listed;
    forall id | Holds(t, ws, id) ensures exists k :: 0 <= k < |rs| && rs[k].Id() == id {
      if Covers(before, t, ws) {
        var k :| 0 <= k < |before| && before[k].Id() == id;
        assert rs[k] == before[k];
      } else {
        var k :| 0 <= k < |listed| && listed[k].Id() == id;
        assert rs[|before| + k] == listed[k];
      }
    }
  }

  lemma NothingDecided(lex: Lexicon, common: Tables, local: Tables)
    ensures FromStore(local, []) && Decide(lex, common, local, []) == []
  {
  }

  lemma OneMoreDecided(lex: Lexicon, common: Tables, local: Tables, rs: seq<Record>, listed: seq<Record>, j: int)
    requires FromStore(local, rs) && FromStore(local, listed) && 0 <= j < |listed|
    ensures FromStore(local, rs + [listed[j]])
    ensures Decide(lex, common, local, rs + [listed[j]])
            == Decide(lex, common, local, rs) + [Outcome(MergeOne(lex, common, local, listed[j]), listed[j])]
  {
    hide MergeOne;
  }

  /** Without a common layer, what is listed is what the local table holds. */
  lemma OwnRecords(s: Store, ws: Workspace, listed: seq<Record>)
    requires Valid(s) && s.common == EMPTY && Listing(View(s, ws), {}, listed)
    ensures FromStore(s.local, listed) && Covers(listed, s.local, ws)
  {
    forall i | 0 <= i < |listed|
      ensures Holds(s.local, listed[i].Workspace(), listed[i].Id())
      ensures s.local.records[listed[i].Id()].body == listed[i]
    {
      GetReadsView(s, ws, listed[i].Id());
      SeenUnderItsName(s, ws, listed[i].Id());
    }
    forall id | Holds(s.local, ws, id) ensures exists k :: 0 <= k < |listed| && listed[k].Id() == id {
      assert id in View(s, ws);
    }
  }

  /** What is counted is the additions, the updates and the revocations. */
  lemma {:induction false} CountIs(outcomes: seq<Outcome>)
    ensures var answers := multiset(seq(|outcomes|, i requires 0 <= i < |outcomes| => outcomes[i].action));
            Count(outcomes) == answers[Added] + answers[Updated] + answers[RevokedInCommon]
  {
    if outcomes != [] {
      var rest := outcomes[1..];
      CountIs(rest);
      assert seq(|outcomes|, i requires 0 <= i < |outcomes| => outcomes[i].action)
          == [outcomes[0].action] + seq(|rest|, i requires 0 <= i < |rest| => rest[i].action);
    }
  }

  function Count(outcomes: seq<Outcome>): nat {
    if outcomes == [] then 0 else (if Writes(outcomes[0].action) then 1 else 0) + Count(outcomes[1..])
  }

  /** Write the added, updated and revoked records into the common store, one at a time. */
  method ApplyConsolidation(common: KnowledgeStore, local: KnowledgeStore, outcomes: seq<Outcome>)
      returns (written: nat)
    requires common != local && Named(local.Local(), outcomes)
    modifies common
    ensures common.Local() == Apply(old(common.Local()), local.Local(), outcomes)
    ensures written == Count(outcomes)
  {
    written := 0;
    var i := 0;
    assert outcomes[0..] == outcomes;
    while i < |outcomes|
      invariant 0 <= i <= |outcomes|
      invariant Apply(common.Local(), local.Local(), outcomes[i..]) == Apply(old(common.Local()), local.Local(), outcomes)
      invariant written + Count(outcomes[i..]) == Count(outcomes)
    {
      var o := outcomes[i];
      assert outcomes[i..][0] == o && outcomes[i..][1..] == outcomes[i + 1..];
      if Writes(o.action) {
        var id := o.record.Id();
        var body := local.records[id].body;
        var mine := HistoryOf(local.Local(), id);
        var ws := if id in common.records then common.records[id].workspace else o.record.Workspace();
        ghost var next := ApplyOne(common.Local(), local.Local(), o.record);
        var theirs := HistoryOf(common.Local(), id);
        common.records := common.records[id := Row(ws, body)];
        common.versions := common.versions[id := mine + theirs];
        assert common.Local() == next;
        written := written + 1;
      }
      i := i + 1;
    }
  }

  lemma ListedIsDuplicate(lex: Lexicon, s: Store, ws: Workspace, r: Record, kind: Kind, subject: string,
                          statement: string, sources: seq<SourceRef>)
    requires r.Id() in View(s, ws) && View(s, ws)[r.Id()] == r && Wanted(r, {Active, Proposed})
    requires SaysTheSame(lex, r, kind, subject, statement, sources)
    ensures IsDuplicate(lex, s, ws, r, kind, subject, statement, sources)
  {
    GetReadsView(s, ws, r.Id());
  }

  lemma NoneListed(lex: Lexicon, s: Store, ws: Workspace, rs: seq<Record>, kind: Kind, subject: string,
                   statement: string, sources: seq<SourceRef>)
    requires Listing(View(s, ws), {Active, Proposed}, rs)
    requires forall k :: 0 <= k < |rs| ==> !SaysTheSame(lex, rs[k], kind, subject, statement, sources)
    ensures !HasDuplicate(lex, s, ws, kind, subject, statement, sources)
  {
  }

  /** What is bound already, followed by what is still to come, if all of it can be. */
  function After(bound: seq<SourceRef>, rest: Option<seq<SourceRef>>): Option<seq<SourceRef>> {
    match rest
    case None => None
    case Some(sources) => Some(bound + sources)
  }

  lemma Bound(bound: seq<SourceRef>, rest: Option<seq<SourceRef>>)
    ensures bound == [] ==> After(bound, rest) == rest
    ensures rest == Some([]) ==> After(bound, rest) == Some(bound)
    ensures bound != [] && rest.Some? ==>
              After(bound[..|bound| - 1], Some([bound[|bound| - 1]] + rest.value)) == After(bound, rest)
  {
    if rest.Some? {
      assert bound + [] == bound && [] + rest.value == rest.value;
      if bound != [] {
        assert bound[..|bound| - 1] + ([bound[|bound| - 1]] + rest.value) == bound + rest.value;
      }
    }
  }

  lemma {:induction false} ChangedNext(tree: Worktree, sources: seq<SourceRef>, k: int)
    requires 0 <= k < |sources|
    ensures Changed(tree, sources[..k + 1])
            == Changed(tree, sources[..k]) + if Current(tree, sources[k]) then [] else [sources[k].locator]
  {
    if k > 0 {
      ChangedNext(tree, sources[1..], k - 1);
      assert sources[..k + 1][1..] == sources[1..][..k] && sources[..k][1..] == sources[1..][..k - 1];
    } else {
      assert sources[..1][1..] == [] && sources[..0] == [];
    }
  }

  predicate Cached(tree: Worktree, digests: map<string, Option<string>>) {
    forall path :: path in digests ==> digests[path] == FileDigest(tree, path)
  }

  /** `m` is the part of `all` that belongs to the first `i` records. */
  ghost predicate Through(rs: seq<Record>, i: int, all: map<RecordId, Record>, m: map<RecordId, Record>)
    requires 0 <= i <= |rs|
  {
    && (forall id :: id in m ==> id in all && m[id] == all[id] && exists k :: 0 <= k < i && rs[k].Id() == id)
    && (forall k :: 0 <= k < i && rs[k].Id() in all ==> rs[k].Id() in m)
  }

  lemma MarkedIff(view: map<RecordId, Record>, tree: Worktree, clock: RecordId -> Time, r: Record)
    requires r.Id() in view && view[r.Id()] == r && r.Lifecycle().Active?
    ensures r.Id() in StaleAmong(view, tree, clock) <==> Changed(tree, r.claim.sources) != []
    ensures r.Id() in StaleAmong(view, tree, clock) ==>
              StaleAmong(view, tree, clock)[r.Id()] == MarkedStale(tree, r, clock(r.Id()))
  {
  }

  /** The first `i` records are looked at: `m` is what was marked of them, written and listed. */
  ghost predicate Marking(s: Store, ws: Workspace, tree: Worktree, clock: RecordId -> Time, rs: seq<Record>, i: int,
                          m: map<RecordId, Record>, local: Tables, stale: seq<Record>)
    requires 0 <= i <= |rs|
  {
    && Listing(View(s, ws), {Active}, rs) && Through(rs, i, StaleAmong(View(s, ws), tree, clock), m)
    && local == WriteAll(s, m) && Holding(stale, m)
  }

  lemma NothingMarked(s: Store, ws: Workspace, tree: Worktree, clock: RecordId -> Time, rs: seq<Record>)
    requires Listing(View(s, ws), {Active}, rs)
    ensures Marking(s, ws, tree, clock, rs, 0, map[], s.local, [])
  {
    hide WriteAll, View, StaleAmong, Through, Holding, Listing;
    NothingWritten(s);
    NothingCached(tree);
    NothingThrough(rs, StaleAmong(View(s, ws), tree, clock));
  }

  /** One more record looked at, and written if its files changed. */
  lemma MarkOne(s: Store, ws: Workspace, tree: Worktree, clock: RecordId -> Time, rs: seq<Record>, i: int,
                m: map<RecordId, Record>, local: Tables, stale: seq<Record>)
    requires 0 <= i < |rs| && Marking(s, ws, tree, clock, rs, i, m, local, stale)
    ensures var r := rs[i]; var next := MarkedStale(tree, r, clock(r.Id()));
            if Changed(tree, r.claim.sources) == [] then Marking(s, ws, tree, clock, rs, i + 1, m, local, stale)
            else Marking(s, ws, tree, clock, rs, i + 1, m[r.Id() := next], Write(Store(local, s.common), next), stale + [next])
  {
    hide Through, Holding, StaleAmong, Write, WriteAll, Changed;
    var r := rs[i];
    var next := MarkedStale(tree, r, clock(r.Id()));
    MarkedIff(View(s, ws), tree, clock, r);
    OneMoreThrough(rs, i, StaleAmong(View(s, ws), tree, clock), m);
    if Changed(tree, r.claim.sources) != [] {
      WritesAccumulate(s, m, next);
      HoldOneMore(stale, m, next);
    }
  }

  lemma RestoredIff(view: map<RecordId, Record>, tree: Worktree, clock: RecordId -> Time, r: Record)
    requires r.Id() in view && view[r.Id()] == r && r.Lifecycle().Stale?
    ensures r.Id() in RestoredAmong(view, tree, clock)
            <==> Rebound(tree, r.claim.sources).Some? && Rebound(tree, r.claim.sources).value != []
    ensures r.Id() in RestoredAmong(view, tree, clock) ==>
              Supported(tree, r) && RestoredAmong(view, tree, clock)[r.Id()] == Restored(tree, r, clock(r.Id()))
  {
  }

  /** A list of exactly the values of a map. */
  ghost predicate Holding(rs: seq<Record>, m: map<RecordId, Record>) {
    forall r :: r in rs <==> r in m.Values
  }

  lemma HoldOneMore(rs: seq<Record>, m: map<RecordId, Record>, r: Record)
    requires Holding(rs, m) && r.Id() !in m
    ensures Holding(rs + [r], m[r.Id() := r])
  {
    var grown := m[r.Id() := r];
    assert grown[r.Id()] == r;
    forall x | x in m.Values ensures x in grown.Values {
      var id :| id in m && m[id] == x;
      assert grown[id] == x;
    }
  }

  lemma AllMarked(s: Store, ws: Workspace, tree: Worktree, clock: RecordId -> Time, rs: seq<Record>,
                  m: map<RecordId, Record>, local: Tables, stale: seq<Record>)
    requires Valid(s) && Marking(s, ws, tree, clock, rs, |rs|, m, local, stale)
    ensures Store(local, s.common) == AfterValidate(s, ws, tree, clock) && Valid(AfterValidate(s, ws, tree, clock))
    ensures Holding(stale, StaleAmong(View(s, ws), tree, clock))
  {
    hide WriteAll, Valid, View, StaleAmong, Through, Listing, Holding;
    CandidatesAreListed(View(s, ws), tree, clock);
    AllThrough(View(s, ws), rs, StaleAmong(View(s, ws), tree, clock), m, {Active});
    ChecksKeepValid(s, ws, tree, clock);
  }

  lemma CandidatesAreListed(view: map<RecordId, Record>, tree: Worktree, clock: RecordId -> Time)
    ensures forall id :: id in StaleAmong(view, tree, clock) ==> id in view && Wanted(view[id], {Active})
    ensures forall id :: id in RestoredAmong(view, tree, clock) ==> id in view && Wanted(view[id], {Stale})
  {
  }

  lemma NothingCached(tree: Worktree)
    ensures Cached(tree, map[]) && Holding([], map[])
  {
  }

  lemma NothingThrough(rs: seq<Record>, all: map<RecordId, Record>)
    ensures Through(rs, 0, all, map[])
  {
  }

  lemma OneMoreThrough(rs: seq<Record>, i: int, all: map<RecordId, Record>, m: map<RecordId, Record>)
    requires 0 <= i < |rs| && Through(rs, i, all, m)
    requires forall j, k :: 0 <= j < k < |rs| ==> rs[j].Id() != rs[k].Id()
    ensures rs[i].Id() !in m
    ensures rs[i].Id() in all ==> Through(rs, i + 1, all, m[rs[i].Id() := all[rs[i].Id()]])
    ensures rs[i].Id() !in all ==> Through(rs, i + 1, all, m)
  {
  }

  lemma AllThrough(view: map<RecordId, Record>, rs: seq<Record>, all: map<RecordId, Record>, m: map<RecordId, Record>,
                   lifecycles: set<Lifecycle>)
    requires Listing(view, lifecycles, rs) && Through(rs, |rs|, all, m)
    requires forall id :: id in all ==> id in view && Wanted(view[id], lifecycles)
    ensures m == all
  {
    forall id | id in all ensures id in m {
      assert exists k :: 0 <= k < |rs| && rs[k].Id() == id;
    }
  }

  lemma AfterRevalidateIs(s: Store, ws: Workspace, tree: Worktree, clock: RecordId -> Time)
    ensures AfterRevalidate(s, ws, tree, clock) == Store(WriteAll(s, RestoredAmong(View(s, ws), tree, clock)), s.common)
  {
  }

  lemma NothingWritten(s: Store)
    ensures WriteAll(s, map[]) == s.local
  {
  }
}
