/**
  What the layered store promises its reader: it behaves as one flat map, its
  common layer is never written, and checking it against the files is exact.
 */
module KnowledgeLaws {
  import opened Wrappers
  import opened KnowledgeModel
  import opened KnowledgeRules
  import Strings

  /** Every record of `m` is a legal next version, or a first version, under its own id. */
  ghost predicate Writable(s: Store, m: map<RecordId, Record>) {
    forall id :: id in m ==> m[id].Id() == id && (Follows(s, m[id]) || Fresh(s, m[id]))
  }

  /** Every record of `m` is a legal next version of a record its workspace sees. */
  ghost predicate Following(s: Store, m: map<RecordId, Record>) {
    forall id :: id in m ==> m[id].Id() == id && Follows(s, m[id])
  }

  function Part(m: map<RecordId, Record>, ws: Workspace): map<RecordId, Record> {
    map id | id in m && m[id].Workspace() == ws :: m[id]
  }

  lemma MergeIsAssociative<K, V>(a: map<K, V>, b: map<K, V>, c: map<K, V>)
    ensures a + (b + c) == (a + b) + c
  {
  }

  lemma RowsUpdateTheSlice(t: Tables, m: map<RecordId, Record>, ws: Workspace)
    requires forall id :: id in m ==> Upserted(t, m[id]) == Row(m[id].Workspace(), m[id])
    requires forall id :: id in m && Holds(t, ws, id) ==> m[id].Workspace() == ws
    ensures Slice(Tables(t.records + NewRows(t, m), t.versions), ws) == Slice(t, ws) + Part(m, ws)
  {
  }

  /** Writing changes the flat view at the written ids of the written workspace, and nowhere else. */
  lemma WritesUpdateTheView(s: Store, m: map<RecordId, Record>, ws: Workspace)
    requires Valid(s) && Writable(s, m)
    ensures View(Store(WriteAll(s, m), s.common), ws) == View(s, ws) + Part(m, ws)
  {
    forall id | id in m
      ensures Upserted(s.local, m[id]) == Row(m[id].Workspace(), m[id])
      ensures Holds(s.local, ws, id) ==> m[id].Workspace() == ws
    {
      RowStays(s, m[id]);
    }
    RowsUpdateTheSlice(s.local, m, ws);
    assert Slice(WriteAll(s, m), ws) == Slice(s.local, ws) + Part(m, ws);
    MergeIsAssociative(Slice(s.common, ws), Slice(s.local, ws), Part(m, ws));
  }

  lemma OneIsShown(s: Store, r: Record)
    requires Valid(s) && (Follows(s, r) || Fresh(s, r))
    ensures View(Store(Write(s, r), s.common), r.Workspace()) == View(s, r.Workspace())[r.Id() := r]
  {
    hide Valid, Follows, Fresh, View;
    var one := map[r.Id() := r];
    WritesUpdateTheView(s, one, r.Workspace());
    assert Part(one, r.Workspace()) == one;
  }

  /** What an operator writes over a record is what its workspace then sees of it. */
  lemma NextIsShown(s: Store, ws: Workspace, id: RecordId, r: Record)
    requires Valid(s) && Get(s, ws, id).Some? && LegalStep(Get(s, ws, id).value, r)
    ensures View(Store(Write(s, r), s.common), ws) == View(s, ws)[id := r]
  {
    SeenUnderItsName(s, ws, id);
    StepKeepsIdentity(Get(s, ws, id).value, r);
    OneIsShown(s, r);
  }

  /** The store after an operator's call. */
  function AfterCall(s: Store, result: Result<Record, Error>): Store {
    Store(Committed(s, result), s.common)
  }

  /** A call that succeeds shows the record with one more version, making the claim `c` at `now`. */
  ghost predicate Shows(s: Store, ws: Workspace, id: RecordId, result: Result<Record, Error>, c: Claim, now: Time) {
    && result.Success? && id in View(s, ws) && View(AfterCall(s, result), ws) == View(s, ws)[id := result.value]
    && Bumps(View(s, ws)[id], result.value, c) && result.value.updatedAt == now
  }

  lemma AcceptShows(s: Store, ws: Workspace, id: RecordId, now: Time)
    requires Valid(s)
    ensures var result := Accepted(s, ws, id, now);
            && (result == Failure(NoSuchRecord) <==> id !in View(s, ws))
            && (result.Success? ==>
                  && id in View(s, ws) && Follows(s, result.value)
                  && Shows(s, ws, id, result, View(s, ws)[id].claim.(lifecycle := Active, verification := UserConfirmed), now))
  {
    GetReadsView(s, ws, id);
    var result := Accepted(s, ws, id, now);
    if result.Success? {
      AcceptedFollows(s, ws, id, now);
      hide Valid, Follows, View, Write;
      NextIsShown(s, ws, id, result.value);
    }
  }

  lemma AmendShows(lex: Lexicon, s: Store, ws: Workspace, id: RecordId, text: string, now: Time)
    requires Valid(s)
    ensures var result := Amended(lex, s, ws, id, text, now);
            && (result == Failure(NoSuchRecord) <==> id !in View(s, ws))
            && (result == Failure(WrongState(Revoked)) <==> id in View(s, ws) && View(s, ws)[id].Lifecycle().Revoked?)
            && (result.Success? ==>
                  && Follows(s, result.value)
                  && Shows(s, ws, id, result, Claim(lex.squeeze(text), ByUser, UserConfirmed, Active, []), now))
  {
    GetReadsView(s, ws, id);
    var result := Amended(lex, s, ws, id, text, now);
    if result.Success? {
      AmendedFollows(lex, s, ws, id, text, now);
      hide Valid, Follows, View, Write;
      NextIsShown(s, ws, id, result.value);
    }
  }

  lemma RevokeShows(s: Store, ws: Workspace, id: RecordId, why: string, now: Time)
    requires Valid(s)
    ensures var result := Withdrawn(s, ws, id, why, now);
            && (result.Failure? <==> id !in View(s, ws)) && (result.Failure? ==> result == Failure(NoSuchRecord))
            && (result.Success? ==>
                  && id in View(s, ws) && Follows(s, result.value) && (why != "" ==> result.value.reason == why)
                  && Shows(s, ws, id, result, View(s, ws)[id].claim.(lifecycle := Revoked), now))
  {
    GetReadsView(s, ws, id);
    var result := Withdrawn(s, ws, id, why, now);
    if result.Success? {
      WithdrawnFollows(s, ws, id, why, now);
      hide Valid, Follows, View, Write;
      NextIsShown(s, ws, id, result.value);
    }
  }

  lemma WrittenIsServed(s: Store, r: Record)
    requires Upserted(s.local, r) == Row(r.Workspace(), r)
    ensures ServedHistory(Store(Write(s, r), s.common), r.Workspace(), r.Id()) == Extended(s, r)
  {
  }

  lemma OthersAreServedTheSame(s: Store, r: Record, ws: Workspace, id: RecordId)
    requires id != r.Id()
    ensures ServedHistory(Store(Write(s, r), s.common), ws, id) == ServedHistory(s, ws, id)
  {
  }

  /** A write appends one version to the history it was shown, and leaves every other history alone. */
  lemma WriteAppendsOneVersion(s: Store, r: Record, ws: Workspace, id: RecordId)
    requires Valid(s) && (Follows(s, r) || Fresh(s, r))
    ensures ServedHistory(Store(Write(s, r), s.common), r.Workspace(), r.Id())
            == ServedHistory(s, r.Workspace(), r.Id())[r.version := r]
    ensures id != r.Id() ==> ServedHistory(Store(Write(s, r), s.common), ws, id) == ServedHistory(s, ws, id)
  {
    if Follows(s, r) {
      WriteExtendsHistory(s, r);
    } else {
      FreshHistory(s, r);
    }
    WrittenIsServed(s, r);
    if id != r.Id() { OthersAreServedTheSame(s, r, ws, id); }
  }

  lemma PurgeKeepsValid(s: Store, ws: Workspace)
    requires Valid(s)
    ensures Valid(Store(Purged(s.local, ws), s.common))
  {
    var t := Purged(s.local, ws);
    assert t.versions.Keys == t.records.Keys;
    forall id ensures Sound(t, id) {
      assert Sound(s.local, id);
    }
  }

  /** After a purge the workspace reads exactly the common layer, and every other workspace what it did. */
  lemma PurgeRestoresCommon(s: Store, ws: Workspace, other: Workspace, id: RecordId)
    ensures var after := Store(Purged(s.local, ws), s.common);
            && View(after, ws) == Slice(s.common, ws)
            && ServedHistory(after, ws, id) == (if Holds(s.common, ws, id) then HistoryOf(s.common, id) else map[])
            && (other != ws ==> View(after, other) == View(s, other)
                                && ServedHistory(after, other, id) == ServedHistory(s, other, id))
  {
    var t := Purged(s.local, ws);
    assert Slice(t, ws) == map[];
    assert other != ws ==> Slice(t, other) == Slice(s.local, other);
  }

  // --------------------------------------------------------- keeping it true

  lemma StaleVersionsFollow(s: Store, ws: Workspace, tree: Worktree, clock: RecordId -> Time)
    requires Valid(s)
    ensures var m := StaleAmong(View(s, ws), tree, clock);
            Following(s, m) && Writable(s, m) && Part(m, ws) == m
  {
    var m := StaleAmong(View(s, ws), tree, clock);
    forall id | id in m
      ensures m[id].Id() == id && m[id].Workspace() == ws && Follows(s, m[id])
    {
      GetReadsView(s, ws, id);
      NextFollows(s, ws, id, m[id].claim, clock(id), m[id].reason);
    }
  }

  lemma RestoredVersionsFollow(s: Store, ws: Workspace, tree: Worktree, clock: RecordId -> Time)
    requires Valid(s)
    ensures var m := RestoredAmong(View(s, ws), tree, clock);
            Following(s, m) && Writable(s, m) && Part(m, ws) == m
  {
    var m := RestoredAmong(View(s, ws), tree, clock);
    forall id | id in m
      ensures m[id].Id() == id && m[id].Workspace() == ws && Follows(s, m[id])
    {
      GetReadsView(s, ws, id);
      RestoredIsLegal(tree, Get(s, ws, id).value, clock(id));
      NextFollows(s, ws, id, m[id].claim, clock(id), m[id].reason);
    }
  }

  lemma RestoredIsLegal(tree: Worktree, r: Record, now: Time)
    requires Supported(tree, r)
    ensures LegalStep(r, Restored(tree, r, now))
  {
    var next := Restored(tree, r, now);
    assert next.claim == r.claim.(lifecycle := Active, sources := next.claim.sources);
    assert Restores(r, next);
  }

  /** A record has no changed file exactly when each of its file sources reads as recorded. */
  lemma {:induction false} ChangedIsEmpty(tree: Worktree, sources: seq<SourceRef>)
    ensures Changed(tree, sources) == [] <==> forall i :: 0 <= i < |sources| ==> Current(tree, sources[i])
  {
    if sources != [] {
      ChangedIsEmpty(tree, sources[1..]);
      assert forall i :: 0 <= i < |sources| - 1 ==> sources[1..][i] == sources[i + 1];
      if Changed(tree, sources) == [] {
        forall i | 0 <= i < |sources| ensures Current(tree, sources[i]) {
          if i > 0 { assert sources[i] == sources[1..][i - 1]; }
        }
      }
    }
  }

  function AfterValidate(s: Store, ws: Workspace, tree: Worktree, clock: RecordId -> Time): Store {
    Store(WriteAll(s, StaleAmong(View(s, ws), tree, clock)), s.common)
  }

  function AfterRevalidate(s: Store, ws: Workspace, tree: Worktree, clock: RecordId -> Time): Store {
    Store(WriteAll(s, RestoredAmong(View(s, ws), tree, clock)), s.common)
  }

  lemma ChecksKeepValid(s: Store, ws: Workspace, tree: Worktree, clock: RecordId -> Time)
    requires Valid(s)
    ensures Valid(AfterValidate(s, ws, tree, clock)) && Valid(AfterRevalidate(s, ws, tree, clock))
  {
    StaleVersionsFollow(s, ws, tree, clock);
    WriteAllPreserves(s, StaleAmong(View(s, ws), tree, clock));
    RestoredVersionsFollow(s, ws, tree, clock);
    WriteAllPreserves(s, RestoredAmong(View(s, ws), tree, clock));
  }

  lemma ViewAfterValidate(s: Store, ws: Workspace, tree: Worktree, clock: RecordId -> Time)
    requires Valid(s)
    ensures View(AfterValidate(s, ws, tree, clock), ws) == View(s, ws) + StaleAmong(View(s, ws), tree, clock)
  {
    StaleVersionsFollow(s, ws, tree, clock);
    WritesUpdateTheView(s, StaleAmong(View(s, ws), tree, clock), ws);
  }

  lemma ViewAfterRevalidate(s: Store, ws: Workspace, tree: Worktree, clock: RecordId -> Time)
    requires Valid(s)
    ensures View(AfterRevalidate(s, ws, tree, clock), ws) == View(s, ws) + RestoredAmong(View(s, ws), tree, clock)
  {
    RestoredVersionsFollow(s, ws, tree, clock);
    WritesUpdateTheView(s, RestoredAmong(View(s, ws), tree, clock), ws);
  }

  /** Every source that is a file reads as recorded. */
  predicate AllCurrent(tree: Worktree, r: Record) {
    forall i :: 0 <= i < |r.claim.sources| ==> Current(tree, r.claim.sources[i])
  }

  predicate ActiveIn(view: map<RecordId, Record>, id: RecordId) {
    id in view && view[id].Lifecycle().Active?
  }

  lemma MarkingIsExact(view: map<RecordId, Record>, tree: Worktree, clock: RecordId -> Time, again: RecordId -> Time,
                       id: RecordId)
    ensures var after := view + StaleAmong(view, tree, clock);
            && (ActiveIn(after, id) <==> ActiveIn(view, id) && AllCurrent(tree, view[id]))
            && StaleAmong(after, tree, again) == map[]
  {
    if id in view { ChangedIsEmpty(tree, view[id].claim.sources); }
  }

  /** After `validate` a record is ACTIVE exactly when it was and its files read as it says; a second
      `validate` over the same files marks nothing. */
  lemma ValidateAgreesWithTheFiles(s: Store, ws: Workspace, tree: Worktree, clock: RecordId -> Time,
                                   again: RecordId -> Time, id: RecordId)
    requires Valid(s)
    ensures var view, after := View(s, ws), View(AfterValidate(s, ws, tree, clock), ws);
            && (ActiveIn(after, id) <==> ActiveIn(view, id) && AllCurrent(tree, view[id]))
            && StaleAmong(after, tree, again) == map[]
  {
    ViewAfterValidate(s, ws, tree, clock);
    MarkingIsExact(View(s, ws), tree, clock, again, id);
  }

  /** Sources bound again read, right now, as they say; and each quote is in its file. */
  lemma {:induction false} ReboundIsCurrent(tree: Worktree, sources: seq<SourceRef>)
    requires Rebound(tree, sources).Some?
    ensures var again := Rebound(tree, sources).value;
            && |again| == |sources|
            && (forall i :: 0 <= i < |again| ==> Current(tree, again[i]))
            && (forall i :: 0 <= i < |again| && again[i].kind == FILE
                  ==> tree.read(again[i].locator).Some? && again[i].quote != ""
                      && Contains(tree.decode(tree.read(again[i].locator).value), again[i].quote))
  {
    if sources != [] {
      ReboundIsCurrent(tree, sources[1..]);
    }
  }

  lemma RestoringIsSupported(view: map<RecordId, Record>, tree: Worktree, clock: RecordId -> Time,
                             again: RecordId -> Time, id: RecordId)
    requires id in RestoredAmong(view, tree, clock)
    ensures var restored := RestoredAmong(view, tree, clock)[id];
            var after := view + RestoredAmong(view, tree, clock);
            && restored.Lifecycle().Active? && AllCurrent(tree, restored)
            && after[id] == restored && id !in StaleAmong(after, tree, again)
  {
    ReboundIsCurrent(tree, view[id].claim.sources);
    ChangedIsEmpty(tree, RestoredAmong(view, tree, clock)[id].claim.sources);
  }

  /** Whatever `revalidate` makes ACTIVE again rests on files that hold its evidence, so an
      immediate `validate` leaves it as it is. */
  lemma RevalidatedStaysActive(s: Store, ws: Workspace, tree: Worktree, clock: RecordId -> Time,
                               again: RecordId -> Time, id: RecordId)
    requires Valid(s) && id in RestoredAmong(View(s, ws), tree, clock)
    ensures var restored := RestoredAmong(View(s, ws), tree, clock)[id];
            var checked := AfterValidate(AfterRevalidate(s, ws, tree, clock), ws, tree, again);
            && restored.Lifecycle().Active? && AllCurrent(tree, restored)
            && id in View(checked, ws) && View(checked, ws)[id] == restored
  {
    RestoringIsSupported(View(s, ws), tree, clock, again, id);
    ViewAfterRevalidate(s, ws, tree, clock);
    ChecksKeepValid(s, ws, tree, clock);
    ViewAfterValidate(AfterRevalidate(s, ws, tree, clock), ws, tree, again);
  }

  // ------------------------------------------------------- said of the files alone

  /** The file a source names reads as it did: by its digest. */
  predicate ReadsAsSaid(tree: Worktree, source: SourceRef) {
    tree.read(source.locator).Some? && tree.digest(tree.read(source.locator).value) == source.digest
  }

  /** `validate` marks exactly the active records one of whose files is gone or reads otherwise; all else they
      claim stays. */
  lemma MarkedIffFilesDiffer(view: map<RecordId, Record>, tree: Worktree, clock: RecordId -> Time, id: RecordId)
    ensures var marked := StaleAmong(view, tree, clock);
            && (id in marked
                <==> && id in view && view[id].Lifecycle().Active?
                     && exists i :: 0 <= i < |view[id].claim.sources| && view[id].claim.sources[i].kind == "file"
                                    && !ReadsAsSaid(tree, view[id].claim.sources[i]))
            && (id in marked ==> && Bumps(view[id], marked[id], view[id].claim.(lifecycle := Stale))
                                 && marked[id].updatedAt == clock(id))
  {
    if id in view {
      ChangedIsEmpty(tree, view[id].claim.sources);
      assert forall s: SourceRef :: Current(tree, s) <==> (s.kind == "file" ==> ReadsAsSaid(tree, s));
    }
  }

  lemma {:induction false} ChangedAre(tree: Worktree, sources: seq<SourceRef>, path: string)
    ensures path in Changed(tree, sources)
            <==> exists i :: 0 <= i < |sources| && sources[i].kind == "file" && sources[i].locator == path
                             && !ReadsAsSaid(tree, sources[i])
  {
    if sources != [] {
      ChangedAre(tree, sources[1..], path);
      var last := sources[0];
      if i :| 0 <= i < |sources[1..]| && sources[1..][i].kind == "file" && sources[1..][i].locator == path
              && !ReadsAsSaid(tree, sources[1..][i]) {
        assert sources[i + 1] == sources[1..][i];
      }
      if i :| 0 < i < |sources| && sources[i].kind == "file" && sources[i].locator == path
              && !ReadsAsSaid(tree, sources[i]) {
        assert sources[1..][i - 1] == sources[i];
      }
    }
  }

  /** The reason given names the files that read otherwise, and says that they are gone where one of them is, or has
      no digest, and else that they changed. */
  lemma MarkedForTheFiles(tree: Worktree, r: Record, now: Time) returns (files: seq<string>)
    ensures forall p :: p in files
              <==> exists i :: 0 <= i < |r.claim.sources| && r.claim.sources[i].kind == "file"
                               && r.claim.sources[i].locator == p && !ReadsAsSaid(tree, r.claim.sources[i])
    ensures MarkedStale(tree, r, now).reason
            == Strings.Join(", ", files)
               + if exists p :: p in files && (tree.read(p).None? || tree.digest(tree.read(p).value) == "")
                 then " is gone" else " changed since the fact was verified"
  {
    files := Changed(tree, r.claim.sources);
    forall p ensures p in files
              <==> exists i :: 0 <= i < |r.claim.sources| && r.claim.sources[i].kind == "file"
                               && r.claim.sources[i].locator == p && !ReadsAsSaid(tree, r.claim.sources[i]) {
      ChangedAre(tree, r.claim.sources, p);
    }
  }

  /** What of a quote is looked for. */
  function Wanted400(quote: string): string {
    if |quote| <= 400 then quote else quote[..400]
  }

  /** The file a source names, inside the workspace, holds the start of its quote as it reads now. */
  ghost predicate StillQuoted(tree: Worktree, source: SourceRef) {
    var path := tree.normpath(source.locator);
    && !(".." <= path) && !("/" <= path) && source.quote != "" && tree.read(path).Some?
    && exists before, after :: tree.decode(tree.read(path).value) == before + Wanted400(source.quote) + after
  }

  lemma ContainsIff(text: string, quote: string)
    ensures Contains(text, quote) <==> exists before, after :: text == before + quote + after
  {
    if Contains(text, quote) {
      var i :| 0 <= i <= |text| && At(text, quote, i);
      assert text == text[..i] + quote + text[i + |quote|..];
    }
    if before, after :| text == before + quote + after {
      assert At(text, quote, |before|);
    }
  }

  lemma EvidenceIff(tree: Worktree, source: SourceRef)
    ensures var e := Evidence(tree, source.locator, source.quote); var path := tree.normpath(source.locator);
            && (e.Some? <==> StillQuoted(tree, source))
            && (e.Some? ==> e.value == SourceRef("file", path, tree.digest(tree.read(path).value), None, Wanted400(source.quote)))
  {
    var path := tree.normpath(source.locator);
    hide Contains;
    OutsideIff(path);
    if tree.read(path).Some? { ContainsIff(tree.decode(tree.read(path).value), Wanted400(source.quote)); }
  }

  lemma OutsideIff(path: string)
    ensures Outside(path) <==> ".." <= path || "/" <= path
  {
  }

  /** A source bound again: a file's by what it reads now, any other as it was. */
  predicate BoundTo(tree: Worktree, was: SourceRef, now: SourceRef) {
    if was.kind != "file" then now == was
    else
      var path := tree.normpath(was.locator);
      tree.read(path).Some? && now == SourceRef("file", path, tree.digest(tree.read(path).value), was.line, Wanted400(was.quote))
  }

  lemma {:induction false} ReboundIff(tree: Worktree, sources: seq<SourceRef>)
    ensures Rebound(tree, sources).Some?
            <==> forall i :: 0 <= i < |sources| && sources[i].kind == "file" ==> StillQuoted(tree, sources[i])
    ensures Rebound(tree, sources).Some? ==>
              var again := Rebound(tree, sources).value;
              |again| == |sources| && forall i :: 0 <= i < |again| ==> BoundTo(tree, sources[i], again[i])
  {
    if sources != [] {
      hide StillQuoted, Evidence;
      var rest := sources[1..];
      ReboundIff(tree, rest);
      EvidenceIff(tree, sources[0]);
      assert forall i :: 0 <= i < |rest| ==> rest[i] == sources[i + 1];
      if Rebound(tree, sources).Some? {
        var again := Rebound(tree, sources).value;
        forall i | 0 <= i < |again| ensures BoundTo(tree, sources[i], again[i]) {
          if i > 0 { assert again[i] == Rebound(tree, rest).value[i - 1] && sources[i] == rest[i - 1]; }
        }
      }
    }
  }

  /** `revalidate` restores exactly the stale records with sources, each file of which still holds its quote;
      they are bound to the files as they read now, and claim what they did. */
  lemma RestoredIffQuoted(view: map<RecordId, Record>, tree: Worktree, clock: RecordId -> Time, id: RecordId)
    ensures var restored := RestoredAmong(view, tree, clock);
            && (id in restored
                <==> && id in view && view[id].Lifecycle().Stale? && view[id].claim.sources != []
                     && forall i :: 0 <= i < |view[id].claim.sources| && view[id].claim.sources[i].kind == "file"
                                    ==> StillQuoted(tree, view[id].claim.sources[i]))
            && (id in restored ==>
                  var was, now := view[id].claim.sources, restored[id].claim.sources;
                  && Bumps(view[id], restored[id], view[id].claim.(lifecycle := Active, sources := now))
                  && restored[id].updatedAt == clock(id)
                  && |now| == |was| && forall i :: 0 <= i < |now| ==> BoundTo(tree, was[i], now[i]))
  {
    hide StillQuoted, Rebound, BoundTo;
    if id in view { ReboundIff(tree, view[id].claim.sources); }
  }

  lemma NewRow(s: Store, m: map<RecordId, Record>, r: Record)
    requires r.Id() !in m
    ensures NewRows(s.local, m[r.Id() := r]) == NewRows(s.local, m) + map[r.Id() := Upserted(s.local, r)]
    ensures Upserted(WriteAll(s, m), r) == Upserted(s.local, r)
  {
  }

  lemma NewHistory(s: Store, m: map<RecordId, Record>, r: Record)
    requires r.Id() !in m
    ensures NewHistories(s, m[r.Id() := r]) == NewHistories(s, m) + map[r.Id() := Extended(s, r)]
  {
  }

  lemma ExtendedElsewhere(s: Store, m: map<RecordId, Record>, r: Record)
    requires r.Id() !in m
    ensures Extended(Store(WriteAll(s, m), s.common), r) == Extended(s, r)
  {
    var mid := Store(WriteAll(s, m), s.common);
    assert LayerOf(mid, r.Workspace(), r.Id()) == LayerOf(s, r.Workspace(), r.Id());
  }

  lemma OneWritten(s: Store, r: Record)
    ensures NewRows(s.local, map[r.Id() := r]) == map[r.Id() := Upserted(s.local, r)]
    ensures NewHistories(s, map[r.Id() := r]) == map[r.Id() := Extended(s, r)]
  {
  }

  /** One write, table by table. */
  lemma WriteIs(s: Store, r: Record)
    ensures Write(s, r) == Tables(s.local.records[r.Id() := Upserted(s.local, r)],
                                  s.local.versions[r.Id() := Extended(s, r)])
  {
    hide Extended, Upserted, NewRows, NewHistories;
    OneWritten(s, r);
    MapsWithOneMore(s.local.records, r.Id(), Upserted(s.local, r));
    MapsWithOneMore(s.local.versions, r.Id(), Extended(s, r));
  }

  lemma MapsWithOneMore<K, V>(a: map<K, V>, k: K, v: V)
    ensures a + map[k := v] == a[k := v]
  {
  }

  /** Writing the records of a set one after another is writing them at once. */
  lemma WritesAccumulate(s: Store, m: map<RecordId, Record>, r: Record)
    requires r.Id() !in m
    ensures Write(Store(WriteAll(s, m), s.common), r) == WriteAll(s, m[r.Id() := r])
  {
    var mid := Store(WriteAll(s, m), s.common);
    OneWritten(mid, r);
    NewRow(s, m, r);
    MergeIsAssociative(s.local.records, NewRows(s.local, m), map[r.Id() := Upserted(s.local, r)]);
    NewHistory(s, m, r);
    ExtendedElsewhere(s, m, r);
    MergeIsAssociative(s.local.versions, NewHistories(s, m), map[r.Id() := Extended(s, r)]);
  }

  /** How often a list names a source. */
  function TimesNamed(sources: seq<SourceRef>, kind: string, locator: string): nat {
    if sources == [] then 0
    else
      var last := sources[|sources| - 1];
      TimesNamed(sources[..|sources| - 1], kind, locator) + if last.kind == kind && last.locator == locator then 1 else 0
  }

  lemma {:induction false} BindingsCount(sources: seq<SourceRef>, kind: string, locator: string)
    ensures Bindings(sources)[(kind, locator)] == TimesNamed(sources, kind, locator)
  {
    if sources != [] {
      var before, last := sources[..|sources| - 1], sources[|sources| - 1];
      BindingsCount(before, kind, locator);
      var pairs := seq(|before|, i requires 0 <= i < |before| => (before[i].kind, before[i].locator));
      assert seq(|sources|, i requires 0 <= i < |sources| => (sources[i].kind, sources[i].locator))
          == pairs + [(last.kind, last.locator)];
    }
  }

  /** Two records rest on the same sources when they name the same ones equally often: in whatever order, at whatever
      line, and with whatever quotation. */
  lemma SameSourcesIff(a: seq<SourceRef>, b: seq<SourceRef>)
    ensures Bindings(a) == Bindings(b) <==> forall k, l :: TimesNamed(a, k, l) == TimesNamed(b, k, l)
  {
    hide Bindings, TimesNamed;
    if Bindings(a) == Bindings(b) {
      forall k, l ensures TimesNamed(a, k, l) == TimesNamed(b, k, l) {
        BindingsCount(a, k, l);
        BindingsCount(b, k, l);
      }
    } else {
      var p: (string, string) :| Bindings(a)[p] != Bindings(b)[p];
      BindingsCount(a, p.0, p.1);
      BindingsCount(b, p.0, p.1);
      assert TimesNamed(a, p.0, p.1) != TimesNamed(b, p.0, p.1);
    }
  }
}
