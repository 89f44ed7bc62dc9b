/**
  What the agent's file tools remember of the files it has read, and the
  warnings they give before a write. A file's modification time is a version:
  every write, whoever makes it, gives one the file never had.
 */
module ReadTracker {
  import opened Wrappers

  const MAX_LINES := 2000

  type Path = string
  type Disk = map<Path, nat>

  /** A page of a file. */
  datatype Region = Region(path: Path, offset: int, limit: int)

  datatype Stamp = Stamp(mtime: nat, partial: bool)

  datatype Tracker = Tracker(
    lastKey: Option<(string, int, int)>,   // the read last counted; nothing for a search
    consecutive: nat,
    dedup: map<Region, nat>,
    dedupHits: map<Region, nat>,
    readTimestamps: map<Path, nat>,
    fileState: map<Path, Stamp>)

  const NEW := Tracker(None, 0, map[], map[], map[], map[])

  // ------------------------------------------------------------- what each call does

  /** A read of this page was recorded already, and the file is as it was. */
  predicate Hit(t: Tracker, disk: Disk, r: Region) {
    r in t.dedup && r.path in disk && disk[r.path] == t.dedup[r]
  }

  function Hits(t: Tracker, r: Region): nat {
    if r in t.dedupHits then t.dedupHits[r] else 0
  }

  function Stubbed(t: Tracker, r: Region): Tracker {
    t.(dedupHits := t.dedupHits[r := Hits(t, r) + 1])
  }

  function Streak(t: Tracker, display: string, r: Region): nat {
    if t.lastKey == Some((display, r.offset, r.limit)) then t.consecutive + 1 else 1
  }

  function Recorded(t: Tracker, disk: Disk, display: string, r: Region, partial: bool): Tracker {
    var counted := t.(lastKey := Some((display, r.offset, r.limit)), consecutive := Streak(t, display, r),
                      dedupHits := t.dedupHits - {r});
    if r.path !in disk then counted
    else
      counted.(dedup := t.dedup[r := disk[r.path]], readTimestamps := t.readTimestamps[r.path := disk[r.path]],
               fileState := t.fileState[r.path := Stamp(disk[r.path], partial)])
  }

  /** The pages remembered of a file are forgotten; its stamps are not. */
  function Invalidated(t: Tracker, path: Path): Tracker {
    var gone := set r | r in t.dedup && r.path == path;
    t.(dedup := t.dedup - gone, dedupHits := t.dedupHits - gone)
  }

  /** An own write counts as a full read of what was written. */
  function Written(t: Tracker, disk: Disk, path: Path): Tracker {
    var t := Invalidated(t, path);
    if path !in disk then t
    else t.(fileState := t.fileState[path := Stamp(disk[path], false)], readTimestamps := t.readTimestamps[path := disk[path]])
  }

  datatype Warning = ModifiedSinceRead | PartialView | ModifiedSinceReadAgain

  function CheckStale(t: Tracker, disk: Disk, path: Path): Option<Warning> {
    if path !in t.fileState || path !in disk then None
    else if disk[path] != t.fileState[path].mtime then Some(ModifiedSinceRead)
    else if t.fileState[path].partial then Some(PartialView)
    else None
  }

  function Staleness(t: Tracker, disk: Disk, path: Path): Option<Warning> {
    if path !in t.readTimestamps || path !in disk then None
    else if disk[path] != t.readTimestamps[path] then Some(ModifiedSinceReadAgain)
    else None
  }

  function Warn(t: Tracker, disk: Disk, path: Path): Option<Warning> {
    if CheckStale(t, disk, path).Some? then CheckStale(t, disk, path) else Staleness(t, disk, path)
  }

  // -------------------------------------------------------------- the tools' own state

  datatype Reply =
    | Unopened                 // a special or a binary file
    | Unchanged                // shown before, not shown again
    | BlockedUnchanged(hits: nat)
    | Failed
    | Shown(count: nat)
    | BlockedRepeated(count: nat)

  /** The page asked for, brought within bounds. */
  function Page(path: Path, offset: int, limit: int): Region {
    Region(path, if offset > 1 then offset else 1, if limit < 1 then 1 else if limit > MAX_LINES then MAX_LINES else limit)
  }

  function ReadEffect(t: Tracker, disk: Disk, display: string, r: Region, failed: bool, partial: bool): Tracker {
    if Hit(t, disk, r) then Stubbed(t, r)
    else if failed then t
    else Recorded(t, disk, display, r, partial)
  }

  function ReadReply(t: Tracker, disk: Disk, display: string, r: Region, failed: bool): Reply {
    var hits, count := Hits(t, r) + 1, Streak(t, display, r);
    if Hit(t, disk, r) then (if hits >= 2 then BlockedUnchanged(hits) else Unchanged)
    else if failed then Failed
    else if count >= 4 then BlockedRepeated(count)
    else Shown(count)
  }

  /** What a write comes to: refused for what it was given, not done, or done. */
  datatype Attempt = Refused | NotDone | Happened

  class ReadState {
    var lastKey: Option<(string, int, int)>
    var consecutive: nat
    var dedup: map<Region, nat>
    var dedupHits: map<Region, nat>
    var readTimestamps: map<Path, nat>
    var fileState: map<Path, Stamp>

    function Value(): Tracker
      reads this
    {
      Tracker(lastKey, consecutive, dedup, dedupHits, readTimestamps, fileState)
    }

    constructor ()
      ensures Value() == NEW
    {
      lastKey, consecutive, dedup, dedupHits := None, 0, map[], map[];
      readTimestamps, fileState := map[], map[];
    }

    /** Read a page. `fails` and `truncated` say what reading it comes to. */
    method ReadFile(disk: Disk, display: string, path: Path, offset: int, limit: int, opens: bool,
                    fails: (int, int) -> bool, truncated: (int, int) -> bool) returns (reply: Reply)
      modifies this
      ensures var r := Page(path, offset, limit);
              Value() == if opens then ReadEffect(old(Value()), disk, display, r, fails(r.offset, r.limit),
                                                  r.offset > 1 || truncated(r.offset, r.limit))
                         else old(Value())
      ensures var r := Page(path, offset, limit);
              reply == if opens then ReadReply(old(Value()), disk, display, r, fails(r.offset, r.limit)) else Unopened
    {
      var r := Page(path, offset, limit);
      if !opens {
        return Unopened;
      }
      if r in dedup && path in disk && disk[path] == dedup[r] {
        var hits := Hits(Value(), r) + 1;
        dedupHits := dedupHits[r := hits];
        return if hits >= 2 then BlockedUnchanged(hits) else Unchanged;
      }
      if fails(r.offset, r.limit) {
        return Failed;
      }
      Record(disk, display, r, r.offset > 1 || truncated(r.offset, r.limit));
      reply := if consecutive >= 4 then BlockedRepeated(consecutive) else Shown(consecutive);
    }

    /** Count a read of a page and stamp its file, where the file is still there. */
    method Record(disk: Disk, display: string, r: Region, partial: bool)
      modifies this
      ensures Value() == Recorded(old(Value()), disk, display, r, partial)
    {
      dedupHits := dedupHits - {r};
      if lastKey == Some((display, r.offset, r.limit)) {
        consecutive := consecutive + 1;
      } else {
        lastKey, consecutive := Some((display, r.offset, r.limit)), 1;
      }
      if r.path in disk {
        dedup := dedup[r := disk[r.path]];
        readTimestamps := readTimestamps[r.path := disk[r.path]];
        fileState := fileState[r.path := Stamp(disk[r.path], partial)];
      }
    }

    method Invalidate(path: Path)
      modifies `dedup, `dedupHits
      ensures Value() == Invalidated(old(Value()), path)
    {
      var gone := set r | r in dedup && r.path == path;
      dedup, dedupHits := dedup - gone, dedupHits - gone;
    }

    method AfterWrite(disk: Disk, path: Path)
      modifies this
      ensures Value() == Written(old(Value()), disk, path)
    {
      Invalidate(path);
      if path in disk {
        fileState := fileState[path := Stamp(disk[path], false)];
        readTimestamps := readTimestamps[path := disk[path]];
      }
    }

    /** A write or a patch: one that is refused for its arguments draws no warning; else the warning is taken
        before the file is touched, the stamp after, and one that fails leaves the state alone. */
    method Write(before: Disk, path: Path, attempt: Attempt, after: Disk) returns (warning: Option<Warning>)
      modifies this
      ensures warning == if attempt.Refused? then None else Warn(old(Value()), before, path)
      ensures Value() == if attempt.Happened? then Written(old(Value()), after, path) else old(Value())
    {
      if attempt.Refused? {
        return None;
      }
      warning := CheckStale(Value(), before, path);
      if warning.None? {
        warning := Staleness(Value(), before, path);
      }
      if attempt.Happened? {
        AfterWrite(after, path);
      }
    }
  }

  // ------------------------------------------------------------------- whole runs

  /** What happens to files, inside and outside; `Read` is a recorded read, `Stub` an answer that the page is
      unchanged. */
  datatype Event =
    | Outside(path: Path)                                   // written by somebody else
    | Vanished(path: Path)                                  // deleted by somebody else
    | Deleted(path: Path)                                   // by the agent's own tool
    | Own(path: Path)                                       // written by the agent's own tool
    | Read(display: string, region: Region, partial: bool)
    | Stub(region: Region)
    | Search(count: nat)

  datatype World = World(disk: Disk, tracker: Tracker)

  /** One event; a write gives the file version `now`. */
  function After(w: World, e: Event, now: nat): World {
    match e
    case Outside(p) => w.(disk := w.disk[p := now])
    case Vanished(p) => w.(disk := w.disk - {p})
    case Deleted(p) => World(w.disk - {p}, Invalidated(w.tracker, p))
    case Own(p) => World(w.disk[p := now], Written(w.tracker, w.disk[p := now], p))
    case Read(d, r, partial) => w.(tracker := Recorded(w.tracker, w.disk, d, r, partial))
    case Stub(r) => w.(tracker := Stubbed(w.tracker, r))
    case Search(count) => w.(tracker := w.tracker.(lastKey := None, consecutive := count))
  }

  /** The world after a run from an agent's fresh state, over the files there were. */
  function Reached(disk: Disk, log: seq<Event>): World {
    if log == [] then World(disk, NEW)
    else After(Reached(disk, log[..|log| - 1]), log[|log| - 1], |log|)
  }

  /** A read is recorded when the page is not known to be unchanged, and otherwise answered by a stub. */
  predicate Possible(w: World, resolve: string -> Path, e: Event) {
    match e
    case Read(d, r, _) => r.path in w.disk && !Hit(w.tracker, w.disk, r) && resolve(d) == r.path
    case Stub(r) => Hit(w.tracker, w.disk, r)
    case Deleted(p) => p in w.disk
    case _ => true
  }

  predicate IsRun(disk: Disk, resolve: string -> Path, log: seq<Event>) {
    && (forall p :: p in disk ==> disk[p] == 0)
    && forall i :: 0 <= i < |log| ==> Possible(Reached(disk, log[..i]), resolve, log[i])
  }

  // ------------------------------------------------------------ said of the events alone

  predicate Writes(e: Event, p: Path) {
    e == Outside(p) || e == Own(p)
  }

  predicate Stamps(e: Event, p: Path) {
    e == Own(p) || (e.Read? && e.region.path == p)
  }

  ghost predicate IsLastStamp(log: seq<Event>, p: Path, i: int) {
    0 <= i < |log| && Stamps(log[i], p) && forall k :: i < k < |log| ==> !Stamps(log[k], p)
  }

  ghost predicate ChangedSince(log: seq<Event>, p: Path, i: int) {
    exists k :: i < k < |log| && k >= 0 && log[k] == Outside(p)
  }

  ghost predicate WrittenSince(log: seq<Event>, p: Path, i: int) {
    exists k :: i < k < |log| && k >= 0 && Writes(log[k], p)
  }

  /** A warning is due: the file was read or written, and since the last time somebody else wrote it, or that
      last time was a partial read. */
  ghost predicate Due(log: seq<Event>, p: Path) {
    exists i :: IsLastStamp(log, p, i) && (ChangedSince(log, p, i) || (log[i].Read? && log[i].partial))
  }

  // ---------------------------------------------------------- the tracker is exact

  lemma Unfolds(disk: Disk, log: seq<Event>, e: Event)
    ensures Reached(disk, log + [e]) == After(Reached(disk, log), e, |log| + 1)
  {
    assert (log + [e])[..|log|] == log;
  }

  lemma RunShrinks(disk: Disk, resolve: string -> Path, log: seq<Event>)
    requires IsRun(disk, resolve, log) && log != []
    ensures IsRun(disk, resolve, log[..|log| - 1])
    ensures Possible(Reached(disk, log[..|log| - 1]), resolve, log[|log| - 1])
  {
    var before := log[..|log| - 1];
    forall i | 0 <= i < |before| ensures Possible(Reached(disk, before[..i]), resolve, before[i]) {
      assert before[..i] == log[..i];
    }
  }

  /** No version is from the future, and the two stamps of a file are one. */
  ghost predicate Clocked(w: World, n: nat) {
    && (forall p :: p in w.disk ==> w.disk[p] <= n)
    && (forall r :: r in w.tracker.dedup ==> w.tracker.dedup[r] <= n)
    && (forall p :: p in w.tracker.fileState ==> w.tracker.fileState[p].mtime <= n)
    && (forall p :: p in w.tracker.fileState <==> p in w.tracker.readTimestamps)
    && (forall p :: p in w.tracker.fileState ==> w.tracker.fileState[p].mtime == w.tracker.readTimestamps[p])
  }

  lemma {:induction false} RunIsClocked(disk: Disk, resolve: string -> Path, log: seq<Event>)
    requires IsRun(disk, resolve, log)
    ensures Clocked(Reached(disk, log), |log|)
  {
    if log != [] {
      RunShrinks(disk, resolve, log);
      RunIsClocked(disk, resolve, log[..|log| - 1]);
    }
  }

  /** The second check never warns where the first does not. */
  lemma SecondCheckAddsNothing(disk: Disk, resolve: string -> Path, log: seq<Event>, p: Path)
    requires IsRun(disk, resolve, log)
    ensures var w := Reached(disk, log);
            Staleness(w.tracker, w.disk, p).Some? ==> CheckStale(w.tracker, w.disk, p) == Some(ModifiedSinceRead)
  {
    hide IsRun, Reached;
    RunIsClocked(disk, resolve, log);
  }

  lemma LastStampGrows(log: seq<Event>, e: Event, p: Path)
    ensures Stamps(e, p) ==> forall i :: IsLastStamp(log + [e], p, i) <==> i == |log|
    ensures !Stamps(e, p) ==> forall i :: IsLastStamp(log + [e], p, i) <==> IsLastStamp(log, p, i)
  {
    var more := log + [e];
    assert more[|log|] == e;
    forall i | IsLastStamp(log, p, i) && !Stamps(e, p) ensures IsLastStamp(more, p, i) {
      forall k | i < k < |more| ensures !Stamps(more[k], p) {
      }
    }
    forall i | IsLastStamp(more, p, i) && i < |log| ensures IsLastStamp(log, p, i) && !Stamps(e, p) {
      forall k | i < k < |log| ensures !Stamps(log[k], p) {
        assert more[k] == log[k];
      }
    }
  }

  lemma SinceGrows(log: seq<Event>, e: Event, p: Path, i: nat)
    requires i < |log|
    ensures ChangedSince(log + [e], p, i) <==> ChangedSince(log, p, i) || e == Outside(p)
    ensures WrittenSince(log + [e], p, i) <==> WrittenSince(log, p, i) || Writes(e, p)
  {
    var more := log + [e];
    assert more[|log|] == e;
    if ChangedSince(log, p, i) {
      var k :| i < k < |log| && k >= 0 && log[k] == Outside(p);
      assert more[k] == Outside(p);
    }
    if WrittenSince(log, p, i) {
      var k :| i < k < |log| && k >= 0 && Writes(log[k], p);
      assert Writes(more[k], p);
    }
  }

  /** The stamp of a file tells what the events since it tell. */
  ghost predicate Tells(w: World, log: seq<Event>, p: Path, i: nat)
    requires i < |log|
  {
    && p in w.tracker.fileState
    && w.tracker.fileState[p].partial == (log[i].Read? && log[i].partial)
    && (p in w.disk ==> (w.disk[p] != w.tracker.fileState[p].mtime <==> ChangedSince(log, p, i)))
  }

  ghost predicate StampIs(w: World, log: seq<Event>, p: Path) {
    && (p in w.tracker.fileState ==> exists i :: IsLastStamp(log, p, i))
    && forall i :: IsLastStamp(log, p, i) ==> Tells(w, log, p, i)
  }

  lemma StampStays(w: World, log: seq<Event>, e: Event, resolve: string -> Path, p: Path)
    requires StampIs(w, log, p) && Clocked(w, |log|) && Possible(w, resolve, e)
    ensures StampIs(After(w, e, |log| + 1), log + [e], p)
  {
    hide IsLastStamp, ChangedSince, WrittenSince, Hit;
    var more, next := log + [e], After(w, e, |log| + 1);
    LastStampGrows(log, e, p);
    if Stamps(e, p) {
      assert IsLastStamp(more, p, |log|);
      NothingSince(more, p);
      assert more[|log|] == e;
    } else {
      forall i | IsLastStamp(more, p, i) ensures 0 <= i < |more| && Tells(next, more, p, i) {
        LastStampIn(log, p, i);
        assert Tells(w, log, p, i);
        SinceGrows(log, e, p, i);
        assert more[i] == log[i];
      }
    }
  }

  lemma LastStampIn(log: seq<Event>, p: Path, i: int)
    requires IsLastStamp(log, p, i)
    ensures 0 <= i < |log|
  {
  }

  lemma NothingSince(log: seq<Event>, p: Path)
    ensures !ChangedSince(log, p, |log| - 1) && !WrittenSince(log, p, |log| - 1)
  {
  }

  lemma {:induction false} RunStampIs(disk: Disk, resolve: string -> Path, log: seq<Event>, p: Path)
    requires IsRun(disk, resolve, log)
    ensures StampIs(Reached(disk, log), log, p)
  {
    if log != [] {
      hide IsRun, StampIs, Possible, Clocked, Reached, After;
      var before, e := log[..|log| - 1], log[|log| - 1];
      RunShrinks(disk, resolve, log);
      RunStampIs(disk, resolve, before, p);
      RunIsClocked(disk, resolve, before);
      StampStays(Reached(disk, before), before, e, resolve, p);
      Unfolds(disk, before, e);
      assert before + [e] == log;
    }
  }

  /** Over any run, the warning for a file that is there is given exactly when it is due. */
  lemma WarnsIffDue(disk: Disk, resolve: string -> Path, log: seq<Event>, p: Path)
    requires IsRun(disk, resolve, log)
    ensures var w := Reached(disk, log); Warn(w.tracker, w.disk, p).Some? <==> p in w.disk && Due(log, p)
  {
    hide IsRun, Reached, IsLastStamp, ChangedSince;
    RunStampIs(disk, resolve, log, p);
    RunIsClocked(disk, resolve, log);
    var w := Reached(disk, log);
    if p in w.tracker.fileState {
      var i :| IsLastStamp(log, p, i);
      LastStampIn(log, p, i);
      assert Tells(w, log, p, i);
    }
    forall i | IsLastStamp(log, p, i) ensures 0 <= i < |log| && Tells(w, log, p, i) {
      LastStampIn(log, p, i);
    }
  }

  // ------------------------------------------------------- what "unchanged" means

  ghost predicate IsReadOf(log: seq<Event>, r: Region, i: int) {
    0 <= i < |log| && log[i].Read? && log[i].region == r
  }

  /** The page was read at `i`, and not written since if its file still has the version remembered. */
  ghost predicate Knows(w: World, log: seq<Event>, r: Region, i: int) {
    IsReadOf(log, r, i) && (Hit(w.tracker, w.disk, r) ==> !WrittenSince(log, r.path, i))
  }

  ghost predicate PageIs(w: World, log: seq<Event>, r: Region) {
    r in w.tracker.dedup ==> exists i :: Knows(w, log, r, i)
  }

  lemma PageStays(w: World, log: seq<Event>, e: Event, resolve: string -> Path, r: Region)
    requires PageIs(w, log, r) && Clocked(w, |log|) && Possible(w, resolve, e)
    ensures PageIs(After(w, e, |log| + 1), log + [e], r)
  {
    hide WrittenSince;
    var more, next := log + [e], After(w, e, |log| + 1);
    if e.Read? && e.region == r {
      assert more[|log|] == e;
      NothingSince(more, r.path);
      assert Knows(next, more, r, |log|);
    } else if r in next.tracker.dedup {
      var i :| Knows(w, log, r, i);
      SinceGrows(log, e, r.path, i);
      assert more[i] == log[i];
      assert Knows(next, more, r, i);
    }
  }

  lemma {:induction false} RunPageIs(disk: Disk, resolve: string -> Path, log: seq<Event>, r: Region)
    requires IsRun(disk, resolve, log)
    ensures PageIs(Reached(disk, log), log, r)
  {
    if log != [] {
      hide IsRun, PageIs, Possible, Clocked, Reached, After;
      var before, e := log[..|log| - 1], log[|log| - 1];
      RunShrinks(disk, resolve, log);
      RunPageIs(disk, resolve, before, r);
      RunIsClocked(disk, resolve, before);
      PageStays(Reached(disk, before), before, e, resolve, r);
      Unfolds(disk, before, e);
      assert before + [e] == log;
    }
  }

  /** Over any run, a page is answered as unchanged only if that very page was read before and nobody, inside
      or outside, has written the file since. */
  lemma UnchangedIsTrue(disk: Disk, resolve: string -> Path, log: seq<Event>, r: Region)
    requires IsRun(disk, resolve, log) && Hit(Reached(disk, log).tracker, Reached(disk, log).disk, r)
    ensures exists i :: IsReadOf(log, r, i) && !WrittenSince(log, r.path, i)
  {
    hide IsRun, Reached, WrittenSince, IsReadOf;
    RunPageIs(disk, resolve, log, r);
    var i :| Knows(Reached(disk, log), log, r, i);
    assert IsReadOf(log, r, i) && !WrittenSince(log, r.path, i);
  }

  // --------------------------------------------------------- what "read again" means

  ghost predicate NoReadAfter(log: seq<Event>, i: int) {
    forall k :: 0 <= i < k < |log| ==> !log[k].Read?
  }

  /** The read counted last was at `i`: its page is still known, or the file is gone, or it was written since. */
  ghost predicate LastCounted(w: World, log: seq<Event>, d: string, r: Region, i: int) {
    && IsReadOf(log, r, i) && log[i].display == d && NoReadAfter(log, i)
    && (WrittenSince(log, r.path, i) || r.path !in w.disk || Hit(w.tracker, w.disk, r))
    && (WrittenSince(log, r.path, i) ==> !Hit(w.tracker, w.disk, r))
  }

  ghost predicate StreakIs(w: World, log: seq<Event>, resolve: string -> Path) {
    match w.tracker.lastKey
    case Some((d, o, l)) => exists i :: LastCounted(w, log, d, Region(resolve(d), o, l), i)
    case None => true
  }

  lemma StreakStays(w: World, log: seq<Event>, e: Event, resolve: string -> Path)
    requires StreakIs(w, log, resolve) && Clocked(w, |log|) && Possible(w, resolve, e)
    ensures StreakIs(After(w, e, |log| + 1), log + [e], resolve)
  {
    hide WrittenSince;
    var more, next := log + [e], After(w, e, |log| + 1);
    if e.Read? {
      assert more[|log|] == e;
      NothingSince(more, e.region.path);
      assert LastCounted(next, more, e.display, e.region, |log|);
    } else if !e.Search? && w.tracker.lastKey.Some? {
      var (d, o, l) := w.tracker.lastKey.value;
      var r := Region(resolve(d), o, l);
      var i :| LastCounted(w, log, d, r, i);
      SinceGrows(log, e, r.path, i);
      assert more[i] == log[i];
      assert LastCounted(next, more, d, r, i);
    }
  }

  lemma {:induction false} RunStreakIs(disk: Disk, resolve: string -> Path, log: seq<Event>)
    requires IsRun(disk, resolve, log)
    ensures StreakIs(Reached(disk, log), log, resolve)
  {
    if log != [] {
      hide IsRun, StreakIs, Possible, Reached, After, Clocked;
      var before, e := log[..|log| - 1], log[|log| - 1];
      RunShrinks(disk, resolve, log);
      RunStreakIs(disk, resolve, before);
      RunIsClocked(disk, resolve, before);
      StreakStays(Reached(disk, before), before, e, resolve);
      Unfolds(disk, before, e);
      assert before + [e] == log;
    }
  }

  /** A read counted as a repeat, and so also one refused with the words that the content has not changed, is
      of the page recorded last, whose file was written after that: had it not been, the page would have been
      answered as unchanged. */
  lemma RepeatsWereWritten(disk: Disk, resolve: string -> Path, log: seq<Event>, d: string, r: Region, failed: bool)
    requires IsRun(disk, resolve, log) && r.path in Reached(disk, log).disk && resolve(d) == r.path
    requires var w := Reached(disk, log);
             var reply := ReadReply(w.tracker, w.disk, d, r, failed);
             reply.BlockedRepeated? || (reply.Shown? && reply.count >= 2)
    ensures exists i :: IsReadOf(log, r, i) && log[i].display == d && NoReadAfter(log, i) && WrittenSince(log, r.path, i)
  {
    hide IsRun, Reached, WrittenSince, IsReadOf, NoReadAfter;
    RunStreakIs(disk, resolve, log);
    var w := Reached(disk, log);
    assert w.tracker.lastKey == Some((d, r.offset, r.limit));
    var i :| LastCounted(w, log, d, Region(resolve(d), r.offset, r.limit), i);
    assert Region(resolve(d), r.offset, r.limit) == r;
    ReadIn(log, r, i);
    assert IsReadOf(log, r, i) && log[i].display == d && NoReadAfter(log, i) && WrittenSince(log, r.path, i);
  }

  /** The page recorded last, read again at once: counted as a repeat exactly when its file was written after
      that, and answered as unchanged exactly when it was not. */
  lemma RepeatedIffWritten(disk: Disk, resolve: string -> Path, log: seq<Event>, d: string, r: Region)
    requires IsRun(disk, resolve, log) && r.path in Reached(disk, log).disk && resolve(d) == r.path
    requires Reached(disk, log).tracker.lastKey == Some((d, r.offset, r.limit))
    ensures var w := Reached(disk, log);
            var reply := ReadReply(w.tracker, w.disk, d, r, false);
            exists i :: && IsReadOf(log, r, i) && log[i].display == d && NoReadAfter(log, i)
                        && (reply.Shown? || reply.BlockedRepeated? <==> WrittenSince(log, r.path, i))
                        && (reply.Unchanged? || reply.BlockedUnchanged? <==> !WrittenSince(log, r.path, i))
  {
    hide IsRun, Reached, WrittenSince, IsReadOf, NoReadAfter;
    RunStreakIs(disk, resolve, log);
    var w := Reached(disk, log);
    var i :| LastCounted(w, log, d, Region(resolve(d), r.offset, r.limit), i);
    assert Region(resolve(d), r.offset, r.limit) == r;
    ReadIn(log, r, i);
    assert IsReadOf(log, r, i) && log[i].display == d && NoReadAfter(log, i);
  }

  lemma ReadIn(log: seq<Event>, r: Region, i: int)
    requires IsReadOf(log, r, i)
    ensures 0 <= i < |log| && log[i].Read?
  {
  }

  // ---------------------------------------------------------- how often is too often

  /** How many reads of one page in a row the run ends with, searches breaking the row. */
  function InARow(log: seq<Event>, d: string, offset: int, limit: int): nat {
    if log == [] then 0
    else
      var before, e := log[..|log| - 1], log[|log| - 1];
      match e
      case Read(x, r, _) => if x == d && r.offset == offset && r.limit == limit then InARow(before, d, offset, limit) + 1 else 0
      case Search(_) => 0
      case _ => InARow(before, d, offset, limit)
  }

  /** How many reads of the page were answered as unchanged since it was shown, or its file written or deleted by the
      agent's own tools. */
  function Stubs(log: seq<Event>, r: Region): nat {
    if log == [] then 0
    else
      var before, e := log[..|log| - 1], log[|log| - 1];
      match e
      case Stub(x) => Stubs(before, r) + if x == r then 1 else 0
      case Read(_, x, _) => if x == r then 0 else Stubs(before, r)
      case Own(p) => if p == r.path then 0 else Stubs(before, r)
      case Deleted(p) => if p == r.path then 0 else Stubs(before, r)
      case _ => Stubs(before, r)
  }

  ghost predicate CountsAre(w: World, log: seq<Event>) {
    && w.tracker.dedupHits.Keys <= w.tracker.dedup.Keys
    && (forall r :: Hits(w.tracker, r) == Stubs(log, r))
    && (w.tracker.lastKey.Some? ==>
          var (d, o, l) := w.tracker.lastKey.value; w.tracker.consecutive == InARow(log, d, o, l))
    && (forall d, o, l :: w.tracker.lastKey != Some((d, o, l)) ==> InARow(log, d, o, l) == 0)
  }

  lemma LastOf(log: seq<Event>, e: Event)
    ensures (log + [e])[..|log + [e]| - 1] == log
  {
  }

  lemma CountsStay(w: World, log: seq<Event>, e: Event, resolve: string -> Path)
    requires CountsAre(w, log) && Possible(w, resolve, e)
    ensures CountsAre(After(w, e, |log| + 1), log + [e])
  {
    var more, next := log + [e], After(w, e, |log| + 1);
    LastOf(log, e);
    forall r ensures Hits(next.tracker, r) == Stubs(more, r) {
      assert Hits(w.tracker, r) == Stubs(log, r);
    }
    forall d, o, l ensures InARow(more, d, o, l)
                           == match e case Read(x, r, _) => (if x == d && r.offset == o && r.limit == l then InARow(log, d, o, l) + 1 else 0)
                                      case Search(_) => 0 case _ => InARow(log, d, o, l) {
    }
  }

  lemma {:induction false} RunCountsAre(disk: Disk, resolve: string -> Path, log: seq<Event>)
    requires IsRun(disk, resolve, log)
    ensures CountsAre(Reached(disk, log), log)
  {
    if log != [] {
      hide IsRun, CountsAre, Possible, Reached, After;
      var before, e := log[..|log| - 1], log[|log| - 1];
      RunShrinks(disk, resolve, log);
      RunCountsAre(disk, resolve, before);
      CountsStay(Reached(disk, before), before, e, resolve);
      Unfolds(disk, before, e);
      assert before + [e] == log;
    }
  }

  /** Over any run: a page known to be unchanged is answered so once, and refused from then on; any other is shown
      until it was read three times in a row, and refused at the fourth. */
  lemma RefusedFromTheFourth(disk: Disk, resolve: string -> Path, log: seq<Event>, d: string, r: Region, failed: bool)
    requires IsRun(disk, resolve, log)
    ensures var w := Reached(disk, log);
            var reply, known := ReadReply(w.tracker, w.disk, d, r, failed), Hit(w.tracker, w.disk, r);
            var n := InARow(log, d, r.offset, r.limit) + 1;
            && (reply.Unchanged? <==> known && Stubs(log, r) == 0)
            && (reply.BlockedUnchanged? <==> known && Stubs(log, r) >= 1)
            && (reply.BlockedUnchanged? ==> reply.hits == Stubs(log, r) + 1)
            && (reply.Failed? <==> !known && failed)
            && (reply.Shown? <==> !known && !failed && n <= 3) && (reply.Shown? ==> reply.count == n)
            && (reply.BlockedRepeated? <==> !known && !failed && n >= 4) && (reply.BlockedRepeated? ==> reply.count == n)
  {
    hide IsRun, Reached, Hit, Stubs, InARow;
    RunCountsAre(disk, resolve, log);
    var w := Reached(disk, log);
    assert Hits(w.tracker, r) == Stubs(log, r);
    assert Streak(w.tracker, d, r) == InARow(log, d, r.offset, r.limit) + 1;
  }

  /** Nobody wrote or deleted the file after `i`. */
  ghost predicate Untouched(log: seq<Event>, p: Path, i: int) {
    forall k :: 0 <= i < k < |log| ==> !Writes(log[k], p) && log[k] != Deleted(p) && log[k] != Vanished(p)
  }

  ghost predicate StillKnown(w: World, log: seq<Event>, r: Region) {
    forall i :: IsReadOf(log, r, i) && Untouched(log, r.path, i) ==> Hit(w.tracker, w.disk, r)
  }

  lemma KnownStays(w: World, log: seq<Event>, e: Event, resolve: string -> Path, r: Region)
    requires StillKnown(w, log, r) && Possible(w, resolve, e)
    ensures StillKnown(After(w, e, |log| + 1), log + [e], r)
  {
    var more, next := log + [e], After(w, e, |log| + 1);
    assert more[|log|] == e;
    forall i | IsReadOf(more, r, i) && Untouched(more, r.path, i) ensures Hit(next.tracker, next.disk, r) {
      if i < |log| {
        assert more[i] == log[i];
        assert Untouched(log, r.path, i) by { forall k | i < k < |log| ensures more[k] == log[k] {} }
        assert IsReadOf(log, r, i) && Hit(w.tracker, w.disk, r);
      }
    }
  }

  lemma {:induction false} RunStillKnows(disk: Disk, resolve: string -> Path, log: seq<Event>, r: Region)
    requires IsRun(disk, resolve, log)
    ensures StillKnown(Reached(disk, log), log, r)
  {
    if log != [] {
      hide IsRun, StillKnown, Possible, Reached, After;
      var before, e := log[..|log| - 1], log[|log| - 1];
      RunShrinks(disk, resolve, log);
      RunStillKnows(disk, resolve, before, r);
      KnownStays(Reached(disk, before), before, e, resolve, r);
      Unfolds(disk, before, e);
      assert before + [e] == log;
    }
  }

  /** And a page is answered as unchanged whenever it was read and its file neither written nor deleted since. */
  lemma UnchangedWhenUntouched(disk: Disk, resolve: string -> Path, log: seq<Event>, d: string, r: Region, i: int,
                               failed: bool)
    requires IsRun(disk, resolve, log) && IsReadOf(log, r, i) && Untouched(log, r.path, i)
    ensures var w := Reached(disk, log);
            var reply := ReadReply(w.tracker, w.disk, d, r, failed);
            reply.Unchanged? || reply.BlockedUnchanged?
  {
    hide IsRun, Reached, IsReadOf, Untouched, Hit;
    RunStillKnows(disk, resolve, log, r);
  }

  /** Which warning is given: that the file was changed, if it was; else that its last read was partial. */
  lemma WarnsOf(disk: Disk, resolve: string -> Path, log: seq<Event>, p: Path, i: int)
    requires IsRun(disk, resolve, log) && IsLastStamp(log, p, i)
    ensures var w := Reached(disk, log);
            var warning := Warn(w.tracker, w.disk, p);
            && (warning == Some(ModifiedSinceRead) <==> p in w.disk && ChangedSince(log, p, i))
            && (warning == Some(PartialView) <==> p in w.disk && !ChangedSince(log, p, i) && log[i].Read? && log[i].partial)
            && warning != Some(ModifiedSinceReadAgain)
  {
    hide IsRun, Reached, IsLastStamp, ChangedSince;
    RunStampIs(disk, resolve, log, p);
    RunIsClocked(disk, resolve, log);
    LastStampIn(log, p, i);
    assert Tells(Reached(disk, log), log, p, i);
  }

  /** A page starts at line one at the earliest and holds one line to two thousand; what is in bounds is kept. */
  lemma PageIsInBounds(path: Path, offset: int, limit: int)
    ensures var r := Page(path, offset, limit);
            && r.path == path && r.offset >= 1 && 1 <= r.limit <= 2000
            && (offset >= 1 ==> r.offset == offset) && (1 <= limit <= 2000 ==> r.limit == limit)
            && (offset < 1 ==> r.offset == 1) && (limit < 1 ==> r.limit == 1) && (limit > 2000 ==> r.limit == 2000)
  {
  }

  // ---------------------------------------------------------- the tools make these runs

  /** What a read of an opened page is in a run: nothing when it failed, a stub when it is answered as unchanged,
      and otherwise a recorded read. */
  function ReadEvents(display: string, r: Region, partial: bool, reply: Reply): seq<Event> {
    match reply
    case Unchanged => [Stub(r)]
    case BlockedUnchanged(_) => [Stub(r)]
    case Shown(_) => [Read(display, r, partial)]
    case BlockedRepeated(_) => [Read(display, r, partial)]
    case _ => []
  }

  /** A read tool's call, over the state a run left, makes that run longer by just what its answer says happened. */
  lemma ReadingContinuesTheRun(disk: Disk, resolve: string -> Path, log: seq<Event>, display: string, r: Region,
                               failed: bool, partial: bool)
    requires IsRun(disk, resolve, log) && r.path in Reached(disk, log).disk && resolve(display) == r.path
    ensures var w := Reached(disk, log);
            var more := log + ReadEvents(display, r, partial, ReadReply(w.tracker, w.disk, display, r, failed));
            && IsRun(disk, resolve, more)
            && Reached(disk, more) == World(w.disk, ReadEffect(w.tracker, w.disk, display, r, failed, partial))
  {
    hide Reached, IsRun;
    var w := Reached(disk, log);
    var es := ReadEvents(display, r, partial, ReadReply(w.tracker, w.disk, display, r, failed));
    if es == [] {
      assert log + es == log;
    } else {
      RunGrows(disk, resolve, log, es[0]);
      Unfolds(disk, log, es[0]);
    }
  }

  /** So does an own write, and forgetting the pages of a file that was deleted. */
  lemma WritingContinuesTheRun(disk: Disk, resolve: string -> Path, log: seq<Event>, p: Path)
    requires IsRun(disk, resolve, log)
    ensures var w, more := Reached(disk, log), log + [Own(p)];
            var after := w.disk[p := |log| + 1];
            IsRun(disk, resolve, more) && Reached(disk, more) == World(after, Written(w.tracker, after, p))
    ensures var w, more := Reached(disk, log), log + [Deleted(p)];
            p in w.disk ==>
              IsRun(disk, resolve, more) && Reached(disk, more) == World(w.disk - {p}, Invalidated(w.tracker, p))
  {
    hide Reached, IsRun;
    RunGrows(disk, resolve, log, Own(p));
    Unfolds(disk, log, Own(p));
    if p in Reached(disk, log).disk {
      RunGrows(disk, resolve, log, Deleted(p));
      Unfolds(disk, log, Deleted(p));
    }
  }

  lemma RunGrows(disk: Disk, resolve: string -> Path, log: seq<Event>, e: Event)
    requires IsRun(disk, resolve, log) && Possible(Reached(disk, log), resolve, e)
    ensures IsRun(disk, resolve, log + [e])
  {
    var more := log + [e];
    forall i | 0 <= i < |more| ensures Possible(Reached(disk, more[..i]), resolve, more[i]) {
      assert more[..i] == log[..i];
      assert log[..|log|] == log;
    }
  }

  /** A file is there exactly when the last to touch it wrote it, whatever files there were before. */
  lemma {:induction false} ThereIfWritten(disk: Disk, log: seq<Event>, p: Path, i: nat)
    requires i < |log| && (Writes(log[i], p) || log[i] == Vanished(p) || log[i] == Deleted(p))
    requires Untouched(log, p, i)
    ensures p in Reached(disk, log).disk <==> Writes(log[i], p)
    ensures Writes(log[i], p) ==> Reached(disk, log).disk[p] == i + 1
  {
    var before := log[..|log| - 1];
    if i < |before| {
      assert Untouched(before, p, i) by { forall k | i < k < |before| ensures before[k] == log[k] {} }
      ThereIfWritten(disk, before, p, i);
      assert !Writes(log[|log| - 1], p) && log[|log| - 1] != Deleted(p) && log[|log| - 1] != Vanished(p);
    }
  }
}
