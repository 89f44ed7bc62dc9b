/**
  One tool call: authorise, run, record. Every call of every tool goes through
  the host, and what the host is asked, in which order, is the trace.
 */
module AgentDispatch {
  import opened Wrappers

  /** What the host is told after every call. */
  datatype Record = Record(callId: string, name: string, result: string, refused: bool)

  /** A host call; `n` numbers the tool call it was made for. */
  datatype Event =
    | Authorize(n: nat, name: string, allowed: bool)
    | ResolveRead(n: nat, ok: bool)
    | ResolveWrite(n: nat, ok: bool)
    | ResolveWorkdir(n: nat, ok: bool)
    | WriteFile(n: nat)
    | DeleteFile(n: nat)
    | RunCommand(n: nat)
    | AfterTool(n: nat, record: Record)

  predicate IsEffect(e: Event) {
    e.WriteFile? || e.DeleteFile? || e.RunCommand?
  }

  predicate HasEffect(es: seq<Event>) {
    exists i :: 0 <= i < |es| && IsEffect(es[i])
  }

  /** What the host and the tools answer while one call runs; refusals are texts, or nothing. */
  datatype Answers = Answers(
    refusal: Option<string>,          // authorize
    resolveRefusal: Option<string>,   // resolve_read, resolve_write
    writes: bool,                     // the tool got as far as asking for its write
    timeoutRefused: bool,             // the terminal's timeout is above the maximum
    workdirGiven: bool,
    workdirRefusal: Option<string>,   // the workdir's own form
    boundaryRefusal: Option<string>,  // resolve_workdir
    denied: bool,                     // run_command was refused by the sandbox
    text: string)                     // what the tool itself returns

  const HANDLERS: set<string> := {"read_file", "search_files", "patch", "write_file", "delete_file", "terminal"}

  function Arguments(name: string): set<string> {
    if name == "read_file" then {"path", "offset", "limit"}
    else if name == "search_files" then
      {"pattern", "target", "path", "file_glob", "limit", "offset", "output_mode", "context"}
    else if name == "patch" then {"path", "old_string", "new_string", "replace_all"}
    else if name == "write_file" then {"path", "content"}
    else if name == "delete_file" then {"path", "reason"}
    else if name == "terminal" then {"command", "timeout", "workdir"}
    else {}
  }

  datatype ToolDefinition = ToolDefinition(name: string, declared: set<string>)

  /** Every offered tool has a handler, and every offered argument is read by it. */
  predicate Executable(tools: seq<ToolDefinition>) {
    forall i :: 0 <= i < |tools| ==> tools[i].name in HANDLERS && tools[i].declared <= Arguments(tools[i].name)
  }

  method CheckContract(tools: seq<ToolDefinition>) returns (problems: seq<string>)
    ensures problems == [] <==> Executable(tools)
    ensures forall p :: p in problems <==>
              exists t :: t in tools && t.name == p && !(t.name in HANDLERS && t.declared <= Arguments(t.name))
  {
    problems := [];
    var i := 0;
    while i < |tools|
      invariant 0 <= i <= |tools|
      invariant problems == [] <==> Executable(tools[..i])
      invariant forall p :: p in problems <==>
                  exists t :: t in tools[..i] && t.name == p && !(t.name in HANDLERS && t.declared <= Arguments(t.name))
    {
      assert tools[..i + 1] == tools[..i] + [tools[i]];
      if tools[i].name !in HANDLERS || !(tools[i].declared <= Arguments(tools[i].name)) {
        assert !Executable(tools[..i + 1]) by { assert tools[..i + 1][i] == tools[i]; }
        problems := problems + [tools[i].name];
      } else {
        forall k | 0 <= k < i ensures tools[..i + 1][k] == tools[..i][k] {}
      }
      i := i + 1;
    }
    assert tools[..i] == tools;
  }

  /** The tools the repository ships, with the arguments their schemas declare. */
  const SHIPPED: seq<ToolDefinition> := [
    ToolDefinition("read_file", {"path", "offset", "limit"}),
    ToolDefinition("search_files",
                   {"pattern", "target", "path", "file_glob", "limit", "offset", "output_mode", "context"}),
    ToolDefinition("patch", {"path", "old_string", "new_string", "replace_all"}),
    ToolDefinition("terminal", {"command", "timeout", "workdir"}),
    ToolDefinition("write_file", {"path", "content"}),
    ToolDefinition("delete_file", {"path", "reason"})
  ]

  /** Every shipped tool can run, each declares exactly what its handler reads, and every handler is offered. */
  lemma ShippedToolsAreExecutable()
    ensures Executable(SHIPPED)
    ensures forall t :: t in SHIPPED ==> t.declared == Arguments(t.name)
    ensures forall name :: name in HANDLERS <==> exists t :: t in SHIPPED && t.name == name
  {
    forall name | name in HANDLERS ensures exists t :: t in SHIPPED && t.name == name { IsShipped(name); }
  }

  lemma IsShipped(name: string)
    requires name in HANDLERS
    ensures exists t :: t in SHIPPED && t.name == name
  {
    var k := if name == "read_file" then 0 else if name == "search_files" then 1 else if name == "patch" then 2
             else if name == "terminal" then 3 else if name == "write_file" then 4 else 5;
    assert SHIPPED[k].name == name;
  }

  /** A write or a deletion at `i` comes right after its path was resolved. */
  predicate Resolved(n: nat, es: seq<Event>, i: int)
    requires 0 <= i < |es|
  {
    es[i].WriteFile? || es[i].DeleteFile? ==> i >= 1 && es[i - 1] == ResolveWrite(n, true)
  }

  /** An effect belongs to the tools that have it, and to no other. */
  predicate OfTool(e: Event, name: string) {
    && (e.WriteFile? ==> name == "write_file" || name == "patch")
    && (e.DeleteFile? ==> name == "delete_file")
    && (e.RunCommand? ==> name == "terminal")
  }

  /** The order every call keeps: it ends by being recorded; it has at most one effect, just before
      that; the effect is one of its tool's and follows an authorisation of this very call, and a write or a
      deletion follows a path resolved for it. */
  ghost predicate InOrder(n: nat, es: seq<Event>, record: Record) {
    && es != [] && es[|es| - 1] == AfterTool(n, record)
    && (forall i :: 0 <= i < |es| ==> es[i].n == n)
    && (forall i :: 0 <= i < |es| - 1 ==> !es[i].AfterTool?)
    && (forall i :: 0 <= i < |es| && IsEffect(es[i]) ==>
          && i == |es| - 2 && es[0] == Authorize(n, record.name, true) && Resolved(n, es, i)
          && OfTool(es[i], record.name))
  }

  /** What a handler may ask of the host: at most one effect, last, and a write only of a resolved path. */
  ghost predicate HandlerOrder(n: nat, es: seq<Event>) {
    && (forall i :: 0 <= i < |es| ==> es[i].n == n && !es[i].AfterTool? && !es[i].Authorize?)
    && (forall i :: 0 <= i < |es| && IsEffect(es[i]) ==> i == |es| - 1 && Resolved(n, es, i))
  }

  lemma HandledInOrder(n: nat, ran: seq<Event>, record: Record, allowed: bool)
    requires HandlerOrder(n, ran) && (!allowed ==> ran == []) && forall e :: e in ran ==> OfTool(e, record.name)
    ensures InOrder(n, [Authorize(n, record.name, allowed)] + ran + [AfterTool(n, record)], record)
  {
    var es := [Authorize(n, record.name, allowed)] + ran + [AfterTool(n, record)];
    forall i | 0 <= i < |es|
      ensures es[i].n == n && (i < |es| - 1 ==> !es[i].AfterTool?)
      ensures IsEffect(es[i]) ==>
                i == |es| - 2 && es[0] == Authorize(n, record.name, true) && Resolved(n, es, i) && OfTool(es[i], record.name)
    {
      if 0 < i < |es| - 1 {
        assert es[i] == ran[i - 1] && (IsEffect(ran[i - 1]) ==> Resolved(n, ran, i - 1));
        assert i >= 2 ==> es[i - 1] == ran[i - 2];
      }
    }
  }

  /** The boundary lets the tool do what it does: resolve its path, start where it is told to. */
  predicate Granted(name: string, a: Answers) {
    match name
    case "patch" => a.resolveRefusal.None? && a.writes
    case "write_file" => a.resolveRefusal.None? && a.writes
    case "delete_file" => a.resolveRefusal.None?
    case "terminal" =>
      !a.timeoutRefused && (a.workdirGiven ==> a.workdirRefusal.None? && a.boundaryRefusal.None?)
    case _ => false
  }

  function Refused(id: string, name: string, why: string): Record {
    Record(id, name, why, true)
  }

  /** The boundary is asked first: about the path, or about the directory a terminal is told to start in. */
  function Resolution(n: nat, name: string, a: Answers): seq<Event> {
    if name == "read_file" || name == "search_files" then [ResolveRead(n, a.resolveRefusal.None?)]
    else if name != "terminal" then [ResolveWrite(n, a.resolveRefusal.None?)]
    else if !a.timeoutRefused && a.workdirGiven && a.workdirRefusal.None? then
      [ResolveWorkdir(n, a.boundaryRefusal.None?)]
    else []
  }

  /** A handler's text, and whether the call was refused: the first refusal, else what the tool returns. */
  function Result(name: string, a: Answers): (string, bool) {
    var refusal :=
      if name != "terminal" then a.resolveRefusal
      else if a.timeoutRefused || !a.workdirGiven then None
      else if a.workdirRefusal.Some? then a.workdirRefusal
      else a.boundaryRefusal;
    if refusal.Some? then (refusal.value, true)
    else (a.text, name == "terminal" && !a.timeoutRefused && a.denied)
  }

  /** What the tool does to the world, when it is let. */
  function Effect(n: nat, name: string): Event {
    if name == "delete_file" then DeleteFile(n) else if name == "terminal" then RunCommand(n) else WriteFile(n)
  }

  function Asked(n: nat, name: string, a: Answers): seq<Event> {
    Resolution(n, name, a) + if Granted(name, a) then [Effect(n, name)] else []
  }

  /** What a handler asks of the host is in order, and has an effect exactly when the boundary grants it. */
  lemma AskedInOrder(n: nat, name: string, a: Answers)
    ensures HandlerOrder(n, Asked(n, name, a)) && forall e :: e in Asked(n, name, a) ==> OfTool(e, name)
    ensures HasEffect(Asked(n, name, a)) <==> Granted(name, a)
  {
    var es := Asked(n, name, a);
    if Granted(name, a) { assert IsEffect(es[|es| - 1]); }
  }

  method HandleRead(n: nat, id: string, name: string, a: Answers) returns (record: Record, es: seq<Event>)
    requires name == "read_file" || name == "search_files"
    ensures record == Record(id, name, Result(name, a).0, Result(name, a).1) && es == Asked(n, name, a)
  {
    es := [ResolveRead(n, a.resolveRefusal.None?)];
    if a.resolveRefusal.Some? {
      return Refused(id, name, a.resolveRefusal.value), es;
    }
    record := Record(id, name, a.text, false);
  }

  method HandleWrite(n: nat, id: string, name: string, a: Answers) returns (record: Record, es: seq<Event>)
    requires name == "patch" || name == "write_file"
    ensures record == Record(id, name, Result(name, a).0, Result(name, a).1) && es == Asked(n, name, a)
  {
    es := [ResolveWrite(n, a.resolveRefusal.None?)];
    if a.resolveRefusal.Some? {
      return Refused(id, name, a.resolveRefusal.value), es;
    }
    if a.writes {
      es := es + [WriteFile(n)];
    }
    record := Record(id, name, a.text, false);
  }

  method HandleDelete(n: nat, id: string, a: Answers) returns (record: Record, es: seq<Event>)
    ensures record == Record(id, "delete_file", Result("delete_file", a).0, Result("delete_file", a).1)
    ensures es == Asked(n, "delete_file", a)
  {
    es := [ResolveWrite(n, a.resolveRefusal.None?)];
    if a.resolveRefusal.Some? {
      return Refused(id, "delete_file", a.resolveRefusal.value), es;
    }
    es := es + [DeleteFile(n)];
    record := Record(id, "delete_file", a.text, false);
  }

  method HandleTerminal(n: nat, id: string, a: Answers) returns (record: Record, es: seq<Event>)
    ensures record == Record(id, "terminal", Result("terminal", a).0, Result("terminal", a).1)
    ensures es == Asked(n, "terminal", a)
  {
    es := [];
    if a.timeoutRefused {
      return Record(id, "terminal", a.text, false), es;
    }
    if a.workdirGiven {
      var refusal := a.workdirRefusal;
      if refusal.None? {
        es := es + [ResolveWorkdir(n, a.boundaryRefusal.None?)];
        refusal := a.boundaryRefusal;
      }
      if refusal.Some? {
        return Refused(id, "terminal", refusal.value), es;
      }
    }
    es := es + [RunCommand(n)];
    record := Record(id, "terminal", a.text, a.denied);
  }

  /** The handler of a tool: the host calls it makes, in order, and what is recorded of it. */
  method Handle(n: nat, id: string, name: string, a: Answers) returns (record: Record, es: seq<Event>)
    requires name in HANDLERS
    ensures record == Record(id, name, Result(name, a).0, Result(name, a).1) && es == Asked(n, name, a)
  {
    hide Asked, Result;
    if name == "read_file" || name == "search_files" {
      record, es := HandleRead(n, id, name, a);
    } else if name == "patch" || name == "write_file" {
      record, es := HandleWrite(n, id, name, a);
    } else if name == "delete_file" {
      record, es := HandleDelete(n, id, a);
    } else {
      record, es := HandleTerminal(n, id, a);
    }
  }

  /** What is recorded of a call: a tool that is not there, or not allowed, is refused; every other text is
      bounded on its way out. */
  function Executed(id: string, name: string, a: Answers, available: seq<string>, bounded: string -> string): Record {
    if name !in HANDLERS || name !in available then Refused(id, name, "Tool '" + name + "' does not exist.")
    else if a.refusal.Some? then Refused(id, name, bounded(a.refusal.value))
    else Record(id, name, bounded(Result(name, a).0), Result(name, a).1)
  }

  /** One call through the dispatcher. Only an offered tool runs, and only once it is authorised. */
  method Execute(n: nat, id: string, name: string, a: Answers, available: seq<string>, bounded: string -> string)
      returns (text: string, record: Record, es: seq<Event>)
    ensures InOrder(n, es, record)
    ensures record == Executed(id, name, a, available, bounded) && text == record.result
    ensures HasEffect(es) <==> name in HANDLERS && name in available && a.refusal == None && Granted(name, a)
    ensures Does(n, name, a, available, es) && Consults(n, name, a, available, es) && Tells(id, name, a, available, bounded, record)
  {
    ExecutedTells(id, name, a, available, bounded);
    hide Asked, HandlerOrder, InOrder, Result, Granted, Does, Consults, Tells;
    if name !in HANDLERS || name !in available {
      text := "Tool '" + name + "' does not exist.";
      record := Refused(id, name, text);
      es := [AfterTool(n, record)];
      OnlyRecorded(n, record);
      NothingDone(n, name, a, available, record);
      return;
    }
    es := [Authorize(n, name, a.refusal.None?)];
    var ran := [];
    if a.refusal.Some? {
      text, record := a.refusal.value, Refused(id, name, a.refusal.value);
    } else {
      record, ran := Handle(n, id, name, a);
      text := record.result;
    }
    if bounded(text) != text {
      text := bounded(text);
      record := record.(result := text);
    }
    AskedInOrder(n, name, a);
    HandledInOrder(n, ran, record, a.refusal.None?);
    EffectIsWithin(n, name, a.refusal.None?, ran, record);
    AskedDoes(n, name, a, available, record);
    es := es + ran + [AfterTool(n, record)];
  }

  // ------------------------------------------------------------- each tool by its name

  /** The boundary lets a tool at its path. */
  predicate PathIsFree(a: Answers) {
    a.refusal.None? && a.resolveRefusal.None?
  }

  /** The boundary lets a command start where it is told to, for as long as it is told. */
  predicate MayStart(a: Answers) {
    a.refusal.None? && !a.timeoutRefused && (a.workdirGiven ==> a.workdirRefusal.None? && a.boundaryRefusal.None?)
  }

  /** What one call does to the world: a file is written for `write_file` and `patch` alone, deleted for
      `delete_file` alone, a command run for `terminal` alone, and each of them exactly when the tool is offered,
      the call authorised and the boundary lets it. */
  ghost predicate Does(n: nat, name: string, a: Answers, available: seq<string>, es: seq<Event>) {
    && (WriteFile(n) in es <==> name in available && (name == "write_file" || name == "patch") && PathIsFree(a) && a.writes)
    && (DeleteFile(n) in es <==> name in available && name == "delete_file" && PathIsFree(a))
    && (RunCommand(n) in es <==> name in available && name == "terminal" && MayStart(a))
  }

  /** What the host is asked: to authorise every offered call, and then about the path or the directory the tool
      needs, each with the answer it gives. */
  ghost predicate Consults(n: nat, name: string, a: Answers, available: seq<string>, es: seq<Event>) {
    && (forall ok :: Authorize(n, name, ok) in es <==>
          name in HANDLERS && name in available && ok == a.refusal.None?)
    && (forall ok :: ResolveRead(n, ok) in es <==>
          name in available && (name == "read_file" || name == "search_files") && a.refusal.None? && ok == a.resolveRefusal.None?)
    && (forall ok :: ResolveWrite(n, ok) in es <==>
          && name in available && (name == "patch" || name == "write_file" || name == "delete_file")
          && a.refusal.None? && ok == a.resolveRefusal.None?)
    && (forall ok :: ResolveWorkdir(n, ok) in es <==>
          && name in available && name == "terminal" && a.refusal.None? && !a.timeoutRefused
          && a.workdirGiven && a.workdirRefusal.None? && ok == a.boundaryRefusal.None?)
  }

  /** What is told of it: refused when the tool is not there, or somebody refused it, the sandbox included; and
      the first refusal, else the tool's own text. */
  predicate Tells(id: string, name: string, a: Answers, available: seq<string>, bounded: string -> string, record: Record) {
    && record.callId == id && record.name == name
    && (record.refused <==>
          || name !in available || name !in HANDLERS || a.refusal.Some? || (name != "terminal" && a.resolveRefusal.Some?)
          || (name == "terminal" && !a.timeoutRefused && (MayStart(a) ==> a.denied)))
    && (name in available && name in HANDLERS && a.refusal.Some? ==> record.result == bounded(a.refusal.value))
    && (name in available && name in HANDLERS && name != "terminal" && a.refusal.None? && a.resolveRefusal.Some? ==>
          record.result == bounded(a.resolveRefusal.value))
    && (name in available && name in HANDLERS && name != "terminal" && PathIsFree(a) ==> record.result == bounded(a.text))
    && (name in available && name == "terminal" && (MayStart(a) || (a.refusal.None? && a.timeoutRefused)) ==>
          record.result == bounded(a.text))
  }

  lemma ExecutedTells(id: string, name: string, a: Answers, available: seq<string>, bounded: string -> string)
    ensures Tells(id, name, a, available, bounded, Executed(id, name, a, available, bounded))
  {
  }

  lemma NothingDone(n: nat, name: string, a: Answers, available: seq<string>, record: Record)
    requires name !in HANDLERS || name !in available
    ensures Does(n, name, a, available, [AfterTool(n, record)]) && Consults(n, name, a, available, [AfterTool(n, record)])
  {
  }

  lemma AskedDoes(n: nat, name: string, a: Answers, available: seq<string>, record: Record)
    requires name in HANDLERS && name in available
    ensures var es := [Authorize(n, name, a.refusal.None?)] + (if a.refusal.None? then Asked(n, name, a) else [])
                      + [AfterTool(n, record)];
            Does(n, name, a, available, es) && Consults(n, name, a, available, es)
  {
    var first, last := Authorize(n, name, a.refusal.None?), AfterTool(n, record);
    var ran := if a.refusal.None? then Asked(n, name, a) else [];
    AskedIs(n, name, a);
    ResolutionIs(n, name, a);
    hide Asked, Resolution;
    assert IsMade(first, ran, last, [first] + ran + [last]) by { InMiddle(first, ran, last); }
    DoneSo(n, name, a, available, ran, [first] + ran + [last], record);
    AskedSo(n, name, a, available, ran, [first] + ran + [last], record);
  }

  ghost predicate IsMade(first: Event, ran: seq<Event>, last: Event, es: seq<Event>) {
    forall e :: e in es <==> e == first || e in ran || e == last
  }

  lemma DoneSo(n: nat, name: string, a: Answers, available: seq<string>, ran: seq<Event>, es: seq<Event>, record: Record)
    requires name in HANDLERS && name in available && ran == if a.refusal.None? then Asked(n, name, a) else []
    requires IsMade(Authorize(n, name, a.refusal.None?), ran, AfterTool(n, record), es)
    ensures Does(n, name, a, available, es)
  {
    AskedIs(n, name, a);
    ResolutionIs(n, name, a);
    hide Asked, Resolution;
  }

  lemma AskedSo(n: nat, name: string, a: Answers, available: seq<string>, ran: seq<Event>, es: seq<Event>, record: Record)
    requires name in HANDLERS && name in available && ran == if a.refusal.None? then Asked(n, name, a) else []
    requires IsMade(Authorize(n, name, a.refusal.None?), ran, AfterTool(n, record), es)
    ensures Consults(n, name, a, available, es)
  {
    AskedIs(n, name, a);
    ResolutionIs(n, name, a);
    hide Asked, Resolution, Granted;
  }

  lemma ResolutionIs(n: nat, name: string, a: Answers)
    requires name in HANDLERS
    ensures forall e :: e in Resolution(n, name, a) <==>
              || (e == ResolveRead(n, a.resolveRefusal.None?) && (name == "read_file" || name == "search_files"))
              || (e == ResolveWrite(n, a.resolveRefusal.None?)
                  && (name == "patch" || name == "write_file" || name == "delete_file"))
              || (e == ResolveWorkdir(n, a.boundaryRefusal.None?)
                  && name == "terminal" && !a.timeoutRefused && a.workdirGiven && a.workdirRefusal.None?)
  {
  }

  lemma InMiddle<T>(first: T, es: seq<T>, last: T)
    ensures forall e :: e in [first] + es + [last] <==> e == first || e in es || e == last
  {
  }

  lemma AskedIs(n: nat, name: string, a: Answers)
    requires name in HANDLERS
    ensures forall e :: e in Asked(n, name, a) <==> e in Resolution(n, name, a) || (Granted(name, a) && e == Effect(n, name))
  {
  }

  lemma OnlyRecorded(n: nat, record: Record)
    ensures InOrder(n, [AfterTool(n, record)], record) && !HasEffect([AfterTool(n, record)])
  {
  }

  lemma EffectIsWithin(n: nat, name: string, allowed: bool, ran: seq<Event>, record: Record)
    ensures HasEffect([Authorize(n, name, allowed)] + ran + [AfterTool(n, record)]) <==> HasEffect(ran)
  {
    var es := [Authorize(n, name, allowed)] + ran + [AfterTool(n, record)];
    if HasEffect(ran) {
      var i :| 0 <= i < |ran| && IsEffect(ran[i]);
      assert IsEffect(es[i + 1]);
    }
    if HasEffect(es) {
      var i :| 0 <= i < |es| && IsEffect(es[i]);
      assert es[i] == ran[i - 1];
    }
  }

  // ------------------------------------------------------------- the whole trace

  function Flat(segments: seq<seq<Event>>): seq<Event> {
    if segments == [] then [] else Flat(segments[..|segments| - 1]) + segments[|segments| - 1]
  }

  /** Call by call, numbered from 0, each in order. */
  ghost predicate Audit(segments: seq<seq<Event>>, records: seq<Record>) {
    && |segments| == |records|
    && forall k :: 0 <= k < |segments| ==> InOrder(k, segments[k], records[k])
  }

  /** The records the host was told of, in the order it was told. */
  function Told(trace: seq<Event>): seq<Record> {
    if trace == [] then []
    else
      var last := trace[|trace| - 1];
      Told(trace[..|trace| - 1]) + if last.AfterTool? then [last.record] else []
  }

  lemma {:induction false} ToldAppends(a: seq<Event>, b: seq<Event>)
    ensures Told(a + b) == Told(a) + Told(b)
  {
    if b == [] {
      assert a + b == a;
    } else {
      ToldAppends(a, b[..|b| - 1]);
      assert (a + b)[..|a + b| - 1] == a + b[..|b| - 1];
    }
  }

  lemma {:induction false} ToldNothing(es: seq<Event>)
    requires forall i :: 0 <= i < |es| ==> !es[i].AfterTool?
    ensures Told(es) == []
  {
    if es != [] { ToldNothing(es[..|es| - 1]); }
  }

  lemma SegmentTells(n: nat, es: seq<Event>, record: Record)
    requires InOrder(n, es, record)
    ensures Told(es) == [record]
  {
    ToldNothing(es[..|es| - 1]);
  }

  /** The kept records are exactly those the host was told of. */
  lemma {:induction false} RecordsAreTold(segments: seq<seq<Event>>, records: seq<Record>)
    requires Audit(segments, records)
    ensures Told(Flat(segments)) == records
  {
    hide InOrder, Told;
    if segments != [] {
      var last := |segments| - 1;
      RecordsAreTold(segments[..last], records[..last]);
      ToldAppends(Flat(segments[..last]), segments[last]);
      SegmentTells(last, segments[last], records[last]);
      assert records == records[..last] + [records[last]];
    } else {
      ToldNothing([]);
      assert records == [];
    }
  }

  /** Before `p`, the host allowed the very call the event at `p` belongs to. */
  ghost predicate Allowed(trace: seq<Event>, p: int)
    requires 0 <= p < |trace|
  {
    exists q :: 0 <= q < p && trace[q].Authorize? && trace[q].n == trace[p].n && trace[q].allowed
  }

  /** Segment `k` of the trace starts at `from`. */
  ghost predicate StartsAt(trace: seq<Event>, segment: seq<Event>, from: int) {
    && 0 <= from && from + |segment| <= |trace|
    && forall j :: 0 <= j < |segment| ==> trace[from + j] == segment[j]
  }

  lemma {:induction false} SegmentOf(segments: seq<seq<Event>>, records: seq<Record>, p: int) returns (k: int, from: int)
    requires Audit(segments, records) && 0 <= p < |Flat(segments)|
    ensures 0 <= k < |segments| && 0 <= p - from < |segments[k]|
    ensures Flat(segments)[p] == segments[k][p - from] && StartsAt(Flat(segments), segments[k], from)
    ensures InOrder(k, segments[k], records[k])
  {
    hide InOrder;
    var last := |segments| - 1;
    var before := Flat(segments[..last]);
    if p < |before| {
      k, from := SegmentOf(segments[..last], records[..last], p);
    } else {
      k, from := last, |before|;
    }
  }

  /** In the whole trace of a run, every write, deletion and command follows an authorisation of its own
      call, and no call has two. */
  lemma EffectsAreAuthorised(segments: seq<seq<Event>>, records: seq<Record>, p: int, q: int)
    requires Audit(segments, records)
    requires 0 <= p < |Flat(segments)| && IsEffect(Flat(segments)[p])
    requires 0 <= q < |Flat(segments)| && IsEffect(Flat(segments)[q])
    ensures Allowed(Flat(segments), p)
    ensures var n := Flat(segments)[p].n; n < |records| && OfTool(Flat(segments)[p], records[n].name)
    ensures Flat(segments)[p].n == Flat(segments)[q].n ==> p == q
  {
    var trace := Flat(segments);
    var k, f := SegmentOf(segments, records, p);
    var l, g := SegmentOf(segments, records, q);
    assert trace[f] == segments[k][0];
    if k == l {
      EndsOnce(segments, records, f + |segments[k]| - 1, g + |segments[k]| - 1);
    }
  }

  /** A call is recorded once. */
  lemma {:induction false} EndsOnce(segments: seq<seq<Event>>, records: seq<Record>, p: int, q: int)
    requires Audit(segments, records)
    requires 0 <= p < |Flat(segments)| && 0 <= q < |Flat(segments)|
    requires Flat(segments)[p].AfterTool? && Flat(segments)[q].AfterTool? && Flat(segments)[p].n == Flat(segments)[q].n
    ensures p == q
  {
    var last := |segments| - 1;
    var before := Flat(segments[..last]);
    assert InOrder(last, segments[last], records[last]);
    if p < |before| && q < |before| {
      EndsOnce(segments[..last], records[..last], p, q);
    } else if p < |before| || q < |before| {
      var k, _ := SegmentOf(segments[..last], records[..last], if p < |before| then p else q);
      assert false;
    }
  }
}
