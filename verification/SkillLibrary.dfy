/**
  The directory of skills: how a file is read and written, and what a save
  keeps of the skill it overwrites.
 */
module SkillLibrary {
  import opened Wrappers
  import opened Strings
  import opened SkillFile
  import opened SkillRoundTrip

  // ------------------------------------------------------- files read and written in loops

  lemma LinesStayUnread(tx: Text, lines: seq<string>, i: nat)
    requires i <= |lines| && ReadLines(tx, lines[..i]) == None
    ensures ReadLines(tx, lines) == None
    decreases |lines| - i
  {
    if i == |lines| {
      assert lines[..i] == lines;
    } else {
      assert lines[..i + 1][..i] == lines[..i];
      LinesStayUnread(tx, lines, i + 1);
    }
  }

  method ReadFrontmatter(tx: Text, text: string) returns (fs: Fields, body: string)
    ensures (fs, body) == ParseFrontmatter(tx, text)
  {
    hide ReadLine, Split;
    fs, body := [], text;
    var rest := Opened(text);
    if rest == None {
      return;
    }
    var closed := Closed(rest.value);
    if closed == None {
      return;
    }
    var lines := Split(IsBreak, closed.value.0);
    var read: Fields := [];
    for i := 0 to |lines|
      invariant ReadLines(tx, lines[..i]) == Some(read)
    {
      assert lines[..i + 1][..i] == lines[..i];
      var next := ReadLine(tx, read, lines[i]);
      if next == None {
        LinesStayUnread(tx, lines, i + 1);
        return;
      }
      read := next.value;
    }
    assert lines[..|lines|] == lines;
    fs, body := read, closed.value.1;
  }

  method RenderSkill(tx: Text, s: Skill) returns (text: string)
    ensures text == Render(tx, s)
  {
    hide Join, Trim, ListText;
    var lines: seq<string> := [];
    var slots := Slots(tx, s);
    for i := 0 to |slots|
      invariant lines == Lines(Present(slots[..i]))
    {
      assert slots[..i + 1][..i] == slots[..i];
      if slots[i].written {
        lines := lines + [Line((slots[i].key, slots[i].value))];
      }
    }
    assert slots[..|slots|] == slots;
    for i := 0 to |s.extra|
      invariant lines == Lines(Present(slots) + s.extra[..i])
    {
      lines := lines + [Line(s.extra[i])];
    }
    assert s.extra[..|s.extra|] == s.extra;
    text := "---\n" + Join("\n", lines) + "\n---\n\n" + Trim(tx.blank, s.body) + "\n";
  }

  // ------------------------------------------------------------------------ saving

  datatype Request = Request(content: string, description: string, scope: seq<string>, requires_: seq<string>, stamp: string)

  /** What a save writes: what it states, and else what the file before it, read as text, established. */
  function Saved(tx: Text, file: Option<string>, name: string, r: Request): Skill {
    var description := Trim(tx.blank, r.description);
    match file
    case None =>
      Skill(name, Trim(tx.blank, r.content), description, if r.scope != [] then r.scope else [ANY_SCOPE], r.requires_,
            [], 1, r.stamp, r.stamp, [], true, true)
    case Some(text) =>
      var previous := Parse(tx, name, Universal(text));
      Skill(name, Trim(tx.blank, r.content), if description != "" then description else previous.description,
            if r.scope != [] then r.scope else previous.scope, if r.requires_ != [] then r.requires_ else previous.requires_,
            previous.tags, previous.version + 1, if previous.created != "" then previous.created else r.stamp, r.stamp, previous.extra, true, true)
  }

  method Merge(tx: Text, file: Option<string>, n: string, r: Request) returns (skill: Skill)
    ensures skill == Saved(tx, file, n, r)
  {
    hide Trim, ParseFrontmatter, SkillOf;
    var description := Trim(tx.blank, r.description);
    skill := Skill(n, Trim(tx.blank, r.content), description, if r.scope != [] then r.scope else [ANY_SCOPE], r.requires_,
                   [], 1, r.stamp, r.stamp, [], true, true);
    if file.Some? {
      var fs, body := ReadFrontmatter(tx, Universal(file.value));
      var previous := SkillOf(tx, n, fs, body);
      skill := skill.(description := if description != "" then description else previous.description,
                      scope := if r.scope != [] then r.scope else previous.scope,
                      requires_ := if r.requires_ != [] then r.requires_ else previous.requires_,
                      tags := previous.tags, version := previous.version + 1,
                      created := if previous.created != "" then previous.created else r.stamp, extra := previous.extra);
    }
  }

  class SkillDirectory {
    var files: map<string, string>

    constructor ()
      ensures files == map[]
    {
      files := map[];
    }

    /** Write a skill's file. Without a name or a content nothing is written. */
    method Save(tx: Text, name: string, r: Request) returns (result: Result<Skill, string>)
      modifies this
      ensures var n := NormalizeName(tx, name);
              if n == "" || Trim(tx.blank, r.content) == "" then result.Failure? && files == old(files)
              else
                var file := if n in old(files) then Some(old(files)[n]) else None;
                && result == Success(Saved(tx, file, n, r))
                && files == old(files)[n := Render(tx, Saved(tx, file, n, r))]
    {
      hide NormalizeName, Trim, Render, Saved;
      var n := NormalizeName(tx, name);
      if n == "" || Trim(tx.blank, r.content) == "" {
        return Failure("a skill needs a name and a content");
      }
      var skill := Merge(tx, if n in files then Some(files[n]) else None, n, r);
      var text := RenderSkill(tx, skill);
      files := files[n := text];
      result := Success(skill);
    }
  }

  // --------------------------------------------------------------- sequences of saves

  /** What a well-formed save is asked to write. */
  predicate GoodRequest(tx: Text, r: Request) {
    && Trim(tx.blank, r.content) != ""
    && NoneOf(IsBreak, Trim(tx.blank, r.description)) && Trimmed(IsQuote, Trim(tx.blank, r.description))
    && GoodValues(tx, r.scope) && GoodValues(tx, r.requires_)
    && r.stamp != "" && Plain(tx, r.stamp)
  }

  predicate GoodRequests(tx: Text, rs: seq<Request>) {
    forall i :: 0 <= i < |rs| ==> GoodRequest(tx, rs[i])
  }

  function FileAfter(tx: Text, name: string, rs: seq<Request>): Option<string> {
    if rs == [] then None
    else Some(Render(tx, Saved(tx, FileAfter(tx, name, rs[..|rs| - 1]), name, rs[|rs| - 1])))
  }

  /** The last save that stated a scope, requirements or a description decides it. */
  function LastScope(rs: seq<Request>): seq<string> {
    if rs == [] then [ANY_SCOPE]
    else if rs[|rs| - 1].scope != [] then rs[|rs| - 1].scope
    else LastScope(rs[..|rs| - 1])
  }

  function LastRequires(rs: seq<Request>): seq<string> {
    if rs == [] then []
    else if rs[|rs| - 1].requires_ != [] then rs[|rs| - 1].requires_
    else LastRequires(rs[..|rs| - 1])
  }

  function LastDescription(tx: Text, rs: seq<Request>): string {
    if rs == [] then ""
    else
      var stated := Trim(tx.blank, rs[|rs| - 1].description);
      if stated != "" then stated else LastDescription(tx, rs[..|rs| - 1])
  }

  /** What a run of saves comes to. */
  function Established(tx: Text, name: string, rs: seq<Request>): Skill
    requires rs != []
  {
    var last := rs[|rs| - 1];
    Skill(name, Trim(tx.blank, last.content), LastDescription(tx, rs), LastScope(rs), LastRequires(rs), [], |rs|,
          rs[0].stamp, last.stamp, [], true, true)
  }

  lemma AnyIsGood(tx: Text)
    requires Sane(tx)
    ensures GoodValue(tx, ANY_SCOPE)
  {
    assert IsLetters(ANY_SCOPE);
  }

  lemma {:induction false} EstablishedIsGood(tx: Text, name: string, rs: seq<Request>)
    requires Sane(tx) && rs != [] && GoodRequests(tx, rs)
    requires name != "" && Plain(tx, name) && NormalizeName(tx, name) == name
    ensures GoodSkill(tx, Established(tx, name, rs))
    ensures Trim(tx.blank, Established(tx, name, rs).body) == Established(tx, name, rs).body
  {
    hide Trim, Sane, GoodValues, GoodValue, Plain;
    var last := rs[|rs| - 1];
    assert GoodRequest(tx, last) && GoodRequest(tx, rs[0]);
    LastsAreGood(tx, rs);
    TrimIsTrimmed(tx.blank, last.content);
    TrimmedStays(tx.blank, Trim(tx.blank, last.content));
    NoValuesAreGood(tx);
  }

  lemma NoValuesAreGood(tx: Text)
    ensures GoodValues(tx, []) && GoodExtra(tx, [])
  {
  }

  lemma {:induction false} LastsAreGood(tx: Text, rs: seq<Request>)
    requires Sane(tx) && GoodRequests(tx, rs)
    ensures LastScope(rs) != [] && GoodValues(tx, LastScope(rs)) && GoodValues(tx, LastRequires(rs))
    ensures Plain(tx, LastDescription(tx, rs)) && Trimmed(IsQuote, LastDescription(tx, rs))
  {
    hide Trim, Sane, GoodValue;
    if rs == [] {
      AnyIsGood(tx);
    } else {
      LastsAreGood(tx, rs[..|rs| - 1]);
      assert GoodRequest(tx, rs[|rs| - 1]);
      TrimIsTrimmed(tx.blank, rs[|rs| - 1].description);
    }
  }

  /** Over any run of well-formed saves of one name: the version counts them, the created stamp is the first
      one's, and scope, requirements and description change only when a save states them. */
  lemma {:induction false} SavesEstablish(tx: Text, name: string, rs: seq<Request>)
    requires Sane(tx) && rs != [] && GoodRequests(tx, rs)
    requires name != "" && Plain(tx, name) && NormalizeName(tx, name) == name
    ensures FileAfter(tx, name, rs) == Some(Render(tx, Established(tx, name, rs)))
  {
    hide Trim, Sane, Render, Parse, GoodSkill, Plain, NormalizeName, Universal;
    var before, last := rs[..|rs| - 1], rs[|rs| - 1];
    assert GoodRequest(tx, last);
    if before == [] {
      assert rs == [last];
      OneSave(tx, last);
    } else {
      SavesEstablish(tx, name, before);
      EstablishedIsGood(tx, name, before);
      FileIsReadBack(tx, Established(tx, name, before), name);
      FirstHasStamp(tx, rs);
    }
  }

  /** A well-formed skill's file reads back as that skill. */
  lemma FileIsReadBack(tx: Text, s: Skill, name: string)
    requires Sane(tx) && GoodSkill(tx, s)
    ensures Parse(tx, name, Universal(Render(tx, s)))
            == s.(body := Universal(Trim(tx.blank, s.body)), declared := true, scopeDeclared := true)
  {
    hide Render, Parse, Sane, Trim, Universal;
    var body := Universal(Trim(tx.blank, s.body));
    FileIsRead(tx, s);
    BodyIsRead(tx, "", s.body);
    RoundTrip(tx, s.(body := body), name);
  }

  lemma FirstHasStamp(tx: Text, rs: seq<Request>)
    requires rs != [] && GoodRequests(tx, rs)
    ensures rs[0].stamp != ""
  {
    assert GoodRequest(tx, rs[0]);
  }

  lemma OneSave(tx: Text, r: Request)
    ensures LastScope([r]) == (if r.scope != [] then r.scope else [ANY_SCOPE]) && LastRequires([r]) == r.requires_
    ensures LastDescription(tx, [r]) == Trim(tx.blank, r.description)
  {
    hide Trim;
    assert [r][..0] == [];
  }

  /** A save over a well-formed skill's file keeps whatever it does not state. */
  lemma SaveKeeps(tx: Text, s: Skill, name: string, r: Request)
    requires Sane(tx) && GoodSkill(tx, s)
    ensures var next := Saved(tx, Some(Render(tx, s)), name, r);
            && next.version == s.version + 1 && next.tags == s.tags && next.extra == s.extra
            && (s.created != "" ==> next.created == s.created)
            && (r.scope == [] ==> next.scope == s.scope) && (r.requires_ == [] ==> next.requires_ == s.requires_)
            && (Trim(tx.blank, r.description) == "" ==> next.description == s.description)
  {
    hide Render, Parse, Sane, Trim, GoodSkill, Universal;
    FileIsReadBack(tx, s, name);
  }
}
