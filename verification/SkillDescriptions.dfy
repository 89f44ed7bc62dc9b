/**
  Descriptions with line breaks in them: exactly when what a skill's file
  established is still there for the next save to keep.
 */
module SkillDescriptions {
  import opened Wrappers
  import opened Strings
  import opened SkillFile
  import opened SkillRoundTrip
  import opened SkillLibrary

  // ------------------------------------------------------------- lines that can be read

  /** A line this reader gives up on. */
  predicate IsUnreadable(tx: Text, line: string) {
    var bare := TrimLeft(tx.blank, line);
    bare != "" && bare[0] != '#' && (line[0] == ' ' || line[0] == '\t' || ':' !in line)
  }

  predicate AllReadable(tx: Text, lines: seq<string>) {
    forall i :: 0 <= i < |lines| ==> !IsUnreadable(tx, lines[i])
  }

  /** What a description's lines must be for the block around it to be read: none closes the block, and each
      but the first, which stands behind its key, is a line of its own. */
  ghost predicate DescriptionReads(tx: Text, d: string) {
    !Has(CLOSING, d) && AllReadable(tx, Split(IsBreak, d)[1..])
  }

  lemma ReadsLineIff(tx: Text, fs: Fields, line: string)
    ensures ReadLine(tx, fs, line).Some? <==> !IsUnreadable(tx, line)
  {
    hide Before, Put, Trim, TrimLeft;
  }

  /** A block is read exactly when each of its lines is. */
  lemma {:induction false} LinesReadIff(tx: Text, lines: seq<string>)
    ensures ReadLines(tx, lines).Some? <==> AllReadable(tx, lines)
  {
    hide ReadLine, IsUnreadable;
    if lines != [] {
      var before, last := lines[..|lines| - 1], lines[|lines| - 1];
      LinesReadIff(tx, before);
      assert lines == before + [last];
      if ReadLines(tx, before).Some? { ReadsLineIff(tx, ReadLines(tx, before).value, last); }
    }
  }

  // --------------------------------------------------------------- later lines decide

  function PutAll(fs: Fields, more: Fields): Fields {
    if more == [] then fs
    else
      var last := more[|more| - 1];
      Put(PutAll(fs, more[..|more| - 1]), last.0, last.1)
  }

  lemma {:induction false} PutSays(fs: Fields, k: string, v: string, q: string)
    ensures Get(Put(fs, k, v), q) == if q == k then Some(v) else Get(fs, q)
  {
    if fs == [] {
      assert [(k, v)][..0] == [];
    } else {
      var before, last := fs[..|fs| - 1], fs[|fs| - 1];
      PutSays(before, k, v, q);
      hide HasKey;
      GetLast(before, (k, v), q);
      GetLast(fs, (k, v), q);
      GetLast(Put(before, k, v), last, q);
      GetLast(before, last, q);
    }
  }

  lemma GetLast(fs: Fields, last: (string, string), q: string)
    ensures Get(fs + [last], q) == if last.0 == q then Some(last.1) else Get(fs, q)
  {
    assert (fs + [last])[..|fs|] == fs;
  }

  lemma {:induction false} PutAllSays(fs: Fields, more: Fields, q: string)
    ensures Get(PutAll(fs, more), q) == if Get(more, q).Some? then Get(more, q) else Get(fs, q)
  {
    hide Put;
    if more != [] {
      var before, last := more[..|more| - 1], more[|more| - 1];
      PutAllSays(fs, before, q);
      PutSays(PutAll(fs, before), last.0, last.1, q);
    }
  }

  /** Lines after others are read into what those state. */
  lemma {:induction false} LaterLinesAreRead(tx: Text, lines: seq<string>, more: Fields)
    requires Sane(tx) && GoodFields(tx, more) && ReadLines(tx, lines).Some?
    ensures ReadLines(tx, lines + Lines(more)) == Some(PutAll(ReadLines(tx, lines).value, more))
    decreases |more|
  {
    hide Put, ReadLine, Sane, GoodField, Line, HasKey;
    if more == [] {
      assert lines + Lines(more) == lines;
    } else {
      var before, last := more[..|more| - 1], more[|more| - 1];
      FieldsBefore(tx, more);
      LaterLinesAreRead(tx, lines, before);
      LineIsRead(tx, PutAll(ReadLines(tx, lines).value, before), last);
      assert (lines + Lines(more))[..|lines| + |before|] == lines + Lines(before);
    }
  }

  /** The key a line states, if it is one that states anything. */
  function KeyOf(tx: Text, line: string): string {
    tx.lower(Trim(tx.blank, Before(":", line)))
  }

  predicate StatesNo(tx: Text, lines: seq<string>, k: string) {
    forall i :: 0 <= i < |lines| ==> KeyOf(tx, lines[i]) != k
  }

  lemma {:induction false} NeverStated(tx: Text, lines: seq<string>, k: string)
    requires StatesNo(tx, lines, k) && ReadLines(tx, lines).Some?
    ensures Get(ReadLines(tx, lines).value, k) == None
  {
    if lines != [] {
      var before, last := lines[..|lines| - 1], lines[|lines| - 1];
      NeverStated(tx, before, k);
      OtherKeyStated(tx, ReadLines(tx, before).value, last, k);
    }
  }

  lemma OtherKeyStated(tx: Text, fs: Fields, line: string, k: string)
    requires KeyOf(tx, line) != k && ReadLine(tx, fs, line).Some?
    ensures Get(ReadLine(tx, fs, line).value, k) == Get(fs, k)
  {
    hide Put, Get, Before, Trim, TrimLeft;
    var bare := TrimLeft(tx.blank, line);
    if bare != "" && bare[0] != '#' {
      var key := Before(":", line);
      PutSays(fs, KeyOf(tx, line), Trim(tx.blank, line[if |key| < |line| then |key| + 1 else |line|..]), k);
    }
  }

  // -------------------------------------------------------------- around a description

  /** A skill that is well formed but for its description, which may be anything without outer blanks. */
  predicate GoodButForDescription(tx: Text, s: Skill) {
    GoodSkill(tx, s.(description := "")) && Trimmed(tx.blank, s.description)
  }

  function Opening(s: Skill): string {
    "name: " + s.name + "\ndescription: "
  }

  /** What the block states after the description. */
  function Later(tx: Text, s: Skill): Fields {
    Present(Slots(tx, s)[2..]) + s.extra
  }

  lemma {:induction false} PresentJoins(a: seq<Slot>, b: seq<Slot>)
    ensures Present(a + b) == Present(a) + Present(b)
  {
    hide Present;
    if b == [] {
      NothingIsPresent();
      assert a + b == a && Present(a) + [] == Present(a);
    } else {
      PresentJoins(a, b[..|b| - 1]);
      PresentLast(b);
      PresentLast(a + b);
      assert (a + b)[..|a + b| - 1] == a + b[..|b| - 1];
    }
  }

  lemma PresentLast(slots: seq<Slot>)
    requires slots != []
    ensures var last := slots[|slots| - 1];
            Present(slots) == Present(slots[..|slots| - 1]) + if last.written then [(last.key, last.value)] else []
  {
  }

  lemma FirstTwo(x: Slot, y: Slot)
    ensures Present([x, y]) == (if x.written then [(x.key, x.value)] else []) + if y.written then [(y.key, y.value)] else []
  {
    hide Present;
    var two, one := [x, y], [x];
    PresentLast(two);
    PresentLast(one);
    NothingIsPresent();
    assert two[..1] == one && one[..0] == [];
  }

  lemma StatedStarts(tx: Text, s: Skill)
    ensures Stated(tx, s)
            == [("name", s.name)] + (if s.description != "" then [("description", s.description)] else []) + Later(tx, s)
  {
    hide Present, ListText;
    var slots := Slots(tx, s);
    FirstTwo(slots[0], slots[1]);
    PresentJoins([slots[0], slots[1]], slots[2..]);
    assert [slots[0], slots[1]] + slots[2..] == slots;
  }

  lemma LaterIsSame(tx: Text, s: Skill)
    ensures Later(tx, s.(description := "")) == Later(tx, s)
  {
    hide ListText, Present;
    assert Slots(tx, s.(description := ""))[2..] == Slots(tx, s)[2..];
  }

  lemma LaterIsGood(tx: Text, s: Skill)
    requires Sane(tx) && GoodButForDescription(tx, s)
    ensures GoodFields(tx, Later(tx, s)) && Later(tx, s) != []
  {
    hide Present, ListText, Slots, Stated, Sane, GoodField, Later, Get;
    var s0 := s.(description := "");
    LaterIsSame(tx, s);
    StatedIsGood(tx, s0);
    StatedStarts(tx, s0);
    LaterStates(tx, s0);
    var fs, later := Stated(tx, s0), Later(tx, s);
    assert fs == [("name", s.name)] + later;
    assert forall i :: 0 <= i < |later| ==> later[i] == fs[i + 1];
  }

  /** The scope, at least. */
  lemma LaterStates(tx: Text, s: Skill)
    ensures Later(tx, s) != []
  {
    hide Present, ListText;
    var slots := Slots(tx, s)[2..];
    PresentJoins([slots[0]], slots[1..]);
    PresentLast([slots[0]]);
    assert [slots[0]] + slots[1..] == slots && slots[0].written;
  }

  lemma RenderedAround(tx: Text, s: Skill)
    requires s.description != ""
    ensures Render(tx, s) == "---\n" + (Opening(s) + s.description + "\n" + Join("\n", Lines(Later(tx, s))) + "\n---\n\n" + Trim(tx.blank, s.body) + "\n")
  {
    hide Join, Trim, Later, Stated, Slots;
    var later := Later(tx, s);
    var n, d := Line(("name", s.name)), Line(("description", s.description));
    StatedStarts(tx, s);
    LaterStates(tx, s);
    var lines := Lines(Stated(tx, s));
    assert lines == [n, d] + Lines(later);
    JoinIs("\n", lines);
    assert lines[1..] == [d] + Lines(later);
    JoinIs("\n", [d] + Lines(later));
    assert ([d] + Lines(later))[1..] == Lines(later);
    OpeningJoins(s, Join("\n", Lines(later)));
    assert Join("\n", lines) == Opening(s) + s.description + "\n" + Join("\n", Lines(later));
  }

  lemma OpeningJoins(s: Skill, rest: string)
    ensures Line(("name", s.name)) + "\n" + (Line(("description", s.description)) + "\n" + rest)
            == Opening(s) + s.description + "\n" + rest
  {
  }

  // ---------------------------------------------------------------- where the block ends

  lemma OpeningHides(s: Skill, x: string)
    requires NoneOf(IsBreak, s.name) && !Has(CLOSING, x)
    ensures !Has(CLOSING, Opening(s) + x)
  {
    hide Has;
    NoReturn(s.name);
    var name, rest := "name: " + s.name, "description: " + x;
    PlainHidesNothing("description: ", x);
    assert rest[0] == 'd';
    BreakHides(rest);
    PlainHidesNothing(name, "\n" + rest);
    assert Opening(s) + x == name + ("\n" + rest);
  }

  /** A fence over the end of a text would have to go on after the line's end that follows. */
  lemma JoinHides(d: string, rest: string)
    requires !Has(CLOSING, d) && !Has(CLOSING, "\n" + rest)
    ensures !Has(CLOSING, d + ("\n" + rest))
  {
    var tail := "\n" + rest;
    forall i | 0 <= i <= |d + tail| ensures !(CLOSING <= (d + tail)[i..]) {
      var here := (d + tail)[i..];
      if i >= |d| {
        assert here == tail[i - |d|..];
      } else if i + 4 <= |d| {
        var there := d[i..];
        assert here[..4] == there[..4] && !(CLOSING <= there);
      } else {
        var k := |d| - i;
        assert here[k] == '\n' && CLOSING[k] == '-';
      }
    }
  }

  /** Before its first fence a text has none, even with the start of one after it. */
  lemma EarlierHides(d: string, rest: string)
    requires d == Before(CLOSING, d) + CLOSING + rest
    ensures !Has(CLOSING, Before(CLOSING, d) + "\n--")
  {
    hide Before;
    var e := Before(CLOSING, d);
    var t := e + "\n--";
    forall i | 0 <= i <= |t| ensures !(CLOSING <= t[i..]) {
      if CLOSING <= t[i..] {
        assert i < |e| && t == d[..|t|];
        assert d[i..][..4] == t[i..][..4];
        NoneEarlier(CLOSING, d, i);
      }
    }
  }

  function OwnBlock(tx: Text, s: Skill): string {
    Opening(s) + s.description + "\n" + Join("\n", Lines(Later(tx, s)))
  }

  lemma LaterLinesAreGood(tx: Text, s: Skill)
    requires Sane(tx) && GoodButForDescription(tx, s)
    ensures var lines := Lines(Later(tx, s));
            && lines != []
            && forall i :: 0 <= i < |lines| ==> NoneOf(IsBreak, lines[i]) && '\n' !in lines[i] && !(FENCE <= lines[i])
  {
    hide Later, Sane, GoodField, Line, GoodButForDescription;
    LaterIsGood(tx, s);
    var later := Later(tx, s);
    forall i | 0 <= i < |later|
      ensures var line := Lines(later)[i]; NoneOf(IsBreak, line) && '\n' !in line && !(FENCE <= line)
    {
      assert GoodField(tx, later[i]);
      GoodLine(tx, later[i]);
    }
  }

  lemma OwnFence(tx: Text, s: Skill, more: string)
    requires Sane(tx) && GoodButForDescription(tx, s) && !Has(CLOSING, s.description)
    ensures Before(CLOSING, OwnBlock(tx, s) + CLOSING + more) == OwnBlock(tx, s)
  {
    hide Later, Sane, Join, Has, Before, Lines;
    LaterLinesAreGood(tx, s);
    var lines, d := Lines(Later(tx, s)), s.description;
    var rest := Join("\n", lines) + "\n--";
    NoFenceInside(lines);
    BreakHides(rest);
    JoinHides(d, rest);
    OpeningHides(s, d + ("\n" + rest));
    assert OwnBlock(tx, s) + "\n--" == Opening(s) + (d + ("\n" + rest));
    assert CLOSING[..|CLOSING| - 1] == "\n--";
    BeforeIsWhatStood(CLOSING, OwnBlock(tx, s), more);
  }

  /** The lines of a block that goes no further than the description. */
  function OpeningLines(s: Skill, x: string): seq<string> {
    [Line(("name", s.name)), "description: " + Split(IsBreak, x)[0]] + Split(IsBreak, x)[1..]
  }

  lemma OpeningSplits(s: Skill, x: string)
    requires NoneOf(IsBreak, s.name)
    ensures Split(IsBreak, Opening(s) + x) == OpeningLines(s, x)
  {
    hide Split;
    var name, rest := Line(("name", s.name)), "description: " + x;
    assert Opening(s) + x == name + ['\n'] + rest;
    SplitFirst(IsBreak, name, '\n', rest);
    SplitAfter(IsBreak, "description: ", x);
  }

  lemma OwnBlockSplits(tx: Text, s: Skill)
    requires Sane(tx) && GoodButForDescription(tx, s)
    ensures Split(IsBreak, OwnBlock(tx, s)) == OpeningLines(s, s.description) + Lines(Later(tx, s))
  {
    hide Split, Later, Sane, Join, Lines;
    LaterLinesAreGood(tx, s);
    var lines, d := Lines(Later(tx, s)), s.description;
    var rest := Join("\n", lines);
    assert ['\n'] == "\n";
    SplitUndoesJoin(IsBreak, '\n', lines);
    SplitBoth(IsBreak, d, '\n', rest);
    OpeningSplits(s, d + ['\n'] + rest);
    assert OwnBlock(tx, s) == Opening(s) + (d + ['\n'] + rest);
    var parts := Split(IsBreak, d);
    assert (parts + lines)[0] == parts[0] && (parts + lines)[1..] == parts[1..] + lines;
  }

  // -------------------------------------------------------------- what is read of the file

  /** What a block's lines and the text behind it make of a file. */
  function ReadAs(tx: Text, text: string, lines: seq<string>, body: string): (Fields, string) {
    match ReadLines(tx, lines)
    case None => ([], text)
    case Some(fs) => (fs, body)
  }

  lemma ReadAsIs(tx: Text, text: string, block: string, body: string)
    requires Opened(text).Some? && Closed(Opened(text).value) == Some((block, body))
    ensures ParseFrontmatter(tx, text) == ReadAs(tx, text, Split(IsBreak, block), body)
  {
    hide Opened, Closed, ReadLines, Split;
  }

  lemma OwnBlockIsRead(tx: Text, s: Skill)
    requires Sane(tx) && GoodButForDescription(tx, s) && s.description != "" && !Has(CLOSING, s.description)
    ensures ParseFrontmatter(tx, Render(tx, s))
            == ReadAs(tx, Render(tx, s), OpeningLines(s, s.description) + Lines(Later(tx, s)), "\n" + Trim(tx.blank, s.body) + "\n")
  {
    hide Opened, Closed, ReadLines, Split, Later, Sane, Join, Lines, Trim, Before, Has, Render;
    var body := Trim(tx.blank, s.body);
    RenderedAround(tx, s);
    OwnFence(tx, s, "\n\n" + body + "\n");
    FencesAreFound(OwnBlock(tx, s), body);
    OwnBlockSplits(tx, s);
    assert Render(tx, s) == "---\n" + OwnBlock(tx, s) + "\n---\n\n" + body + "\n";
    ReadAsIs(tx, Render(tx, s), OwnBlock(tx, s), "\n" + body + "\n");
  }

  /** What stands behind the description. */
  function Behind(tx: Text, s: Skill): string {
    "\n" + Join("\n", Lines(Later(tx, s))) + "\n---\n\n" + Trim(tx.blank, s.body) + "\n"
  }

  lemma EarlyBlockIsRead(tx: Text, s: Skill) returns (rest: string)
    requires Sane(tx) && GoodButForDescription(tx, s) && Has(CLOSING, s.description)
    ensures s.description == Before(CLOSING, s.description) + CLOSING + rest
    ensures ParseFrontmatter(tx, Render(tx, s))
            == ReadAs(tx, Render(tx, s), OpeningLines(s, Before(CLOSING, s.description)), AfterFence(rest + Behind(tx, s)))
  {
    hide Opened, Closed, ReadLines, Split, Later, Sane, Join, Lines, Trim, Before, Has, Render, AfterFence;
    var d := s.description;
    rest := FirstMarker(CLOSING, d);
    var e := Before(CLOSING, d);
    var block, more := Opening(s) + e, rest + Behind(tx, s);
    EarlierHides(d, rest);
    OpeningHides(s, e + "\n--");
    assert block + "\n--" == Opening(s) + (e + "\n--") && CLOSING[..|CLOSING| - 1] == "\n--";
    BeforeIsWhatStood(CLOSING, block, more);
    OpenedIs(block + CLOSING + more);
    ClosedIs(block, more);
    RenderedEarly(tx, s, rest);
    OpeningSplits(s, e);
    ReadAsIs(tx, Render(tx, s), block, AfterFence(more));
  }

  lemma RenderedEarly(tx: Text, s: Skill, rest: string)
    requires s.description == Before(CLOSING, s.description) + CLOSING + rest
    ensures Render(tx, s) == "---\n" + (Opening(s) + Before(CLOSING, s.description) + CLOSING + (rest + Behind(tx, s)))
  {
    hide Later, Join, Lines, Trim, Before, Render, Opening;
    RenderedAround(tx, s);
    var o, e, l, b := Opening(s), Before(CLOSING, s.description), Join("\n", Lines(Later(tx, s))), Trim(tx.blank, s.body);
    assert o + (e + CLOSING + rest) + "\n" + l + "\n---\n\n" + b + "\n" == o + e + CLOSING + (rest + ("\n" + l + "\n---\n\n" + b + "\n"));
  }

  lemma KnownLine(tx: Text, k: string, v: string)
    requires Sane(tx) && k in KNOWN
    ensures !IsUnreadable(tx, k + ": " + v) && KeyOf(tx, k + ": " + v) == k
  {
    KnownIsLetters(k);
    KnownIsLower(tx, k);
    hide Before;
    assert TrimLeft(tx.blank, k + ": " + v) == k + ": " + v by { assert (k + ": " + v)[0] == k[0]; }
    assert (k + ": " + v)[|k|] == ':';
    KeyIsFound(k, v);
    TrimmedStays(tx.blank, k);
  }

  lemma OpeningReadsIff(tx: Text, s: Skill, x: string)
    requires Sane(tx)
    ensures ReadLines(tx, OpeningLines(s, x)).Some? <==> AllReadable(tx, Split(IsBreak, x)[1..])
  {
    hide Split, IsUnreadable, ReadLines, Sane, KeyOf;
    var lines, parts := OpeningLines(s, x), Split(IsBreak, x);
    LinesReadIff(tx, lines);
    KnownLine(tx, "name", s.name);
    KnownLine(tx, "description", parts[0]);
    assert lines[0] == "name" + ": " + s.name && lines[1] == "description" + ": " + parts[0];
    assert forall i :: 2 <= i < |lines| ==> lines[i] == parts[1..][i - 2];
    assert forall i :: 0 <= i < |parts[1..]| ==> parts[1..][i] == lines[i + 2];
  }

  lemma NothingBroken(tx: Text)
    ensures DescriptionReads(tx, "")
  {
    SplitNothing(IsBreak, "");
  }

  lemma {:induction false} TrimLeftStops(f: char -> bool, a: string, b: string)
    requires b != "" && !f(b[0])
    ensures |TrimLeft(f, a + b)| >= |b|
  {
    if a == "" {
      assert a + b == b;
    } else {
      assert (a + b)[1..] == a[1..] + b;
      TrimLeftStops(f, a[1..], b);
    }
  }

  lemma TooLong(tx: Text, s: Skill, rest: string)
    ensures |AfterFence(rest + Behind(tx, s))| > |Trim(tx.blank, s.body)| + 2
    ensures s.description != "" ==> |Render(tx, s)| > |Trim(tx.blank, s.body)| + 2
  {
    hide Later, Join, Lines, Trim, TrimLeft, Render, Opening;
    TrimLeftStops(IsTabOrSpace, rest, Behind(tx, s));
    if s.description != "" { RenderedAround(tx, s); }
  }

  /** The file falls into its block and its body, and into no others, exactly when its description reads. */
  lemma OwnBodyIffReads(tx: Text, s: Skill)
    requires Sane(tx) && GoodButForDescription(tx, s)
    ensures ParseFrontmatter(tx, Render(tx, s)).1 == "\n" + Trim(tx.blank, s.body) + "\n" <==> DescriptionReads(tx, s.description)
  {
    hide ReadLines, Split, Later, Sane, Lines, Trim, Before, Has, Render, AfterFence, ParseFrontmatter, GoodSkill, AllReadable;
    var d := s.description;
    if d == "" {
      NothingBroken(tx);
      assert s.(description := "") == s;
      RenderedIsParsed(tx, s);
    } else if Has(CLOSING, d) {
      var rest := EarlyBlockIsRead(tx, s);
      TooLong(tx, s, rest);
    } else {
      OwnBlockIsRead(tx, s);
      TooLong(tx, s, "");
      OwnLinesReadIff(tx, s);
    }
  }

  lemma OwnLinesReadIff(tx: Text, s: Skill)
    requires Sane(tx) && GoodButForDescription(tx, s)
    ensures var lines := OpeningLines(s, s.description);
            && (ReadLines(tx, lines + Lines(Later(tx, s))).Some? <==> AllReadable(tx, Split(IsBreak, s.description)[1..]))
            && (ReadLines(tx, lines).Some? ==>
                  ReadLines(tx, lines + Lines(Later(tx, s))) == Some(PutAll(ReadLines(tx, lines).value, Later(tx, s))))
  {
    hide ReadLines, Split, Later, Sane, OpeningLines, GoodButForDescription, PutAll, Lines, IsUnreadable;
    var lines, more := OpeningLines(s, s.description), Later(tx, s);
    OpeningReadsIff(tx, s, s.description);
    LaterIsGood(tx, s);
    if ReadLines(tx, lines).Some? {
      LaterLinesAreRead(tx, lines, more);
    } else {
      LinesReadIff(tx, lines);
      LinesReadIff(tx, lines + Lines(more));
      NotAllReadable(tx, lines, Lines(more));
    }
  }

  lemma NotAllReadable(tx: Text, a: seq<string>, b: seq<string>)
    requires !AllReadable(tx, a)
    ensures !AllReadable(tx, a + b)
  {
    hide IsUnreadable;
    var i :| 0 <= i < |a| && IsUnreadable(tx, a[i]);
    assert (a + b)[i] == a[i];
  }

  // ------------------------------------------------------------------ what survives

  /** Everything a file stated, its description aside, is read back from it. */
  predicate Keeps(tx: Text, s: Skill, back: Skill) {
    && back.body == Trim(tx.blank, s.body) && back.declared
    && back.scopeDeclared && back.scope == s.scope && back.version == s.version
    && (s.requires_ != [] ==> back.requires_ == s.requires_) && (s.tags != [] ==> back.tags == s.tags)
    && (s.created != "" ==> back.created == s.created) && (s.updated != "" ==> back.updated == s.updated)
    && forall i :: 0 <= i < |s.extra| ==> Get(back.extra, s.extra[i].0) == Some(s.extra[i].1)
  }

  lemma {:induction false} ExtraSays(fs: Fields, k: string)
    requires k !in KNOWN
    ensures Get(Extra(fs), k) == Get(fs, k)
  {
    if fs != [] {
      var before, last := fs[..|fs| - 1], fs[|fs| - 1];
      ExtraSays(before, k);
      GetLast(Extra(before), last, k);
      assert Extra(before) + [] == Extra(before);
    }
  }

  lemma {:induction false} GetAt(fs: Fields, i: nat)
    requires DistinctKeys(fs) && i < |fs|
    ensures Get(fs, fs[i].0) == Some(fs[i].1)
  {
    if i < |fs| - 1 { GetAt(fs[..|fs| - 1], i); }
  }

  /** What the later lines state of the format's own keys, the name aside. */
  lemma LaterSays(tx: Text, s: Skill, i: nat)
    requires Sane(tx) && GoodButForDescription(tx, s) && 2 <= i < 8
    ensures var slot := Slots(tx, s)[i]; Get(Later(tx, s), slot.key) == if slot.written then Some(slot.value) else None
  {
    hide Get, Stated, Later, Sane, GoodSkill, ListText;
    var s0 := s.(description := "");
    LaterIsSame(tx, s);
    StatedSays(tx, s0, i);
    StatedStarts(tx, s0);
    var later, k := Later(tx, s), Slots(tx, s)[i].key;
    assert Slots(tx, s0)[i] == Slots(tx, s)[i] && k != "name";
    assert Stated(tx, s0) == [("name", s.name)] + later;
    FieldsJoin([("name", s.name)], later);
    OneName(s.name, k);
  }

  lemma OneName(name: string, k: string)
    requires k != "name"
    ensures Get([("name", name)], k) == None
  {
    GetLast([], ("name", name), k);
    assert [] + [("name", name)] == [("name", name)];
  }

  lemma LaterSaysExtra(tx: Text, s: Skill, i: nat)
    requires Sane(tx) && GoodButForDescription(tx, s) && i < |s.extra|
    ensures Get(Later(tx, s), s.extra[i].0) == Some(s.extra[i].1)
  {
    hide Get, Present, Slots, Sane, Plain, GoodField;
    assert GoodExtra(tx, s.extra);
    FieldsJoin(Present(Slots(tx, s)[2..]), s.extra);
    GetAt(s.extra, i);
  }

  lemma ReadFieldsAre(tx: Text, s: Skill, k: string)
    requires Sane(tx) && GoodButForDescription(tx, s) && s.description != "" && DescriptionReads(tx, s.description)
    ensures Get(Later(tx, s), k).Some? ==> Get(ParseFrontmatter(tx, Render(tx, s)).0, k) == Get(Later(tx, s), k)
    ensures Get(Later(tx, s), k) == None ==>
              ReadLines(tx, OpeningLines(s, s.description)).Some?
              && Get(ParseFrontmatter(tx, Render(tx, s)).0, k) == Get(ReadLines(tx, OpeningLines(s, s.description)).value, k)
  {
    hide Get, Later, Sane, ReadLines, Lines, Split, Render, ParseFrontmatter, OpeningLines, Has, Trim, GoodSkill, AllReadable, PutAll;
    OwnBlockIsRead(tx, s);
    OwnLinesReadIff(tx, s);
    OpeningReadsIff(tx, s, s.description);
    PutAllSays(ReadLines(tx, OpeningLines(s, s.description)).value, Later(tx, s), k);
  }

  lemma SomeFields(fs: Fields, k: string)
    requires Get(fs, k).Some?
    ensures fs != []
  {
  }

  /** When the description reads, all that was established survives. */
  lemma ReadsKeeps(tx: Text, s: Skill, name: string)
    requires Sane(tx) && GoodButForDescription(tx, s) && DescriptionReads(tx, s.description)
    ensures Keeps(tx, s, Parse(tx, name, Render(tx, s)))
  {
    hide Get, Later, Sane, Render, ParseFrontmatter, Trim, GoodSkill, DescriptionReads, SplitValues, NormalizeName, Extra, ListText;
    if s.description == "" {
      assert s.(description := "") == s;
      RoundTrip(tx, s, name);
      WholeExtra(tx, s);
    } else {
      var (fs, body) := ParseFrontmatter(tx, Render(tx, s));
      OwnBodyIffReads(tx, s);
      BodyIsReadBack(tx, s.body);
      LaterFieldsAre(tx, s, fs);
      forall i | 0 <= i < |s.extra| ensures Get(Extra(fs), s.extra[i].0) == Some(s.extra[i].1) {
        LaterSaysExtra(tx, s, i);
        ReadFieldsAre(tx, s, s.extra[i].0);
        ExtraIsNotKnown(tx, s, i);
        ExtraSays(fs, s.extra[i].0);
      }
      FieldsMakeKept(tx, s, name, fs, body);
    }
  }

  predicate StatesAll(tx: Text, s: Skill, fs: Fields) {
    && fs != [] && GetOr(fs, "scope", "") == ListText(s.scope) && GetOr(fs, "version", "1") == tx.fromInt(s.version)
    && (s.requires_ != [] ==> GetOr(fs, "requires", "") == ListText(s.requires_))
    && (s.tags != [] ==> GetOr(fs, "tags", "") == ListText(s.tags))
    && (s.created != "" ==> GetOr(fs, "created", "") == s.created)
    && (s.updated != "" ==> GetOr(fs, "updated", "") == s.updated)
  }

  lemma FieldsMakeKept(tx: Text, s: Skill, name: string, fs: Fields, body: string)
    requires Sane(tx) && GoodButForDescription(tx, s) && StatesAll(tx, s, fs)
    requires Trim(tx.blank, body) == Trim(tx.blank, s.body)
    requires forall i :: 0 <= i < |s.extra| ==> Get(Extra(fs), s.extra[i].0) == Some(s.extra[i].1)
    ensures Keeps(tx, s, SkillOf(tx, name, fs, body))
  {
    ScopesAreReadBack(tx, s.(description := ""));
    hide Get, GetOr, Sane, Trim, GoodSkill, SplitValues, NormalizeName, Extra, ListText;
    assert s.scope != [] && s.version >= 1 by { ScopeAndVersion(tx, s); }
    NumberIsReadBack(tx, s.version);
  }

  lemma ScopeAndVersion(tx: Text, s: Skill)
    requires GoodButForDescription(tx, s)
    ensures s.scope != [] && s.version >= 1
  {
  }

  lemma WholeExtra(tx: Text, s: Skill)
    requires GoodSkill(tx, s)
    ensures forall i :: 0 <= i < |s.extra| ==> Get(s.extra, s.extra[i].0) == Some(s.extra[i].1)
  {
    hide Get, Plain, GoodField;
    assert GoodExtra(tx, s.extra);
    forall i | 0 <= i < |s.extra| ensures Get(s.extra, s.extra[i].0) == Some(s.extra[i].1) { GetAt(s.extra, i); }
  }

  lemma ExtraIsNotKnown(tx: Text, s: Skill, i: nat)
    requires GoodButForDescription(tx, s) && i < |s.extra|
    ensures s.extra[i].0 !in KNOWN
  {
    assert GoodExtra(tx, s.extra);
  }

  lemma LaterFieldsAre(tx: Text, s: Skill, fs: Fields)
    requires Sane(tx) && GoodButForDescription(tx, s) && s.description != "" && DescriptionReads(tx, s.description)
    requires fs == ParseFrontmatter(tx, Render(tx, s)).0
    ensures StatesAll(tx, s, fs)
  {
    hide Get, Later, Sane, Render, ParseFrontmatter, GoodButForDescription, DescriptionReads, ListText;
    forall i | 2 <= i < 8 && Slots(tx, s)[i].written
      ensures Get(fs, Slots(tx, s)[i].key) == Some(Slots(tx, s)[i].value)
    {
      LaterSays(tx, s, i);
      ReadFieldsAre(tx, s, Slots(tx, s)[i].key);
    }
    var slots := Slots(tx, s);
    assert slots[2].written && slots[5].written;
    assert slots[3].key == "requires" && slots[4].key == "tags" && slots[6].key == "created" && slots[7].key == "updated";
    SomeFields(fs, "scope");
  }

  // -------------------------------------------------------------------- what is lost

  /** Nothing of it is left but what the file's name and its body say. */
  predicate Forgets(back: Skill) {
    && back.scope == [ANY_SCOPE] && !back.scopeDeclared && back.requires_ == [] && back.tags == []
    && back.version == 1 && back.created == "" && back.updated == ""
  }

  /** The lines a description puts into the block before it closes it, if it does, state nothing of `k`. */
  predicate EarlyStatesNo(tx: Text, d: string, k: string) {
    StatesNo(tx, Split(IsBreak, Before(CLOSING, d))[1..], k)
  }

  /** Unless the description reads, a key is lost that it does not state itself. */
  lemma LostKey(tx: Text, s: Skill, k: string)
    requires Sane(tx) && GoodButForDescription(tx, s) && !DescriptionReads(tx, s.description)
    requires k in KNOWN && k != "name" && k != "description"
    requires Has(CLOSING, s.description) ==> EarlyStatesNo(tx, s.description, k)
    ensures Get(ParseFrontmatter(tx, Render(tx, s)).0, k) == None
  {
    hide Get, Later, Sane, ReadLines, Lines, Split, Render, ParseFrontmatter, Trim, GoodSkill, AllReadable, Has, Before,
         StatesNo, OpeningLines;
    var d := s.description;
    NothingBroken(tx);
    if Has(CLOSING, d) {
      var rest := EarlyBlockIsRead(tx, s);
      var lines := OpeningLines(s, Before(CLOSING, d));
      OpeningStatesNo(tx, s, Before(CLOSING, d), k);
      if ReadLines(tx, lines).Some? { NeverStated(tx, lines, k); }
    } else {
      OwnBlockIsRead(tx, s);
      OwnLinesReadIff(tx, s);
    }
    NothingStated(k);
  }

  lemma NothingStated(k: string)
    ensures Get([], k) == None
  {
  }

  lemma OpeningStatesNo(tx: Text, s: Skill, x: string, k: string)
    requires Sane(tx) && k in KNOWN && k != "name" && k != "description"
    requires StatesNo(tx, Split(IsBreak, x)[1..], k)
    ensures StatesNo(tx, OpeningLines(s, x), k)
  {
    hide Split, Sane, KeyOf;
    var parts, lines := Split(IsBreak, x), OpeningLines(s, x);
    KnownLine(tx, "name", s.name);
    KnownLine(tx, "description", parts[0]);
    assert lines[0] == "name" + ": " + s.name && lines[1] == "description" + ": " + parts[0];
    assert forall i :: 2 <= i < |lines| ==> lines[i] == parts[1..][i - 2];
  }

  /** A narrowed scope is read back from the file exactly when the description reads: unless that closes the
      block with a scope of its own. */
  lemma ScopeReadBackIff(tx: Text, s: Skill, name: string)
    requires Sane(tx) && GoodButForDescription(tx, s)
    requires Has(CLOSING, s.description) ==> EarlyStatesNo(tx, s.description, "scope")
    ensures DescriptionReads(tx, s.description) ==> Keeps(tx, s, Parse(tx, name, Render(tx, s)))
    ensures !DescriptionReads(tx, s.description) ==> Parse(tx, name, Render(tx, s)).scope == [ANY_SCOPE]
    ensures Parse(tx, name, Render(tx, s)).scopeDeclared <==> DescriptionReads(tx, s.description)
  {
    hide Get, Sane, Render, ParseFrontmatter, GoodButForDescription, DescriptionReads, SplitValues, NormalizeName, Extra, Trim, Has,
         EarlyStatesNo;
    if DescriptionReads(tx, s.description) {
      ReadsKeeps(tx, s, name);
    } else {
      LostKey(tx, s, "scope");
      NothingSplits(tx);
    }
  }

  // ------------------------------------------------------------------------ the next save

  /** What a file keeps of a description: each end of a line is one newline when it is read. */
  lemma DescribedFileIsRead(tx: Text, s: Skill) returns (read: Skill)
    requires Sane(tx) && GoodButForDescription(tx, s)
    ensures read == s.(description := Universal(s.description), body := Universal(Trim(tx.blank, s.body)))
    ensures GoodButForDescription(tx, read) && Universal(Render(tx, s)) == Render(tx, read)
    ensures Trim(tx.blank, read.body) == read.body
  {
    hide Sane, Render, Trim, Universal, GoodSkill;
    var d := s.description;
    read := s.(description := Universal(d), body := Universal(Trim(tx.blank, s.body)));
    BreaksAreBlank(tx);
    UniversalTrimmed(tx.blank, d);
    BodyIsRead(tx, "", s.body);
    OtherBody(tx, s, read);
    if d == "" {
      UniversalKeeps(d);
      assert s.(description := "") == s;
      FileIsRead(tx, s);
    } else {
      DescribedTextIsRead(tx, s, read);
    }
  }

  lemma OtherBody(tx: Text, s: Skill, read: Skill)
    requires GoodSkill(tx, s.(description := ""))
    requires read == s.(description := read.description, body := read.body)
    ensures GoodSkill(tx, read.(description := ""))
    ensures Later(tx, read) == Later(tx, s) && Opening(read) == Opening(s)
  {
    hide Plain, Present, ListText, GoodValues, GoodExtra, NormalizeName;
  }

  lemma DescribedTextIsRead(tx: Text, s: Skill, read: Skill)
    requires Sane(tx) && GoodButForDescription(tx, s) && s.description != ""
    requires read == s.(description := Universal(s.description), body := Universal(Trim(tx.blank, s.body)))
    ensures Universal(Render(tx, s)) == Render(tx, read)
  {
    hide Sane, Render, Trim, Universal, GoodSkill, Later, Opening, Join, Lines;
    var d, b := s.description, Trim(tx.blank, s.body);
    var head, tail := "---\n" + Opening(s), "\n" + Join("\n", Lines(Later(tx, s))) + "\n---\n\n";
    BreaksAreBlank(tx);
    OtherBody(tx, s, read);
    RenderedAround(tx, s);
    LaterIsGood(tx, s);
    LinesReturnNothing(tx, Later(tx, s));
    OpeningReturnsNothing(tx, s);
    UniversalKeeps(head);
    UniversalKeeps(tail);
    UniversalJoins(d, tail);
    UniversalJoins(head, d + tail);
    BodyIsRead(tx, head + (d + tail), s.body);
    assert Universal(d) != "" by { UniversalIsSome(d); }
    RenderedAround(tx, read);
    AroundIs(Opening(s), d, Join("\n", Lines(Later(tx, s))), b);
    AroundIs(Opening(s), Universal(d), Join("\n", Lines(Later(tx, s))), Universal(b));
  }

  lemma AroundIs(o: string, d: string, l: string, b: string)
    ensures "---\n" + (o + d + "\n" + l + "\n---\n\n" + b + "\n") == "---\n" + o + (d + ("\n" + l + "\n---\n\n")) + b + "\n"
  {
  }

  lemma UniversalIsSome(d: string)
    requires d != ""
    ensures Universal(d) != ""
  {
  }

  lemma OpeningReturnsNothing(tx: Text, s: Skill)
    requires GoodButForDescription(tx, s)
    ensures '\r' !in "---\n" + Opening(s)
  {
    NoReturn(s.name);
  }

  /** The next save that states no scope writes back the one that was there exactly when the description, as it
      is read from the file, reads; else the skill is one for any project. */
  lemma ScopeSurvivesIff(tx: Text, s: Skill, name: string, r: Request)
    requires Sane(tx) && GoodButForDescription(tx, s) && r.scope == []
    requires var d := Universal(s.description); Has(CLOSING, d) ==> EarlyStatesNo(tx, d, "scope")
    ensures var next := Saved(tx, Some(Render(tx, s)), name, r);
            var whole := DescriptionReads(tx, Universal(s.description));
            && next.scope == (if whole then s.scope else [ANY_SCOPE])
            && (whole ==> next.version == s.version + 1 && (r.requires_ == [] && s.requires_ != [] ==> next.requires_ == s.requires_)
                          && (s.created != "" ==> next.created == s.created))
    ensures s.scope != [ANY_SCOPE] ==>
              (Saved(tx, Some(Render(tx, s)), name, r).scope == s.scope <==> DescriptionReads(tx, Universal(s.description)))
  {
    hide Sane, Render, Trim, Universal, GoodButForDescription, DescriptionReads, Parse, Has, EarlyStatesNo;
    var read := DescribedFileIsRead(tx, s);
    ScopeReadBackIff(tx, read, name);
  }

  // -------------------------------------------------------------------------- one break

  /** A second line that leaves the block around it as it was. */
  predicate IsHarmless(tx: Text, c: char, line: string) {
    !IsUnreadable(tx, line) && (c == '\n' || c == '\r' ==> !(FENCE <= line))
  }

  function AsRead(c: char): char {
    if c == '\r' then '\n' else c
  }

  lemma StartsWithin(s: string)
    ensures s == "" || (s[0] in s && s[|s| - 1] in s)
  {
  }

  lemma BreakIsRead(a: string, c: char, b: string)
    requires NoneOf(IsBreak, a) && NoneOf(IsBreak, b)
    ensures Universal(a + [c] + b) == a + [AsRead(c)] + b
  {
    NoReturn(a);
    NoReturn(b);
    hide Universal, NoneOf;
    UniversalKeeps(a);
    UniversalKeeps(b);
    StartsWithin(b);
    UniversalStep([c], b);
    UniversalJoins(a, [c] + b);
    Associates(a, [c], b);
    Associates(a, [AsRead(c)], b);
  }

  lemma NoNewlineNoFence(p: string)
    requires '\n' !in p
    ensures !Has(CLOSING, p)
  {
    forall i | 0 <= i <= |p| ensures !(CLOSING <= p[i..]) {
      assert i < |p| ==> p[i] != CLOSING[0];
    }
  }

  lemma BreakCloses(a: string, c: char, b: string)
    requires NoneOf(IsBreak, a) && NoneOf(IsBreak, b)
    ensures Has(CLOSING, a + [c] + b) <==> c == '\n' && FENCE <= b
    ensures Has(CLOSING, a + [c] + b) ==> Before(CLOSING, a + [c] + b) == a
  {
    NoReturn(a);
    NoReturn(b);
    NoNewlineNoFence(b);
    var d, rest := a + [c] + b, [c] + b;
    assert d == a + rest && d[|a|..] == rest;
    if c == '\n' && FENCE <= b {
      var more := b[|FENCE|..];
      assert b == FENCE + more && rest == CLOSING + more && d == a + CLOSING + more;
      TooShort();
      PlainHidesNothing(a, "\n--");
      assert CLOSING[..|CLOSING| - 1] == "\n--";
      BeforeIsWhatStood(CLOSING, a, more);
    } else {
      if c == '\n' { BreakHides(b); } else { NoNewlineNoFence(rest); }
      assert "\n" + b == ['\n'] + b;
      PlainHidesNothing(a, rest);
    }
  }

  lemma OneBreakReadsIff(tx: Text, a: string, c: char, b: string)
    requires NoneOf(IsBreak, a) && NoneOf(IsBreak, b) && IsBreak(c)
    ensures DescriptionReads(tx, Universal(a + [c] + b)) <==> IsHarmless(tx, c, b)
    ensures var d := Universal(a + [c] + b); Has(CLOSING, d) ==> Split(IsBreak, Before(CLOSING, d))[1..] == []
  {
    hide Universal, Has, Before, Split, IsUnreadable;
    BreakIsRead(a, c, b);
    BreakCloses(a, AsRead(c), b);
    SplitFirst(IsBreak, a, AsRead(c), b);
    SplitNothing(IsBreak, b);
    SplitNothing(IsBreak, a);
    OneLine(tx, b);
    assert IsBreak('\n');
    assert ([a] + [b])[1..] == [b] && [a][1..] == [];
  }

  lemma OneLine(tx: Text, line: string)
    ensures AllReadable(tx, [line]) <==> !IsUnreadable(tx, line)
  {
    hide IsUnreadable;
    assert [line][0] == line;
  }

  /** One break of any kind in a description: the file keeps everything it stated exactly when what follows the
      break is harmless, and else it keeps nothing. */
  lemma OneBreakKeepsIff(tx: Text, s: Skill, a: string, c: char, b: string, name: string)
    requires Sane(tx) && GoodButForDescription(tx, s) && s.description == a + [c] + b
    requires NoneOf(IsBreak, a) && NoneOf(IsBreak, b) && IsBreak(c)
    ensures var back := Parse(tx, name, Universal(Render(tx, s)));
            if IsHarmless(tx, c, b) then Keeps(tx, s.(body := Universal(Trim(tx.blank, s.body))), back) else Forgets(back)
  {
    hide Sane, Render, Trim, Universal, GoodButForDescription, Parse, Has, Before, Split, IsUnreadable, IsHarmless, DescriptionReads,
         Keeps, Forgets;
    var read := DescribedFileIsRead(tx, s);
    OneBreakReadsIff(tx, a, c, b);
    if IsHarmless(tx, c, b) {
      ReadsKeeps(tx, read, name);
      KeepsIsSame(tx, s, read, Parse(tx, name, Render(tx, read)));
    } else {
      NothingStatesNo(tx, read.description);
      NothingKept(tx, read, name);
    }
  }

  lemma KeepsIsSame(tx: Text, s: Skill, read: Skill, back: Skill)
    requires read == s.(description := read.description, body := read.body)
    ensures Keeps(tx, read, back) <==> Keeps(tx, s.(body := read.body), back)
  {
    hide Get;
  }

  lemma NothingStatesNo(tx: Text, d: string)
    requires Has(CLOSING, d) ==> Split(IsBreak, Before(CLOSING, d))[1..] == []
    ensures Has(CLOSING, d) ==> forall k :: EarlyStatesNo(tx, d, k)
  {
  }

  lemma NothingKept(tx: Text, s: Skill, name: string)
    requires Sane(tx) && GoodButForDescription(tx, s) && !DescriptionReads(tx, s.description)
    requires Has(CLOSING, s.description) ==> forall k :: EarlyStatesNo(tx, s.description, k)
    ensures Forgets(Parse(tx, name, Render(tx, s)))
  {
    hide Get, Render, ParseFrontmatter, GoodButForDescription, DescriptionReads, SplitValues, NormalizeName, Extra, Trim, Has,
         EarlyStatesNo;
    LostKey(tx, s, "scope");
    LostKey(tx, s, "requires");
    LostKey(tx, s, "tags");
    LostKey(tx, s, "version");
    LostKey(tx, s, "created");
    LostKey(tx, s, "updated");
    NothingSplits(tx);
  }

  const FIRST := "ship it"
  const SECOND := "never on fridays"

  predicate IsLowerText(s: string) {
    forall i :: 0 <= i < |s| ==> s[i] == ' ' || 'a' <= s[i] <= 'z'
  }

  lemma LowerTextIsLine(tx: Text, s: string)
    requires Sane(tx) && IsLowerText(s) && s != "" && s[0] != ' '
    ensures NoneOf(IsBreak, s) && IsUnreadable(tx, s) && !tx.blank(s[0]) && (s[|s| - 1] != ' ' ==> !tx.blank(s[|s| - 1]))
  {
    assert TrimLeft(tx.blank, s) == s;
  }

  lemma BothAreLower()
    ensures IsLowerText(FIRST) && FIRST != "" && FIRST[0] != ' '
    ensures IsLowerText(SECOND) && SECOND != "" && SECOND[0] != ' ' && SECOND[|SECOND| - 1] != ' '
  {
  }

  lemma EndsAre(a: string, c: char, b: string)
    requires a != "" && b != ""
    ensures var d := a + [c] + b; d[0] == a[0] && d[|d| - 1] == b[|b| - 1]
  {
  }

  /** The line separator is a break no caller takes out. The line behind it here has no colon, so whatever narrow
      scope the file stated, the next save widens it. */
  lemma LineSeparatorWidens(tx: Text, s: Skill, name: string, r: Request)
    requires Sane(tx) && GoodSkill(tx, s.(description := "")) && s.description == FIRST + ['\U{2028}'] + SECOND
    requires r.scope == []
    ensures Saved(tx, Some(Render(tx, s)), name, r).scope == [ANY_SCOPE]
  {
    BothAreLower();
    hide Sane, Render, Trim, Universal, GoodSkill, Parse, IsUnreadable, Keeps, FIRST, SECOND, IsLowerText;
    LowerTextIsLine(tx, FIRST);
    LowerTextIsLine(tx, SECOND);
    EndsAre(FIRST, '\U{2028}', SECOND);
    OneBreakKeepsIff(tx, s, FIRST, '\U{2028}', SECOND, name);
  }
}
