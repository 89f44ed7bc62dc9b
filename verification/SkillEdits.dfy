/**
  A skill's file of any text, edited by hand or not: the scope read from it,
  saved over without stating one, and read again.
 */
module SkillEdits {
  import opened Wrappers
  import opened Strings
  import opened SkillFile
  import opened SkillRoundTrip
  import opened SkillLibrary

  // --------------------------------------------------------------- what is read of a file

  /** Lower case as it is: done once it is done, and neither blanks nor the format's marks come of it. */
  ghost predicate SaneCase(tx: Text) {
    forall s: string :: tx.lower(tx.lower(s)) == tx.lower(s) && (IsBareKey(tx, s) ==> IsBareKey(tx, tx.lower(s)))
  }

  predicate IsBareKey(tx: Text, k: string) {
    Plain(tx, k) && NoneOf(IsColon, k) && !("#" <= k)
  }

  /** A line that can be written: whatever its value, its key is read back. */
  predicate Writable(tx: Text, kv: (string, string)) {
    IsBareKey(tx, kv.0) && tx.lower(kv.0) == kv.0 && NoneOf(IsBreak, kv.1)
  }

  predicate AllWritable(tx: Text, fs: Fields) {
    forall i :: 0 <= i < |fs| ==> Writable(tx, fs[i])
  }

  /** What is read: writable lines, of values bare of outer blanks. */
  predicate IsRead(tx: Text, fs: Fields) {
    AllWritable(tx, fs) && DistinctKeys(fs) && forall i :: 0 <= i < |fs| ==> Trimmed(tx.blank, fs[i].1)
  }

  lemma {:induction false} PutKeys(fs: Fields, k: string, v: string)
    requires DistinctKeys(fs)
    ensures DistinctKeys(Put(fs, k, v))
    ensures forall i :: 0 <= i < |Put(fs, k, v)| ==> Put(fs, k, v)[i] == (k, v) || Put(fs, k, v)[i] in fs
    ensures forall q :: HasKey(Put(fs, k, v), q) <==> q == k || HasKey(fs, q)
  {
    hide HasKey, DistinctKeys;
    HasKeyMore(fs, (k, v));
    DistinctMore(fs, (k, v));
    if fs == [] {
      NoKeys();
      assert [] + [(k, v)] == [(k, v)];
    } else {
      var before, last := fs[..|fs| - 1], fs[|fs| - 1];
      assert fs == before + [last];
      DistinctMore(before, last);
      PutKeys(before, k, v);
      HasKeyMore(before, last);
      HasKeyMore(before, (k, v));
      DistinctMore(before, (k, v));
      HasKeyMore(Put(before, k, v), last);
      DistinctMore(Put(before, k, v), last);
    }
  }

  lemma NoKeys()
    ensures forall k :: !HasKey([], k)
  {
  }

  lemma DistinctMore(fs: Fields, kv: (string, string))
    ensures DistinctKeys(fs + [kv]) <==> DistinctKeys(fs) && !HasKey(fs, kv.0)
  {
    var more := fs + [kv];
    if DistinctKeys(more) {
      forall i | 0 <= i < |fs| ensures fs[i].0 != kv.0 { assert more[i].0 != more[|fs|].0; }
      forall i, j | 0 <= i < j < |fs| ensures fs[i].0 != fs[j].0 { assert more[i].0 != more[j].0; }
    }
  }

  lemma HasKeyMore(fs: Fields, kv: (string, string))
    ensures forall q :: HasKey(fs + [kv], q) <==> HasKey(fs, q) || q == kv.0
  {
    var more := fs + [kv];
    assert more[|fs|] == kv;
    forall q | HasKey(fs, q) ensures HasKey(more, q) {
      var i :| 0 <= i < |fs| && fs[i].0 == q;
      assert more[i].0 == q;
    }
  }

  lemma {:induction false} TrimLeftIsPart(f: char -> bool, s: string)
    ensures exists n :: 0 <= n <= |s| && TrimLeft(f, s) == s[n..]
  {
    if s != "" && f(s[0]) {
      TrimLeftIsPart(f, s[1..]);
      var n :| 0 <= n <= |s[1..]| && TrimLeft(f, s[1..]) == s[1..][n..];
      assert s[1..][n..] == s[n + 1..];
    } else {
      assert s[0..] == s;
    }
  }

  lemma {:induction false} TrimRightIsPart(f: char -> bool, s: string)
    ensures TrimRight(f, s) <= s
  {
    if s != "" && f(s[|s| - 1]) { TrimRightIsPart(f, s[..|s| - 1]); }
  }

  lemma PartHasNone(g: char -> bool, s: string, part: string, n: nat)
    requires NoneOf(g, s) && n <= |s| && part <= s[n..]
    ensures NoneOf(g, part) && |part| <= |s|
  {
    forall i | 0 <= i < |part| ensures !g(part[i]) { assert part[i] == s[n..][i] == s[n + i]; }
  }

  /** Trimming brings in nothing. */
  lemma TrimHasNone(g: char -> bool, f: char -> bool, s: string)
    requires NoneOf(g, s)
    ensures NoneOf(g, Trim(f, s)) && |Trim(f, s)| <= |s|
  {
    hide TrimLeft, TrimRight, NoneOf;
    TrimLeftIsPart(f, s);
    var n :| 0 <= n <= |s| && TrimLeft(f, s) == s[n..];
    TrimRightIsPart(f, s[n..]);
    PartHasNone(g, s, Trim(f, s), n);
  }

  lemma {:induction false} SplitHasNone(sep: char -> bool, s: string)
    ensures forall i :: 0 <= i < |Split(sep, s)| ==> NoneOf(sep, Split(sep, s)[i])
  {
    if s != "" { SplitHasNone(sep, s[1..]); }
  }

  lemma {:induction false} SplitKeepsNone(sep: char -> bool, g: char -> bool, s: string)
    requires NoneOf(g, s)
    ensures forall i :: 0 <= i < |Split(sep, s)| ==> NoneOf(g, Split(sep, s)[i])
  {
    if s != "" { SplitKeepsNone(sep, g, s[1..]); }
  }

  /** The start of a line's key is the start of the line. */
  lemma {:induction false} KeyStarts(f: char -> bool, key: string, rest: string)
    ensures TrimLeft(f, key) != "" ==> TrimLeft(f, key + rest) != "" && TrimLeft(f, key)[0] == TrimLeft(f, key + rest)[0]
  {
    if key != "" {
      assert (key + rest)[1..] == key[1..] + rest;
      if f(key[0]) { KeyStarts(f, key[1..], rest); }
    }
  }

  lemma {:induction false} BeforeColon(s: string)
    ensures NoneOf(IsColon, Before(":", s))
  {
    if s != "" && !(":" <= s) {
      BeforeColon(s[1..]);
      assert s[0] == ':' ==> ":" <= s;
    }
  }

  lemma KeyIsBare(tx: Text, line: string)
    requires NoneOf(IsBreak, line) && TrimLeft(tx.blank, line) != "" && TrimLeft(tx.blank, line)[0] != '#'
    ensures IsBareKey(tx, Trim(tx.blank, Before(":", line)))
  {
    hide Before, Trim, TrimLeft, TrimRight;
    var key := Before(":", line);
    BeforeColon(line);
    assert NoneOf(IsBreak, key);
    TrimHasNone(IsBreak, tx.blank, key);
    TrimHasNone(IsColon, tx.blank, key);
    TrimIsTrimmed(tx.blank, key);
    assert line == key + line[|key|..];
    KeyStarts(tx.blank, key, line[|key|..]);
    TrimStarts(tx.blank, key);
  }

  lemma TrimStarts(f: char -> bool, s: string)
    ensures Trim(f, s) != "" ==> TrimLeft(f, s) != "" && Trim(f, s)[0] == TrimLeft(f, s)[0]
  {
    TrimRightEnds(f, TrimLeft(f, s));
  }

  /** Whatever line is read, what is known of what was read stays true. */
  lemma LineReads(tx: Text, fs: Fields, line: string)
    requires Sane(tx) && SaneCase(tx) && IsRead(tx, fs) && NoneOf(IsBreak, line) && ReadLine(tx, fs, line).Some?
    ensures IsRead(tx, ReadLine(tx, fs, line).value)
  {
    hide Before, Put, Trim, TrimLeft, Plain, Sane, IsBareKey;
    var bare := TrimLeft(tx.blank, line);
    if bare != "" && bare[0] != '#' {
      var key := Before(":", line);
      var k, rest := tx.lower(Trim(tx.blank, key)), line[if |key| < |line| then |key| + 1 else |line|..];
      var v := Trim(tx.blank, rest);
      KeyIsBare(tx, line);
      TrimHasNone(IsBreak, tx.blank, rest);
      TrimIsTrimmed(tx.blank, rest);
      assert Writable(tx, (k, v));
      PutKeys(fs, k, v);
      PutIsRead(tx, fs, k, v);
    }
  }

  lemma PutIsRead(tx: Text, fs: Fields, k: string, v: string)
    requires IsRead(tx, fs) && Writable(tx, (k, v)) && Trimmed(tx.blank, v)
    ensures IsRead(tx, Put(fs, k, v))
  {
    hide Put, Writable, Trimmed;
    PutKeys(fs, k, v);
    var more := Put(fs, k, v);
    forall i | 0 <= i < |more| ensures Writable(tx, more[i]) && Trimmed(tx.blank, more[i].1) {
      if more[i] != (k, v) { var j :| 0 <= j < |fs| && fs[j] == more[i]; }
    }
  }

  lemma {:induction false} LinesRead(tx: Text, lines: seq<string>)
    requires Sane(tx) && SaneCase(tx) && ReadLines(tx, lines).Some?
    requires forall i :: 0 <= i < |lines| ==> NoneOf(IsBreak, lines[i])
    ensures IsRead(tx, ReadLines(tx, lines).value)
  {
    if lines != [] {
      hide ReadLine, Sane, SaneCase, IsRead, NoneOf;
      LinesRead(tx, lines[..|lines| - 1]);
      LineReads(tx, ReadLines(tx, lines[..|lines| - 1]).value, lines[|lines| - 1]);
    }
  }

  lemma FileReads(tx: Text, text: string)
    requires Sane(tx) && SaneCase(tx)
    ensures IsRead(tx, ParseFrontmatter(tx, text).0)
  {
    hide ReadLines, Split, Sane, SaneCase, Opened, Closed;
    if Opened(text).Some? && Closed(Opened(text).value).Some? {
      var block := Closed(Opened(text).value).value.0;
      SplitHasNone(IsBreak, block);
      if ReadLines(tx, Split(IsBreak, block)).Some? { LinesRead(tx, Split(IsBreak, block)); }
    }
  }

  // -------------------------------------------------------------------- what is printed

  /** A value as a list in any file gives it: it may keep blanks that stood inside its quotes. */
  predicate IsListed(v: string) {
    v != "" && NoneOf(IsBreak, v) && NoneOf(IsComma, v) && Trimmed(IsQuote, v)
  }

  predicate AllListed(vs: seq<string>) {
    forall i :: 0 <= i < |vs| ==> IsListed(vs[i])
  }

  /** What a save over any file writes. */
  predicate Printable(tx: Text, s: Skill) {
    && NoneOf(IsBreak, s.name) && NoneOf(IsBreak, s.description)
    && s.scope != [] && AllListed(s.scope) && AllListed(s.requires_) && AllListed(s.tags)
    && NoneOf(IsBreak, s.created) && NoneOf(IsBreak, s.updated)
    && AllWritable(tx, s.extra) && DistinctKeys(s.extra)
    && forall i :: 0 <= i < |s.extra| ==> s.extra[i].0 !in KNOWN
  }

  lemma {:induction false} CleanedIsListed(tx: Text, parts: seq<string>)
    requires forall i :: 0 <= i < |parts| ==> NoneOf(IsBreak, parts[i]) && NoneOf(IsComma, parts[i])
    ensures AllListed(Cleaned(tx, parts))
  {
    if parts != [] {
      hide Trim, Trimmed, NoneOf;
      var bare := Trim(tx.blank, parts[0]);
      TrimHasNone(IsBreak, tx.blank, parts[0]);
      TrimHasNone(IsComma, tx.blank, parts[0]);
      TrimHasNone(IsBreak, IsQuote, bare);
      TrimHasNone(IsComma, IsQuote, bare);
      TrimIsTrimmed(IsQuote, bare);
      CleanedIsListed(tx, parts[1..]);
    }
  }

  lemma SplitIsListed(tx: Text, raw: string)
    requires NoneOf(IsBreak, raw)
    ensures AllListed(SplitValues(tx, raw))
  {
    hide Split, Trim, AllListed;
    var inner := Trim(tx.blank, raw);
    TrimHasNone(IsBreak, tx.blank, raw);
    var bare := if |inner| >= 2 && inner[0] == '[' && inner[|inner| - 1] == ']' then inner[1..|inner| - 1] else inner;
    assert NoneOf(IsBreak, bare);
    SplitHasNone(IsComma, bare);
    SplitKeepsNone(IsComma, IsBreak, bare);
    CleanedIsListed(tx, Split(IsComma, bare));
  }

  lemma {:induction false} GotHasNone(tx: Text, fs: Fields, k: string)
    requires AllWritable(tx, fs)
    ensures NoneOf(IsBreak, GetOr(fs, k, ""))
  {
    if fs != [] {
      hide IsBareKey;
      assert Writable(tx, fs[|fs| - 1]);
      GotHasNone(tx, fs[..|fs| - 1], k);
    }
  }

  lemma {:induction false} ExtraIsPart(fs: Fields)
    requires DistinctKeys(fs)
    ensures DistinctKeys(Extra(fs)) && forall i :: 0 <= i < |Extra(fs)| ==> Extra(fs)[i] in fs && Extra(fs)[i].0 !in KNOWN
  {
    if fs != [] {
      var before, last := fs[..|fs| - 1], fs[|fs| - 1];
      ExtraIsPart(before);
      assert fs == before + [last];
      forall i | 0 <= i < |Extra(before)| ensures Extra(before)[i].0 != last.0 {
        var j :| 0 <= j < |before| && before[j] == Extra(before)[i];
        assert fs[j].0 != last.0;
      }
    }
  }

  lemma ExtraIsWritable(tx: Text, fs: Fields)
    requires AllWritable(tx, fs) && DistinctKeys(fs)
    ensures AllWritable(tx, Extra(fs))
  {
    hide Extra, Writable;
    ExtraIsPart(fs);
    forall i | 0 <= i < |Extra(fs)| ensures Writable(tx, Extra(fs)[i]) {
      var j :| 0 <= j < |fs| && fs[j] == Extra(fs)[i];
    }
  }

  lemma ReadIsPrintable(tx: Text, name: string, text: string)
    requires Sane(tx) && SaneCase(tx)
    ensures Printable(tx, Parse(tx, name, text).(name := ""))
  {
    hide Get, GetOr, Extra, ParseFrontmatter, SplitValues, Trim, NormalizeName, Sane, SaneCase, Writable, NoneOf;
    var fs := ParseFrontmatter(tx, text).0;
    FileReads(tx, text);
    GotHasNone(tx, fs, "scope");
    GotHasNone(tx, fs, "requires");
    GotHasNone(tx, fs, "tags");
    GotHasNone(tx, fs, "created");
    GotHasNone(tx, fs, "updated");
    GotHasNone(tx, fs, "description");
    SplitIsListed(tx, GetOr(fs, "scope", ""));
    SplitIsListed(tx, GetOr(fs, "requires", ""));
    SplitIsListed(tx, GetOr(fs, "tags", ""));
    TrimHasNone(IsBreak, tx.blank, GetOr(fs, "description", ""));
    TrimHasNone(IsBreak, IsQuote, Trim(tx.blank, GetOr(fs, "description", "")));
    ExtraIsPart(fs);
    ExtraIsWritable(tx, fs);
    AnyIsListed();
    NothingBreaks();
  }

  lemma AnyIsListed()
    ensures AllListed([ANY_SCOPE])
  {
    assert ANY_SCOPE[0] == 'a' && ANY_SCOPE[1] == 'n' && ANY_SCOPE[2] == 'y';
  }

  lemma NothingBreaks()
    ensures NoneOf(IsBreak, "")
  {
  }

  /** What a request may be: a description and a stamp of one line each, lists of listed values. */
  predicate PlainRequest(tx: Text, r: Request) {
    NoneOf(IsBreak, Trim(tx.blank, r.description)) && AllListed(r.scope) && AllListed(r.requires_) && NoneOf(IsBreak, r.stamp)
  }

  lemma SavedIsPrintable(tx: Text, text: string, name: string, r: Request)
    requires Sane(tx) && SaneCase(tx) && NoneOf(IsBreak, name) && PlainRequest(tx, r)
    ensures Printable(tx, Saved(tx, Some(text), name, r))
  {
    hide Parse, Trim, Sane, SaneCase, AllWritable, NoneOf, AllListed, Universal;
    ReadIsPrintable(tx, name, Universal(text));
  }

  // ------------------------------------------------------------------ and read once more

  /** Values bare of outer blanks. */
  function Tidy(tx: Text, fs: Fields): Fields {
    seq(|fs|, i requires 0 <= i < |fs| => (fs[i].0, Trim(tx.blank, fs[i].1)))
  }

  lemma PadGoes(f: char -> bool, s: string)
    requires f(' ')
    ensures Trim(f, " " + s) == Trim(f, s)
  {
    assert (" " + s)[1..] == s;
  }

  lemma WrittenIsRead(tx: Text, fs: Fields, kv: (string, string))
    requires Sane(tx) && Writable(tx, kv)
    ensures ReadLine(tx, fs, Line(kv)) == Some(Put(fs, kv.0, Trim(tx.blank, kv.1)))
  {
    hide Before, Put, Trim;
    WrittenStarts(tx, kv);
    KeyIsFound(kv.0, kv.1);
    TrimmedStays(tx.blank, kv.0);
    PadGoes(tx.blank, kv.1);
  }

  lemma WrittenStarts(tx: Text, kv: (string, string))
    requires Sane(tx) && Writable(tx, kv)
    ensures var line := Line(kv);
            && TrimLeft(tx.blank, line) == line && line != "" && line[0] != '#' && line[0] != ' ' && line[0] != '\t'
            && ':' in line && |kv.0| < |line| && line[|kv.0| + 1..] == " " + kv.1
  {
    var line := Line(kv);
    assert line[0] == if kv.0 == "" then ':' else kv.0[0];
    assert line[|kv.0|] == ':';
  }

  lemma {:induction false} WrittenAreRead(tx: Text, fs: Fields)
    requires Sane(tx) && AllWritable(tx, fs) && DistinctKeys(fs)
    ensures ReadLines(tx, Lines(fs)) == Some(Tidy(tx, fs))
    decreases |fs|
  {
    hide ReadLine, Line, Put, HasKey, Sane, Writable, Trim;
    if fs == [] {
      NoLinesAreRead(tx);
    } else {
      var before, last := fs[..|fs| - 1], fs[|fs| - 1];
      WrittenAreRead(tx, before);
      WrittenIsRead(tx, Tidy(tx, before), last);
      NewKey(tx, fs);
      PutsLast(Tidy(tx, before), last.0, Trim(tx.blank, last.1));
      assert Lines(fs)[..|fs| - 1] == Lines(before);
      assert Tidy(tx, fs) == Tidy(tx, before) + [(last.0, Trim(tx.blank, last.1))];
    }
  }

  lemma NewKey(tx: Text, fs: Fields)
    requires DistinctKeys(fs) && fs != []
    ensures !HasKey(Tidy(tx, fs[..|fs| - 1]), fs[|fs| - 1].0)
  {
    hide Trim;
  }

  lemma WrittenLine(tx: Text, kv: (string, string))
    requires Sane(tx) && Writable(tx, kv)
    ensures NoneOf(IsBreak, Line(kv)) && '\n' !in Line(kv) && '\r' !in Line(kv)
  {
    forall i | 0 <= i < |Line(kv)| ensures !IsBreak(Line(kv)[i]) { LineChar(kv, i); }
    NoReturn(Line(kv));
  }

  /** How many lines come before the first that starts a fence. */
  function ToFence(lines: seq<string>): (n: nat)
    ensures n <= |lines| && (n < |lines| ==> FENCE <= lines[n]) && forall i :: 0 <= i < n ==> !(FENCE <= lines[i])
  {
    if lines == [] || FENCE <= lines[0] then 0 else 1 + ToFence(lines[1..])
  }

  lemma {:induction false} JoinSplits(a: seq<string>, b: seq<string>)
    requires a != [] && b != []
    ensures Join("\n", a + b) == Join("\n", a) + "\n" + Join("\n", b)
  {
    hide Join;
    JoinIs("\n", a + b);
    JoinIs("\n", a);
    if |a| == 1 {
      assert (a + b)[1..] == b;
    } else {
      assert (a + b)[1..] == a[1..] + b;
      JoinSplits(a[1..], b);
    }
  }

  /** A block is read up to the first line that starts a fence, its own at the latest. */
  lemma ReadToFence(tx: Text, fs: Fields, more: string) returns (rest: string)
    requires Sane(tx) && AllWritable(tx, fs) && DistinctKeys(fs) && ToFence(Lines(fs)) > 0
    ensures var n := ToFence(Lines(fs)); var block := Join("\n", Lines(fs[..n]));
            && Join("\n", Lines(fs)) + CLOSING + more == block + CLOSING + rest
            && Before(CLOSING, block + CLOSING + rest) == block
            && ReadLines(tx, Split(IsBreak, block)) == Some(Tidy(tx, fs[..n]))
  {
    hide Join, Split, Before, Has, ReadLines, Sane, Line, Writable, Tidy;
    var lines, n := Lines(fs), ToFence(Lines(fs));
    assert Lines(fs[..n]) == lines[..n];
    forall i | 0 <= i < |fs| ensures NoneOf(IsBreak, lines[i]) && '\n' !in lines[i] { WrittenLine(tx, fs[i]); }
    rest := CutAtFence(lines, n, more);
    BlockStops(lines[..n], rest);
    assert ['\n'] == "\n";
    SplitUndoesJoin(IsBreak, '\n', lines[..n]);
    WrittenAreRead(tx, fs[..n]);
  }

  lemma BlockStops(lines: seq<string>, rest: string)
    requires lines != [] && forall i :: 0 <= i < |lines| ==> '\n' !in lines[i] && !(FENCE <= lines[i])
    ensures Before(CLOSING, Join("\n", lines) + CLOSING + rest) == Join("\n", lines)
  {
    hide Join, Before, Has;
    NoFenceInside(lines);
    assert CLOSING[..|CLOSING| - 1] == "\n--";
    BeforeIsWhatStood(CLOSING, Join("\n", lines), rest);
  }

  lemma CutAtFence(lines: seq<string>, n: nat, more: string) returns (rest: string)
    requires 0 < n <= |lines| && (n < |lines| ==> FENCE <= lines[n])
    ensures Join("\n", lines) + CLOSING + more == Join("\n", lines[..n]) + CLOSING + rest
  {
    hide Join;
    if n == |lines| {
      assert lines[..n] == lines;
      rest := more;
    } else {
      var block := Join("\n", lines[..n]);
      JoinSplits(lines[..n], lines[n..]);
      assert lines == lines[..n] + lines[n..];
      var line := FenceStarts(lines[n..]);
      rest := line + CLOSING + more;
      FenceRegroups(block, line, more);
    }
  }

  lemma FenceRegroups(block: string, line: string, more: string)
    ensures block + "\n" + (FENCE + line) + CLOSING + more == block + CLOSING + (line + CLOSING + more)
  {
  }

  lemma FenceStarts(lines: seq<string>) returns (rest: string)
    requires lines != [] && FENCE <= lines[0]
    ensures Join("\n", lines) == FENCE + rest
  {
    JoinIs("\n", lines);
    var line := lines[0][|FENCE|..];
    assert lines[0] == FENCE + line;
    rest := if |lines| == 1 then line else line + "\n" + Join("\n", lines[1..]);
    assert |lines| > 1 ==> (FENCE + line) + "\n" + Join("\n", lines[1..]) == FENCE + (line + "\n" + Join("\n", lines[1..]));
  }

  predicate WritableSlots(slots: seq<Slot>) {
    && (forall i :: 0 <= i < |slots| ==> slots[i].key in KNOWN && NoneOf(IsBreak, slots[i].value))
    && (forall i, j :: 0 <= i < j < |slots| ==> slots[i].key != slots[j].key)
  }

  lemma {:induction false} PresentIsWritable(tx: Text, slots: seq<Slot>)
    requires Sane(tx) && WritableSlots(slots)
    ensures var fs := Present(slots); AllWritable(tx, fs) && DistinctKeys(fs)
    ensures forall i :: 0 <= i < |Present(slots)| ==>
              Present(slots)[i].0 in KNOWN && exists j :: 0 <= j < |slots| && slots[j].key == Present(slots)[i].0
  {
    if slots != [] {
      hide Writable, Sane, NoneOf;
      var before, last := slots[..|slots| - 1], slots[|slots| - 1];
      PresentIsWritable(tx, before);
      if last.written { SlotIsWritable(tx, last); }
      forall i | 0 <= i < |Present(before)| ensures Present(before)[i].0 != last.key {
        var j :| 0 <= j < |before| && before[j].key == Present(before)[i].0;
        assert slots[j].key != last.key;
      }
    }
  }

  lemma SlotIsWritable(tx: Text, slot: Slot)
    requires Sane(tx) && slot.key in KNOWN && NoneOf(IsBreak, slot.value)
    ensures Writable(tx, (slot.key, slot.value))
  {
    KnownIsGood(tx, slot.key);
  }

  lemma SlotsAreWritable(tx: Text, s: Skill)
    requires Sane(tx) && Printable(tx, s)
    ensures WritableSlots(Slots(tx, s))
  {
    hide ListText, AllWritable;
    ListHasNone(s.scope);
    ListHasNone(s.requires_);
    ListHasNone(s.tags);
    assert Plain(tx, tx.fromInt(s.version));
  }

  lemma ListHasNone(vs: seq<string>)
    requires AllListed(vs)
    ensures NoneOf(IsBreak, ListText(vs))
  {
    hide Join;
    forall i | 0 <= i < |vs| ensures NoneOf(IsBreak, vs[i]) { assert IsListed(vs[i]); }
    JoinHasNoBreaks(vs);
  }

  lemma KnownIsNoFence(k: string, v: string)
    requires k in KNOWN
    ensures !(FENCE <= Line((k, v)))
  {
    KnownIsLetters(k);
    assert Line((k, v))[0] == k[0];
  }

  /** A line of the format's own starts no fence, so what comes first is those. */
  lemma FenceIsLater(tx: Text, s: Skill)
    requires Sane(tx) && Printable(tx, s)
    ensures AllWritable(tx, Stated(tx, s)) && DistinctKeys(Stated(tx, s))
    ensures 0 < |Present(Slots(tx, s))| <= ToFence(Lines(Stated(tx, s)))
  {
    hide Sane, Present, Slots, Writable, Line, ListText;
    var slots := Slots(tx, s);
    var p := Present(slots);
    var fs := p + s.extra;
    SlotsAreWritable(tx, s);
    PresentIsWritable(tx, slots);
    NameComesFirst(tx, s);
    forall i | 0 <= i < |p| ensures !(FENCE <= Lines(fs)[i]) {
      assert fs[i] == p[i];
      KnownIsNoFence(p[i].0, p[i].1);
    }
    forall i, j | 0 <= i < j < |fs| ensures fs[i].0 != fs[j].0 {
      if i < |p| <= j { assert p[i].0 in KNOWN && s.extra[j - |p|].0 !in KNOWN; }
    }
    NoFenceBefore(Lines(fs), |p|);
  }

  lemma NameComesFirst(tx: Text, s: Skill)
    ensures Present(Slots(tx, s)) != []
  {
    var slots := Slots(tx, s);
    SaysAt(slots, 0);
    PresentSays(slots, "name");
  }

  lemma {:induction false} NoFenceBefore(lines: seq<string>, n: nat)
    requires n <= |lines| && forall i :: 0 <= i < n ==> !(FENCE <= lines[i])
    ensures n <= ToFence(lines)
  {
    if n > 0 { NoFenceBefore(lines[1..], n - 1); }
  }

  lemma {:induction false} TidySays(tx: Text, fs: Fields, k: string)
    ensures Get(Tidy(tx, fs), k) == match Get(fs, k) case Some(v) => Some(Trim(tx.blank, v)) case None => None
  {
    hide Trim;
    if fs != [] {
      var before := fs[..|fs| - 1];
      TidySays(tx, before, k);
      assert Tidy(tx, fs)[..|fs| - 1] == Tidy(tx, before);
    }
  }

  lemma ScopeIsStated(tx: Text, s: Skill, n: nat)
    requires Sane(tx) && Printable(tx, s) && |Present(Slots(tx, s))| <= n <= |Stated(tx, s)|
    ensures Get(Stated(tx, s)[..n], "scope") == Some(ListText(s.scope))
  {
    hide Sane, Present, Get, Writable, ListText, Says;
    var slots := Slots(tx, s);
    var p := Present(slots);
    var some := s.extra[..n - |p|];
    SlotsAreWritable(tx, s);
    assert Stated(tx, s)[..n] == p + some;
    FieldsJoin(p, some);
    NoneOfKnown(some);
    PresentSays(slots, "scope");
    SaysAt(slots, 2);
  }

  /** What is read of a printed skill's frontmatter: all of it, or all before a further key that starts a fence. */
  lemma PrintedIsRead(tx: Text, s: Skill) returns (n: nat)
    requires Sane(tx) && Printable(tx, s)
    ensures |Present(Slots(tx, s))| <= n <= |Stated(tx, s)|
    ensures ParseFrontmatter(tx, Render(tx, s)).0 == Tidy(tx, Stated(tx, s)[..n])
  {
    hide Sane, Stated, Present, Slots, Writable, Lines, Join, Trim, Before, Split, ReadLines, Opened, Closed, Tidy, AfterFence, ToFence,
         Printable, AllWritable, DistinctKeys;
    var fs, body := Stated(tx, s), Trim(tx.blank, s.body);
    FenceIsLater(tx, s);
    n := ToFence(Lines(fs));
    AsMany(fs);
    var more := "\n\n" + body + "\n";
    var rest := ReadToFence(tx, fs, more);
    var block := Join("\n", Lines(fs[..n]));
    assert Render(tx, s) == "---\n" + (Join("\n", Lines(fs)) + CLOSING + more);
    OpenedIs(block + CLOSING + rest);
    ClosedIs(block, rest);
  }

  lemma AsMany(fs: Fields)
    ensures |Lines(fs)| == |fs|
  {
  }

  // ------------------------------------------------------------------ lists read once more

  lemma {:induction false} RespelledList(tx: Text, pad: string, vs: seq<string>)
    requires Sane(tx) && vs != [] && AllListed(vs) && (pad == "" || pad == " ")
    ensures Cleaned(tx, Split(IsComma, pad + Join(", ", vs))) == Cleaned(tx, vs)
    decreases |vs|
  {
    hide Split, Join, Cleaned, NoneOf, Trim, Trimmed, Sane, IsListed;
    var v, part := vs[0], pad + vs[0];
    JoinIs(", ", vs);
    PartIsValue(tx, pad, v);
    CleanedOne(tx, v, vs[1..]);
    assert vs == [v] + vs[1..];
    if |vs| == 1 {
      SplitNothing(IsComma, part);
      CleanedOne(tx, part, []);
      assert [part] + [] == [part] && vs[1..] == [];
    } else {
      var rest := " " + Join(", ", vs[1..]);
      assert pad + Join(", ", vs) == part + [','] + rest;
      SplitFirst(IsComma, part, ',', rest);
      RespelledList(tx, " ", vs[1..]);
      CleanedOne(tx, part, Split(IsComma, rest));
    }
  }

  lemma PartIsValue(tx: Text, pad: string, v: string)
    requires Sane(tx) && IsListed(v) && (pad == "" || pad == " ")
    ensures NoneOf(IsComma, pad + v) && Trim(tx.blank, pad + v) == Trim(tx.blank, v)
  {
    hide Trim;
    PadGoes(tx.blank, v);
    assert "" + v == v;
  }

  /** A list printed is read as its values without the blanks they kept. */
  lemma ListIsRespelled(tx: Text, vs: seq<string>)
    requires Sane(tx) && vs != [] && AllListed(vs)
    ensures SplitValues(tx, Trim(tx.blank, ListText(vs))) == Cleaned(tx, vs)
  {
    hide Split, Join, Cleaned;
    var text, inner := ListText(vs), Join(", ", vs);
    TrimmedStays(tx.blank, text);
    assert text[1..|text| - 1] == inner && "" + inner == inner;
    RespelledList(tx, "", vs);
  }

  predicate AllTrimmed(tx: Text, vs: seq<string>) {
    forall i :: 0 <= i < |vs| ==> Trimmed(tx.blank, vs[i])
  }

  lemma {:induction false} TrimRightIsSameIff(f: char -> bool, s: string)
    ensures |TrimRight(f, s)| <= |s| && (|TrimRight(f, s)| == |s| <==> s == "" || !f(s[|s| - 1]))
  {
    if s != "" { TrimRightIsSameIff(f, s[..|s| - 1]); }
  }

  lemma TrimIsShorter(f: char -> bool, s: string)
    ensures |Trim(f, s)| <= |s| && (Trim(f, s) == s <==> Trimmed(f, s)) && (|Trim(f, s)| == |s| <==> Trimmed(f, s))
  {
    hide TrimRight, TrimLeft;
    TrimLeftShortens(f, s);
    TrimRightIsSameIff(f, TrimLeft(f, s));
    TrimIsTrimmed(f, s);
    if Trimmed(f, s) { TrimmedStays(f, s); }
    if s != "" && !f(s[0]) { NoLeftTrim(f, s); }
  }

  lemma {:induction false} CleanedIsSameIff(tx: Text, vs: seq<string>)
    requires AllListed(vs)
    ensures |Cleaned(tx, vs)| <= |vs| && (Cleaned(tx, vs) == vs <==> AllTrimmed(tx, vs))
  {
    hide Trim, Trimmed, NoneOf;
    if vs != [] {
      var v, rest := vs[0], vs[1..];
      assert IsListed(v);
      var bare := Trim(tx.blank, v);
      CleanedIsSameIff(tx, rest);
      TrimIsShorter(tx.blank, v);
      TrimIsShorter(IsQuote, bare);
      CleanedOne(tx, v, rest);
      assert vs == [v] + rest;
      assert AllTrimmed(tx, vs) <==> Trimmed(tx.blank, v) && AllTrimmed(tx, rest) by { AllTrimmedIs(tx, v, rest); }
      if Trimmed(tx.blank, v) { TrimmedStays(IsQuote, v); }
      FirstDecides(v, rest, Trim(IsQuote, bare), Cleaned(tx, rest));
    }
  }

  lemma AllTrimmedIs(tx: Text, v: string, rest: seq<string>)
    ensures AllTrimmed(tx, [v] + rest) <==> Trimmed(tx.blank, v) && AllTrimmed(tx, rest)
  {
    hide Trimmed;
    var vs := [v] + rest;
    assert vs[0] == v && forall i :: 0 <= i < |rest| ==> rest[i] == vs[i + 1];
  }

  lemma FirstDecides(v: string, rest: seq<string>, w: string, cleaned: seq<string>)
    requires v != "" && |cleaned| <= |rest|
    ensures (if w == "" then [] else [w]) + cleaned == [v] + rest <==> w == v && cleaned == rest
  {
    var left := (if w == "" then [] else [w]) + cleaned;
    if left == [v] + rest {
      assert left[0] == v && left[1..] == rest;
    }
  }

  // ------------------------------------------------------------------------- any file

  lemma AnyFileIsRead(tx: Text, s: Skill)
    requires Sane(tx) && Printable(tx, s)
    ensures Universal(Render(tx, s)) == Render(tx, s.(body := Universal(Trim(tx.blank, s.body))))
    ensures Printable(tx, s.(body := Universal(Trim(tx.blank, s.body))))
  {
    hide Join, Lines, Stated, Sane, Trim, Universal, AllWritable;
    var front := "---\n" + Join("\n", Lines(Stated(tx, s))) + "\n---\n\n";
    FenceIsLater(tx, s);
    WrittenReturnNothing(tx, Stated(tx, s));
    BodyIsRead(tx, front, s.body);
    SameStated(tx, s, Universal(Trim(tx.blank, s.body)));
  }

  lemma WrittenReturnNothing(tx: Text, fs: Fields)
    requires Sane(tx) && AllWritable(tx, fs)
    ensures '\r' !in Join("\n", Lines(fs))
  {
    hide Sane, Writable, Join, Line;
    var lines := Lines(fs);
    forall i | 0 <= i < |lines| ensures '\r' !in lines[i] { WrittenLine(tx, fs[i]); }
    JoinReturnsNothing(lines);
  }

  function OrAny(scope: seq<string>): seq<string> {
    if scope == [] then [ANY_SCOPE] else scope
  }

  lemma PrintedScope(tx: Text, s: Skill, name: string)
    requires Sane(tx) && Printable(tx, s)
    ensures Parse(tx, name, Universal(Render(tx, s))).scope == OrAny(Cleaned(tx, s.scope))
  {
    hide Get, Render, ParseFrontmatter, SplitValues, NormalizeName, Extra, Trim, Sane, Stated, Present, Slots, Tidy, ListText, Cleaned,
         Universal;
    AnyFileIsRead(tx, s);
    var again := s.(body := Universal(Trim(tx.blank, s.body)));
    var n := PrintedIsRead(tx, again);
    ScopeIsStated(tx, again, n);
    TidySays(tx, Stated(tx, again)[..n], "scope");
    ListIsRespelled(tx, s.scope);
  }

  /** Over a skill's file, whatever its text and whoever edited it: a save that states no scope writes the scope
      that was read, and it is read again as it was exactly when none of its values kept blanks inside its
      quotes. Those are trimmed, and a scope of nothing else becomes any. */
  lemma AnyScopeSurvivesIff(tx: Text, text: string, name: string, r: Request)
    requires Sane(tx) && SaneCase(tx) && NoneOf(IsBreak, name) && PlainRequest(tx, r) && r.scope == []
    ensures var scope := Parse(tx, name, Universal(text)).scope;
            var next := Saved(tx, Some(text), name, r);
            var again := Parse(tx, name, Universal(Render(tx, next))).scope;
            && next.scope == scope && again == OrAny(Cleaned(tx, scope))
            && (again == scope <==> AllTrimmed(tx, scope))
  {
    hide Parse, Render, Sane, SaneCase, Cleaned, Universal, PlainRequest, Trim;
    var next := Saved(tx, Some(text), name, r);
    SavedIsPrintable(tx, text, name, r);
    PrintedScope(tx, next, name);
    CleanedIsSameIff(tx, next.scope);
    AnyStays(tx);
  }

  lemma AnyStays(tx: Text)
    requires Sane(tx)
    ensures Cleaned(tx, [ANY_SCOPE]) == [ANY_SCOPE]
  {
    AnyIsGood(tx);
    AnyIsListed();
    CleanedIsSameIff(tx, [ANY_SCOPE]);
  }
}
