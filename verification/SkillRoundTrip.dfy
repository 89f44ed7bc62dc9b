/** What is printed of a well-formed skill is read back as that skill. */
module SkillRoundTrip {
  import opened SkillFile
  import opened Strings
  import opened Wrappers

  // -------------------------------------------------------- what can be written back

  /** Characters and numbers as they are: line breaks are blanks; letters and the punctuation of the format are
      not; a number's text is one bare word that reads back. */
  ghost predicate Sane(tx: Text) {
    && tx.blank(' ') && tx.blank('\t') && (forall c :: IsBreak(c) ==> tx.blank(c))
    && (forall c :: 'a' <= c <= 'z' ==> !tx.blank(c)) && !tx.blank(':') && !tx.blank('[') && !tx.blank(']')
    && (forall k :: k in KNOWN ==> tx.lower(k) == k)
    && (forall n: nat :: tx.toInt(tx.fromInt(n)) == Some(n)) && tx.toInt("1") == Some(1)
    && (forall n: nat :: Plain(tx, tx.fromInt(n)))
  }

  /** One line's worth of text, bare of outer blanks. */
  predicate Plain(tx: Text, v: string) {
    NoneOf(IsBreak, v) && Trimmed(tx.blank, v)
  }

  predicate IsColon(c: char) {
    c == ':'
  }

  predicate GoodKey(tx: Text, k: string) {
    Plain(tx, k) && NoneOf(IsColon, k) && tx.lower(k) == k && !("#" <= k) && !(FENCE <= k)
  }

  predicate GoodField(tx: Text, kv: (string, string)) {
    GoodKey(tx, kv.0) && Plain(tx, kv.1)
  }

  predicate GoodFields(tx: Text, fs: Fields) {
    && (forall i :: 0 <= i < |fs| ==> GoodField(tx, fs[i]))
    && DistinctKeys(fs)
  }

  predicate DistinctKeys(fs: Fields) {
    forall i, j :: 0 <= i < j < |fs| ==> fs[i].0 != fs[j].0
  }

  /** A value of a list: not empty, no comma, no quote at either end. Brackets do no harm. */
  predicate GoodValue(tx: Text, v: string) {
    v != "" && Plain(tx, v) && NoneOf(IsComma, v) && Trimmed(IsQuote, v)
  }

  predicate GoodValues(tx: Text, vs: seq<string>) {
    forall i :: 0 <= i < |vs| ==> GoodValue(tx, vs[i])
  }

  predicate GoodExtra(tx: Text, fs: Fields) {
    GoodFields(tx, fs) && forall i :: 0 <= i < |fs| ==> fs[i].0 !in KNOWN
  }

  predicate GoodSkill(tx: Text, s: Skill) {
    && s.name != "" && Plain(tx, s.name) && NormalizeName(tx, s.name) == s.name
    && Plain(tx, s.description) && Trimmed(IsQuote, s.description)
    && s.scope != [] && GoodValues(tx, s.scope) && GoodValues(tx, s.requires_) && GoodValues(tx, s.tags)
    && s.version >= 1 && Plain(tx, s.created) && Plain(tx, s.updated)
    && GoodExtra(tx, s.extra)
  }

  // ------------------------------------------------------------------ lists read back

  lemma {:induction false} CleanedList(tx: Text, pad: string, vs: seq<string>)
    requires Sane(tx) && vs != [] && GoodValues(tx, vs) && (pad == "" || pad == " ")
    ensures Cleaned(tx, Split(IsComma, pad + Join(", ", vs))) == vs
    decreases |vs|
  {
    hide Split, Join, Cleaned, NoneOf, Trim, Trimmed, Sane;
    var v, part := vs[0], pad + vs[0];
    assert GoodValue(tx, v);
    JoinIs(", ", vs);
    PaddedPart(tx, pad, v);
    if |vs| == 1 {
      SplitNothing(IsComma, part);
      CleanedOne(tx, part, []);
      assert vs == [v] && [part] + [] == [part];
      CleanedNothing(tx);
    } else {
      var rest := " " + Join(", ", vs[1..]);
      assert pad + Join(", ", vs) == part + [','] + rest;
      SplitFirst(IsComma, part, ',', rest);
      CleanedList(tx, " ", vs[1..]);
      CleanedOne(tx, part, Split(IsComma, rest));
    }
  }

  lemma PaddedPart(tx: Text, pad: string, v: string)
    requires Sane(tx) && GoodValue(tx, v) && (pad == "" || pad == " ")
    ensures NoneOf(IsComma, pad + v) && Trim(IsQuote, Trim(tx.blank, pad + v)) == v
  {
    hide Trim;
    PaddingGoes(tx.blank, pad, v, "");
    assert pad + v + "" == pad + v;
    TrimmedStays(IsQuote, v);
  }

  lemma CleanedOne(tx: Text, part: string, rest: seq<string>)
    ensures var v := Trim(IsQuote, Trim(tx.blank, part));
            Cleaned(tx, [part] + rest) == (if v == "" then [] else [v]) + Cleaned(tx, rest)
  {
    assert ([part] + rest)[1..] == rest;
  }

  lemma CleanedNothing(tx: Text)
    ensures Cleaned(tx, []) == []
  {
  }

  /** A list is read back as it was, brackets in its values and all. */
  lemma ListIsReadBack(tx: Text, vs: seq<string>)
    requires Sane(tx) && vs != [] && GoodValues(tx, vs)
    ensures SplitValues(tx, ListText(vs)) == vs
  {
    hide Split, Join, Cleaned;
    var text, inner := ListText(vs), Join(", ", vs);
    TrimmedStays(tx.blank, text);
    assert text[1..|text| - 1] == inner && "" + inner == inner;
    CleanedList(tx, "", vs);
  }

  lemma {:induction false} JoinHasNoBreaks(vs: seq<string>)
    requires forall i :: 0 <= i < |vs| ==> NoneOf(IsBreak, vs[i])
    ensures NoneOf(IsBreak, Join(", ", vs))
  {
    if vs != [] {
      JoinIs(", ", vs);
      JoinHasNoBreaks(vs[1..]);
    }
  }

  lemma ListIsPlain(tx: Text, vs: seq<string>)
    requires Sane(tx) && GoodValues(tx, vs)
    ensures Plain(tx, ListText(vs))
  {
    hide Join;
    forall i | 0 <= i < |vs| ensures NoneOf(IsBreak, vs[i]) { assert GoodValue(tx, vs[i]); }
    JoinHasNoBreaks(vs);
  }

  // ------------------------------------------------------------------ lines read back

  lemma PutsLast(fs: Fields, k: string, v: string)
    requires !HasKey(fs, k)
    ensures Put(fs, k, v) == fs + [(k, v)]
  {
    assert fs != [] ==> fs[|fs| - 1].0 != k;
  }

  lemma KeyIsFound(k: string, v: string)
    requires NoneOf(IsColon, k)
    ensures Before(":", k + ": " + v) == k
  {
    forall i | 0 <= i <= |k| ensures !(":" <= k[i..]) {
      if i < |k| { assert k[i..][0] == k[i]; }
    }
    assert k + ":"[..0] == k;
    BeforeIsWhatStood(":", k, " " + v);
    assert k + ": " + v == k + ":" + (" " + v);
  }

  lemma LineStarts(tx: Text, kv: (string, string))
    requires Sane(tx) && GoodField(tx, kv)
    ensures var line := Line(kv);
            && TrimLeft(tx.blank, line) == line && line != "" && line[0] != '#' && line[0] != ' ' && line[0] != '\t'
            && ':' in line && |kv.0| < |line| && line[|kv.0| + 1..] == " " + kv.1 + ""
  {
    var line := Line(kv);
    assert line[0] == if kv.0 == "" then ':' else kv.0[0];
    assert line[|kv.0|] == ':';
  }

  lemma LineIsRead(tx: Text, fs: Fields, kv: (string, string))
    requires Sane(tx) && GoodField(tx, kv)
    ensures ReadLine(tx, fs, Line(kv)) == Some(Put(fs, kv.0, kv.1))
  {
    hide Before, Put, HasKey, Trim, TrimLeft;
    LineStarts(tx, kv);
    KeyIsFound(kv.0, kv.1);
    TrimmedStays(tx.blank, kv.0);
    PaddingGoes(tx.blank, " ", kv.1, "");
  }

  lemma {:induction false} LinesAreRead(tx: Text, fs: Fields)
    requires Sane(tx) && GoodFields(tx, fs)
    ensures ReadLines(tx, Lines(fs)) == Some(fs)
    decreases |fs|
  {
    hide *;
    if fs == [] {
      NoLinesAreRead(tx);
    } else {
      var before, last := fs[..|fs| - 1], fs[|fs| - 1];
      FieldsBefore(tx, fs);
      LinesAreRead(tx, before);
      NextLineIsRead(tx, before, last);
      assert fs == before + [last];
    }
  }

  lemma NoLinesAreRead(tx: Text)
    ensures ReadLines(tx, Lines([])) == Some([])
  {
    assert Lines([]) == [];
  }

  lemma FieldsBefore(tx: Text, fs: Fields)
    requires GoodFields(tx, fs) && fs != []
    ensures var before, last := fs[..|fs| - 1], fs[|fs| - 1];
            GoodFields(tx, before) && GoodField(tx, last) && !HasKey(before, last.0)
  {
    hide GoodField;
  }

  lemma NextLineIsRead(tx: Text, fs: Fields, last: (string, string))
    requires Sane(tx) && GoodField(tx, last) && !HasKey(fs, last.0) && ReadLines(tx, Lines(fs)) == Some(fs)
    ensures ReadLines(tx, Lines(fs + [last])) == Some(fs + [last])
  {
    hide ReadLine, Line, HasKey, GoodField, Sane, Put;
    LineIsRead(tx, fs, last);
    PutsLast(fs, last.0, last.1);
    assert Lines(fs + [last])[..|fs|] == Lines(fs);
  }

  // ------------------------------------------------------------- the block is closed once

  lemma {:induction false} PlainHidesNothing(p: string, rest: string)
    requires '\n' !in p
    ensures Has(CLOSING, p + rest) ==> Has(CLOSING, rest)
  {
    if Has(CLOSING, p + rest) {
      var i :| 0 <= i <= |p + rest| && CLOSING <= (p + rest)[i..];
      assert (p + rest)[i] == CLOSING[0];
      assert i >= |p|;
      assert (p + rest)[i..] == rest[i - |p|..];
    }
  }

  lemma StartsThen(a: string, b: string)
    requires a != "" && a <= b
    ensures a[1..] <= b[1..]
  {
  }

  lemma BreakHides(rest: string)
    requires !(FENCE <= rest) && !Has(CLOSING, rest)
    ensures !Has(CLOSING, "\n" + rest)
  {
    var s := "\n" + rest;
    forall i | 0 <= i <= |s| ensures !(CLOSING <= s[i..]) {
      if i == 0 {
        assert s[1..] == rest && CLOSING[1..] == FENCE;
        if CLOSING <= s { StartsThen(CLOSING, s); }
      } else {
        assert s[i..] == rest[i - 1..];
      }
    }
  }

  lemma LineIsNoFence(line: string, rest: string)
    requires !(FENCE <= line)
    ensures !(FENCE <= line + ("\n" + rest))
  {
    var s := line + ("\n" + rest);
    if |line| < 3 {
      assert s[|line|] == '\n';
    } else {
      assert s[..3] == line[..3];
    }
  }

  lemma {:induction false} NoFenceInside(lines: seq<string>)
    requires lines != [] && forall i :: 0 <= i < |lines| ==> '\n' !in lines[i] && !(FENCE <= lines[i])
    ensures !Has(CLOSING, Join("\n", lines) + "\n--")
    ensures !(FENCE <= Join("\n", lines) + "\n--")
    decreases |lines|
  {
    hide Has, Join;
    var tail := "\n--";
    JoinIs("\n", lines);
    if |lines| == 1 {
      TooShort();
      PlainHidesNothing(lines[0], tail);
      LineIsNoFence(lines[0], "--");
      assert "\n" + "--" == tail;
    } else {
      var rest := Join("\n", lines[1..]) + tail;
      NoFenceInside(lines[1..]);
      BreakHides(rest);
      PlainHidesNothing(lines[0], "\n" + rest);
      LineIsNoFence(lines[0], rest);
      assert Join("\n", lines) + tail == lines[0] + ("\n" + rest);
    }
  }

  lemma TooShort()
    ensures !Has(CLOSING, "\n--")
  {
  }

  // ------------------------------------------------------------- what the block states

  lemma {:induction false} FieldsJoin(a: Fields, b: Fields)
    ensures forall k :: Get(a + b, k) == if Get(b, k).Some? then Get(b, k) else Get(a, k)
    ensures Extra(a + b) == Extra(a) + Extra(b)
  {
    if b == [] {
      assert a + b == a;
    } else {
      FieldsJoin(a, b[..|b| - 1]);
      assert (a + b)[..|a + b| - 1] == a + b[..|b| - 1];
    }
  }

  lemma {:induction false} GetIffHasKey(fs: Fields, k: string)
    ensures Get(fs, k).Some? <==> HasKey(fs, k)
  {
    if fs != [] {
      var before := fs[..|fs| - 1];
      GetIffHasKey(before, k);
      if HasKey(before, k) {
        var i :| 0 <= i < |before| && before[i].0 == k;
        assert fs[i].0 == k;
      }
    }
  }

  /** More lines with new keys. */
  lemma GoodJoin(tx: Text, a: Fields, b: Fields)
    requires GoodFields(tx, a) && GoodFields(tx, b) && forall i :: 0 <= i < |b| ==> Get(a, b[i].0).None?
    ensures GoodFields(tx, a + b)
  {
    hide GoodField, Get;
    forall i, j | 0 <= i < j < |a + b| ensures (a + b)[i].0 != (a + b)[j].0 {
      if i < |a| <= j {
        GetIffHasKey(a, b[j - |a|].0);
      }
    }
  }

  lemma OneField(tx: Text, k: string, v: string)
    requires GoodKey(tx, k) && Plain(tx, v)
    ensures GoodFields(tx, [(k, v)]) && GoodFields(tx, [])
    ensures forall q :: Get([(k, v)], q) == if q == k then Some(v) else None
    ensures forall q :: Get([], q) == None
    ensures k in KNOWN ==> Extra([(k, v)]) == []
    ensures Extra([]) == []
  {
    var one := [(k, v)];
    assert one[..|one| - 1] == [];
  }

  predicate IsLetters(s: string) {
    s != "" && forall i :: 0 <= i < |s| ==> 'a' <= s[i] <= 'z'
  }

  lemma KnownIsLetters(k: string)
    requires k in KNOWN
    ensures IsLetters(k)
  {
    assert IsLetters("name") && IsLetters("description") && IsLetters("scope") && IsLetters("version");
    assert IsLetters("created") && IsLetters("updated") && IsLetters("requires") && IsLetters("tags");
  }

  lemma KnownIsGood(tx: Text, k: string)
    requires Sane(tx) && k in KNOWN
    ensures GoodKey(tx, k)
  {
    KnownIsLetters(k);
    LettersAreGood(tx, k);
    KnownIsLower(tx, k);
  }

  lemma KnownIsLower(tx: Text, k: string)
    requires Sane(tx) && k in KNOWN
    ensures tx.lower(k) == k
  {
  }

  lemma LettersAreGood(tx: Text, k: string)
    requires Sane(tx) && IsLetters(k)
    ensures Plain(tx, k) && NoneOf(IsColon, k) && !("#" <= k) && !(FENCE <= k)
  {
  }

  predicate GoodSlots(tx: Text, slots: seq<Slot>) {
    && (forall i :: 0 <= i < |slots| ==> slots[i].key in KNOWN && Plain(tx, slots[i].value))
    && (forall i, j :: 0 <= i < j < |slots| ==> slots[i].key != slots[j].key)
  }

  /** What the slots say of a key. */
  function Says(slots: seq<Slot>, k: string): Option<string> {
    if slots == [] then None
    else
      var last := slots[|slots| - 1];
      if last.written && last.key == k then Some(last.value) else Says(slots[..|slots| - 1], k)
  }

  lemma {:induction false} SaysNothing(slots: seq<Slot>, k: string)
    requires forall i :: 0 <= i < |slots| ==> slots[i].key != k
    ensures Says(slots, k) == None
  {
    if slots != [] { SaysNothing(slots[..|slots| - 1], k); }
  }

  lemma {:induction false} SaysAt(slots: seq<Slot>, i: nat)
    requires i < |slots| && forall i, j :: 0 <= i < j < |slots| ==> slots[i].key != slots[j].key
    ensures Says(slots, slots[i].key) == if slots[i].written then Some(slots[i].value) else None
  {
    if i < |slots| - 1 {
      SaysAt(slots[..|slots| - 1], i);
    } else {
      SaysNothing(slots[..|slots| - 1], slots[i].key);
    }
  }

  lemma {:induction false} PresentSays(slots: seq<Slot>, k: string)
    ensures Get(Present(slots), k) == Says(slots, k)
  {
    if slots != [] {
      PresentSays(slots[..|slots| - 1], k);
      var before, last := Present(slots[..|slots| - 1]), slots[|slots| - 1];
      assert (before + [(last.key, last.value)])[..|before|] == before && before + [] == before;
    }
  }

  lemma PutsAField(tx: Text, fs: Fields, k: string, v: string)
    requires Sane(tx) && GoodFields(tx, fs) && Get(fs, k) == None && k in KNOWN && Plain(tx, v)
    ensures GoodFields(tx, fs + [(k, v)]) && Extra(fs + [(k, v)]) == Extra(fs)
  {
    hide *;
    KnownIsGood(tx, k);
    OneField(tx, k, v);
    FieldsJoin(fs, [(k, v)]);
    GoodJoin(tx, fs, [(k, v)]);
    assert Extra(fs) + [] == Extra(fs);
  }

  lemma {:induction false} PresentIsGood(tx: Text, slots: seq<Slot>)
    requires Sane(tx) && GoodSlots(tx, slots)
    ensures GoodFields(tx, Present(slots)) && Extra(Present(slots)) == []
  {
    if slots != [] {
      hide Get, Extra, GoodFields, Sane, Plain, GoodKey, Says;
      var before, last := slots[..|slots| - 1], slots[|slots| - 1];
      PresentIsGood(tx, before);
      if last.written {
        PresentSays(before, last.key);
        SaysNothing(before, last.key);
        PutsAField(tx, Present(before), last.key, last.value);
      } else {
        assert Present(before) + [] == Present(before);
      }
    }
  }

  lemma SlotsAreGood(tx: Text, s: Skill)
    requires Sane(tx) && GoodSkill(tx, s)
    ensures GoodSlots(tx, Slots(tx, s))
  {
    hide ListText, GoodValues, GoodExtra;
    ListIsPlain(tx, s.scope);
    ListIsPlain(tx, s.requires_);
    ListIsPlain(tx, s.tags);
  }

  /** What is stated is readable line by line, and what is not the format's own is the skill's extra. */
  lemma StatedIsGood(tx: Text, s: Skill)
    requires Sane(tx) && GoodSkill(tx, s)
    ensures GoodFields(tx, Stated(tx, s)) && Extra(Stated(tx, s)) == s.extra
  {
    hide Get, Extra, GoodFields, Plain, GoodKey, ListText, GoodValues, Sane, Slots, Present, GoodSlots;
    var slots := Slots(tx, s);
    SlotsAreGood(tx, s);
    PresentIsGood(tx, slots);
    ExtraIsGood(tx, s);
    ExtraIsAll(s.extra);
    FieldsJoin(Present(slots), s.extra);
    forall i | 0 <= i < |s.extra| ensures Get(Present(slots), s.extra[i].0) == None {
      ExtraIsNoSlot(tx, s, i);
    }
    GoodJoin(tx, Present(slots), s.extra);
    assert [] + s.extra == s.extra;
  }

  lemma ExtraIsNoSlot(tx: Text, s: Skill, i: nat)
    requires Sane(tx) && GoodSkill(tx, s) && i < |s.extra|
    ensures Get(Present(Slots(tx, s)), s.extra[i].0) == None
  {
    SlotsAreGood(tx, s);
    ExtraIsGood(tx, s);
    hide Slots, Present, Get, Says, Sane, GoodSkill, Plain, ListText;
    PresentSays(Slots(tx, s), s.extra[i].0);
    SaysNothing(Slots(tx, s), s.extra[i].0);
  }

  /** What is stated says of each key what its slot says. */
  lemma StatedSays(tx: Text, s: Skill, i: nat)
    requires Sane(tx) && GoodSkill(tx, s) && i < |Slots(tx, s)|
    ensures var slot := Slots(tx, s)[i];
            Get(Stated(tx, s), slot.key) == if slot.written then Some(slot.value) else None
  {
    hide Present, Get, Says, Sane, Plain, ListText, GoodValues, Slots, Extra;
    var slots := Slots(tx, s);
    SlotsAreGood(tx, s);
    ExtraIsGood(tx, s);
    NoneOfKnown(s.extra);
    FieldsJoin(Present(slots), s.extra);
    PresentSays(slots, slots[i].key);
    SaysAt(slots, i);
  }

  lemma ExtraIsGood(tx: Text, s: Skill)
    requires GoodSkill(tx, s)
    ensures GoodFields(tx, s.extra) && forall i :: 0 <= i < |s.extra| ==> s.extra[i].0 !in KNOWN
  {
  }

  lemma {:induction false} ExtraIsAll(fs: Fields)
    requires forall i :: 0 <= i < |fs| ==> fs[i].0 !in KNOWN
    ensures Extra(fs) == fs
  {
    if fs != [] { ExtraIsAll(fs[..|fs| - 1]); }
  }

  lemma NoneOfKnown(fs: Fields)
    requires forall i :: 0 <= i < |fs| ==> fs[i].0 !in KNOWN
    ensures forall k :: k in KNOWN ==> Get(fs, k) == None
  {
    forall k | k in KNOWN ensures Get(fs, k) == None { GetIffHasKey(fs, k); }
  }

  // ------------------------------------------------------------------ the round trip

  lemma GoodLine(tx: Text, kv: (string, string))
    requires Sane(tx) && GoodField(tx, kv)
    ensures NoneOf(IsBreak, Line(kv)) && '\n' !in Line(kv) && !(FENCE <= Line(kv))
  {
    var line := Line(kv);
    assert forall c :: c in line ==> !IsBreak(c) by {
      forall c | c in line ensures !IsBreak(c) {
        var i :| 0 <= i < |line| && line[i] == c;
        LineChar(kv, i);
      }
    }
    if |kv.0| < 3 {
      assert line[|kv.0|] == ':';
    } else {
      assert line[..3] == kv.0[..3];
    }
  }

  lemma LineChar(kv: (string, string), i: nat)
    requires i < |Line(kv)| && NoneOf(IsBreak, kv.0) && NoneOf(IsBreak, kv.1)
    ensures !IsBreak(Line(kv)[i])
  {
  }

  lemma BlockIsRead(tx: Text, fs: Fields, more: string)
    requires Sane(tx) && GoodFields(tx, fs) && fs != []
    ensures var block := Join("\n", Lines(fs));
            && Before(CLOSING, block + CLOSING + more) == block
            && ReadLines(tx, Split(IsBreak, block)) == Some(fs)
  {
    hide Join, Split, Before, Has, ReadLines, Sane, Line;
    var lines := Lines(fs);
    forall i | 0 <= i < |lines| ensures NoneOf(IsBreak, lines[i]) && '\n' !in lines[i] && !(FENCE <= lines[i]) {
      assert GoodField(tx, fs[i]);
      GoodLine(tx, fs[i]);
    }
    NoFenceInside(lines);
    assert CLOSING[..|CLOSING| - 1] == "\n--";
    BeforeIsWhatStood(CLOSING, Join("\n", lines), more);
    assert ['\n'] == "\n";
    SplitUndoesJoin(IsBreak, '\n', lines);
    LinesAreRead(tx, fs);
  }

  lemma OpenedIs(rest: string)
    ensures Opened("---\n" + rest) == Some(rest)
  {
    var text := "---\n" + rest;
    assert text == FENCE + ("\n" + rest) && text[|FENCE|..] == "\n" + rest && ("\n" + rest)[1..] == rest;
  }

  /** What a body is once the fence's own line is done with. */
  function AfterFence(more: string): string {
    var rest := TrimLeft(IsTabOrSpace, more);
    if rest != "" && rest[0] == '\n' then rest[1..] else rest
  }

  lemma ClosedIs(block: string, more: string)
    requires Before(CLOSING, block + CLOSING + more) == block
    ensures Closed(block + CLOSING + more) == Some((block, AfterFence(more)))
  {
    hide Before, TrimLeft;
    var text := block + CLOSING + more;
    assert text[|block| + |CLOSING|..] == more;
  }

  lemma FencesAreFound(block: string, body: string)
    requires Before(CLOSING, block + CLOSING + ("\n\n" + body + "\n")) == block
    ensures var text := "---\n" + block + "\n---\n\n" + body + "\n";
            Opened(text).Some? && Closed(Opened(text).value) == Some((block, "\n" + body + "\n"))
  {
    hide Before, Opened, Closed;
    var more := "\n\n" + body + "\n";
    assert "---\n" + block + "\n---\n\n" + body + "\n" == "---\n" + (block + CLOSING + more);
    OpenedIs(block + CLOSING + more);
    ClosedIs(block, more);
    assert more[1..] == "\n" + body + "\n";
  }

  lemma RenderedIsParsed(tx: Text, s: Skill)
    requires Sane(tx) && GoodSkill(tx, s)
    ensures ParseFrontmatter(tx, Render(tx, s)) == (Stated(tx, s), "\n" + Trim(tx.blank, s.body) + "\n")
    ensures Stated(tx, s) != []
  {
    hide Before, Join, Split, ReadLines, Sane, GoodFields, Trim, Opened, Closed, Lines;
    var fs, body := Stated(tx, s), Trim(tx.blank, s.body);
    NameIsStated(tx, s);
    StatedIsGood(tx, s);
    BlockIsRead(tx, fs, "\n\n" + body + "\n");
    FencesAreFound(Join("\n", Lines(fs)), body);
  }

  /** Read from its file, what is printed differs at the ends of the body's lines alone. */
  lemma FileIsRead(tx: Text, s: Skill)
    requires Sane(tx) && GoodSkill(tx, s)
    ensures Universal(Render(tx, s)) == Render(tx, s.(body := Universal(Trim(tx.blank, s.body))))
  {
    hide Join, Lines, Stated, Sane, Trim, Universal;
    var front := "---\n" + Join("\n", Lines(Stated(tx, s))) + "\n---\n\n";
    StatedIsGood(tx, s);
    LinesReturnNothing(tx, Stated(tx, s));
    BodyIsRead(tx, front, s.body);
    SameStated(tx, s, Universal(Trim(tx.blank, s.body)));
  }

  lemma SameStated(tx: Text, s: Skill, body: string)
    ensures Stated(tx, s.(body := body)) == Stated(tx, s)
  {
    hide Present, ListText;
  }

  lemma BodyIsRead(tx: Text, front: string, body: string)
    requires Sane(tx) && (front == "" || front[|front| - 1] != '\r')
    ensures var b := Trim(tx.blank, body);
            && Universal(front + b + "\n") == Universal(front) + Universal(b) + "\n"
            && Trim(tx.blank, Universal(b)) == Universal(b)
            && ('\r' !in front ==> Universal(front) == front)
  {
    hide Trim, TrimLeft, TrimRight, Universal, Sane;
    var b := Trim(tx.blank, body);
    TrimIsTrimmed(tx.blank, body);
    BreaksAreBlank(tx);
    UniversalTrimmed(tx.blank, b);
    TrimmedStays(tx.blank, Universal(b));
    LinesOver(front, b);
    if '\r' !in front { UniversalKeeps(front); }
  }

  lemma BreaksAreBlank(tx: Text)
    requires Sane(tx)
    ensures tx.blank('\n') && tx.blank('\r')
  {
    assert IsBreak('\n') && IsBreak('\r');
  }

  lemma LinesOver(front: string, b: string)
    requires front == "" || front[|front| - 1] != '\r'
    requires b == "" || b[|b| - 1] != '\r'
    ensures Universal(front + b + "\n") == Universal(front) + Universal(b) + "\n"
  {
    hide Universal;
    UniversalKeeps("\n");
    UniversalJoins(b, "\n");
    UniversalJoins(front, b + "\n");
    Associates(front, b, "\n");
    Associates(Universal(front), Universal(b), "\n");
  }

  lemma {:induction false} JoinReturnsNothing(lines: seq<string>)
    requires forall i :: 0 <= i < |lines| ==> '\r' !in lines[i]
    ensures '\r' !in Join("\n", lines)
  {
    if lines != [] {
      JoinIs("\n", lines);
      JoinReturnsNothing(lines[1..]);
    }
  }

  lemma LinesReturnNothing(tx: Text, fs: Fields)
    requires Sane(tx) && GoodFields(tx, fs)
    ensures '\r' !in Join("\n", Lines(fs))
  {
    hide Sane, GoodField, Join, Line;
    var lines := Lines(fs);
    forall i | 0 <= i < |lines| ensures '\r' !in lines[i] {
      assert GoodField(tx, fs[i]);
      GoodLine(tx, fs[i]);
      NoReturn(lines[i]);
    }
    JoinReturnsNothing(lines);
  }

  lemma NoReturn(p: string)
    requires NoneOf(IsBreak, p)
    ensures '\r' !in p && '\n' !in p
  {
    assert IsBreak('\r') && IsBreak('\n');
  }

  lemma NameIsStated(tx: Text, s: Skill)
    requires Sane(tx) && GoodSkill(tx, s)
    ensures Stated(tx, s) != []
  {
    StatedSays(tx, s, 0);
  }

  /** What a file printed from a well-formed skill reads back as: that skill, whatever the file is called. */
  lemma RoundTrip(tx: Text, s: Skill, name: string)
    requires Sane(tx) && GoodSkill(tx, s)
    ensures Parse(tx, name, Render(tx, s)) == s.(body := Trim(tx.blank, s.body), declared := true, scopeDeclared := true)
  {
    var fs, body := Stated(tx, s), "\n" + Trim(tx.blank, s.body) + "\n";
    RenderedIsParsed(tx, s);
    StatedIsGood(tx, s);
    SlotsAre(tx, s);
    BodyIsReadBack(tx, s.body);
    ScopesAreReadBack(tx, s);
    hide Get, Extra, Stated, Render, ParseFrontmatter, SplitValues, Trim, Sane, ListText, GoodValues, GoodExtra;
    assert tx.toInt(tx.fromInt(s.version)) == Some(s.version) by { NumberIsReadBack(tx, s.version); }
    TrimmedStays(tx.blank, s.description);
    TrimmedStays(IsQuote, s.description);
  }

  lemma NumberIsReadBack(tx: Text, n: nat)
    requires Sane(tx)
    ensures tx.toInt(tx.fromInt(n)) == Some(n)
  {
  }

  lemma BodyIsReadBack(tx: Text, body: string)
    requires Sane(tx)
    ensures Trim(tx.blank, "\n" + Trim(tx.blank, body) + "\n") == Trim(tx.blank, body)
  {
    hide Trim;
    assert IsBreak('\n');
    TrimIsTrimmed(tx.blank, body);
    PaddingGoes(tx.blank, "\n", Trim(tx.blank, body), "\n");
  }

  lemma ScopesAreReadBack(tx: Text, s: Skill)
    requires Sane(tx) && GoodSkill(tx, s)
    ensures SplitValues(tx, ListText(s.scope)) == s.scope
    ensures SplitValues(tx, if s.requires_ == [] then "" else ListText(s.requires_)) == s.requires_
    ensures SplitValues(tx, if s.tags == [] then "" else ListText(s.tags)) == s.tags
  {
    ListIsReadBack(tx, s.scope);
    if s.requires_ != [] { ListIsReadBack(tx, s.requires_); }
    if s.tags != [] { ListIsReadBack(tx, s.tags); }
    NothingSplits(tx);
  }

  lemma NothingSplits(tx: Text)
    ensures SplitValues(tx, "") == []
  {
    SplitNothing(IsComma, "");
    CleanedNothing(tx);
    assert [""] == [""] + [];
    CleanedOne(tx, "", []);
  }

  lemma SlotsAre(tx: Text, s: Skill)
    requires Sane(tx) && GoodSkill(tx, s)
    ensures var fs := Stated(tx, s);
            && GetOr(fs, "name", "") == s.name && GetOr(fs, "description", "") == s.description
            && GetOr(fs, "scope", "") == ListText(s.scope)
            && GetOr(fs, "requires", "") == (if s.requires_ == [] then "" else ListText(s.requires_))
            && GetOr(fs, "tags", "") == (if s.tags == [] then "" else ListText(s.tags))
            && GetOr(fs, "version", "1") == tx.fromInt(s.version)
            && GetOr(fs, "created", "") == s.created && GetOr(fs, "updated", "") == s.updated
  {
    hide Get, Stated, ListText, Sane, GoodSkill;
    StatedSays(tx, s, 0);
    StatedSays(tx, s, 1);
    StatedSays(tx, s, 2);
    StatedSays(tx, s, 3);
    StatedSays(tx, s, 4);
    StatedSays(tx, s, 5);
    StatedSays(tx, s, 6);
    StatedSays(tx, s, 7);
  }
}
