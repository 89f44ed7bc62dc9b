/**
  A skill's file: a block of `key: value` lines between two fences, then the
  procedure. The file printed from a skill, and the skill read from a file.
 */
module SkillFile {
  import opened Wrappers
  import opened Strings

  /** What the string library knows of characters and numbers. */
  datatype Text = Text(
    blank: char -> bool,
    lower: string -> string,
    toInt: string -> Option<int>,
    fromInt: nat -> string)

  const BREAKS: set<char> := {'\n', '\r', '\U{0B}', '\U{0C}', '\U{1C}', '\U{1D}', '\U{1E}', '\U{85}', '\U{2028}', '\U{2029}'}

  predicate IsBreak(c: char) {
    c in BREAKS
  }

  predicate IsQuote(c: char) {
    c == '\'' || c == '"'
  }

  predicate IsComma(c: char) {
    c == ','
  }

  const ANY_SCOPE := "any"
  const FENCE := "---"
  const CLOSING := "\n---"
  const KNOWN: set<string> := {"name", "description", "scope", "version", "created", "updated", "requires", "tags"}

  type Fields = seq<(string, string)>

  datatype Skill = Skill(name: string, body: string, description: string, scope: seq<string>, requires_: seq<string>,
                         tags: seq<string>, version: nat, created: string, updated: string, extra: Fields, declared: bool,
                         scopeDeclared: bool)

  // ---------------------------------------------------------------------- names

  predicate IsNameChar(c: char) {
    'a' <= c <= 'z' || '0' <= c <= '9' || c == '-'
  }

  predicate IsNoNameChar(c: char) {
    !IsNameChar(c)
  }

  predicate IsDash(c: char) {
    c == '-'
  }

  /** Each run of other characters becomes one dash. */
  function Squeeze(s: string): string
    decreases |s|
  {
    if s == "" then ""
    else if IsNameChar(s[0]) then [s[0]] + Squeeze(s[1..])
    else
      TrimLeftShortens(IsNoNameChar, s);
      "-" + Squeeze(TrimLeft(IsNoNameChar, s))
  }

  const NAME_LENGTH := 60

  function NormalizeName(tx: Text, name: string): string {
    var bare := Trim(IsDash, Squeeze(tx.lower(name)));
    if |bare| > NAME_LENGTH then bare[..NAME_LENGTH] else bare
  }

  lemma {:induction false} TrimLeftShortens(f: char -> bool, s: string)
    ensures |TrimLeft(f, s)| <= |s| && (s != "" && f(s[0]) ==> |TrimLeft(f, s)| < |s|)
  {
    if s != "" && f(s[0]) { TrimLeftShortens(f, s[1..]); }
  }

  lemma {:induction false} SqueezedIsName(s: string)
    ensures AllOf(IsNameChar, Squeeze(s))
    decreases |s|
  {
    if s != "" {
      if IsNameChar(s[0]) {
        SqueezedIsName(s[1..]);
      } else {
        TrimLeftShortens(IsNoNameChar, s);
        SqueezedIsName(TrimLeft(IsNoNameChar, s));
      }
    }
  }

  lemma {:induction false} NameIsSqueezed(s: string)
    requires AllOf(IsNameChar, s)
    ensures Squeeze(s) == s
  {
    if s != "" {
      NameIsSqueezed(s[1..]);
      assert [s[0]] + s[1..] == s;
    }
  }

  lemma {:induction false} TrimKeeps(p: char -> bool, f: char -> bool, s: string)
    requires AllOf(p, s)
    ensures AllOf(p, TrimLeft(f, s)) && AllOf(p, TrimRight(f, s))
    decreases |s|
  {
    if s != "" {
      TrimKeeps(p, f, s[1..]);
      TrimKeeps(p, f, s[..|s| - 1]);
    }
  }

  lemma {:induction false} TrimRightIsAllIff(f: char -> bool, s: string)
    ensures |TrimRight(f, s)| <= |s| && (TrimRight(f, s) == s <==> s == "" || !f(s[|s| - 1]))
  {
    if s != "" { TrimRightIsAllIff(f, s[..|s| - 1]); }
  }

  /** A name normalised stays as it is exactly when it was not cut right after a dash. */
  lemma NormalizedAgainIff(tx: Text, name: string)
    requires forall s :: AllOf(IsNameChar, s) ==> tx.lower(s) == s
    ensures var n := NormalizeName(tx, name); NormalizeName(tx, n) == n <==> n == "" || n[|n| - 1] != '-'
  {
    hide Squeeze, TrimLeft, TrimRight;
    var squeezed := Squeeze(tx.lower(name));
    var n := NormalizeName(tx, name);
    SqueezedIsName(tx.lower(name));
    TrimKeeps(IsNameChar, IsDash, squeezed);
    TrimKeeps(IsNameChar, IsDash, TrimLeft(IsDash, squeezed));
    TrimIsTrimmed(IsDash, squeezed);
    NameIsSqueezed(n);
    NoLeftTrim(IsDash, n);
    TrimRightIsAllIff(IsDash, n);
  }

  /** A name that is one already stays as it is. */
  lemma GoodNameStays(tx: Text, name: string)
    requires AllOf(IsNameChar, name) && Trimmed(IsDash, name) && |name| <= 60 && tx.lower(name) == name
    ensures NormalizeName(tx, name) == name
  {
    NameIsSqueezed(name);
    TrimmedStays(IsDash, name);
  }

  predicate IsAlnum(c: char) {
    'a' <= c <= 'z' || '0' <= c <= '9'
  }

  /** The letters and digits of a text, in order. */
  function Letters(s: string): string {
    if s == "" then "" else (if IsAlnum(s[0]) then [s[0]] else "") + Letters(s[1..])
  }

  lemma {:induction false} LettersJoin(a: string, b: string)
    ensures Letters(a + b) == Letters(a) + Letters(b)
  {
    if a == "" {
      assert a + b == b;
    } else {
      assert (a + b)[1..] == a[1..] + b;
      LettersJoin(a[1..], b);
    }
  }

  lemma {:induction false} TrimLeftLetters(f: char -> bool, s: string)
    requires forall c :: f(c) ==> !IsAlnum(c)
    ensures Letters(TrimLeft(f, s)) == Letters(s)
  {
    if s != "" && f(s[0]) {
      TrimLeftLetters(f, s[1..]);
      hide IsAlnum;
      assert !IsAlnum(s[0]);
    }
  }

  lemma {:induction false} TrimRightLetters(f: char -> bool, s: string)
    requires forall c :: f(c) ==> !IsAlnum(c)
    ensures Letters(TrimRight(f, s)) == Letters(s)
  {
    if s != "" && f(s[|s| - 1]) {
      TrimRightLetters(f, s[..|s| - 1]);
      assert s == s[..|s| - 1] + [s[|s| - 1]];
      LettersJoin(s[..|s| - 1], [s[|s| - 1]]);
      hide IsAlnum;
      NoLetter(s[|s| - 1]);
    }
  }

  lemma NoLetter(c: char)
    requires !IsAlnum(c)
    ensures Letters([c]) == ""
  {
    assert [c][1..] == "";
  }

  lemma {:induction false} SqueezeLetters(s: string)
    ensures Letters(Squeeze(s)) == Letters(s)
    decreases |s|
  {
    if s != "" {
      if IsNameChar(s[0]) {
        SqueezeLetters(s[1..]);
        assert ([s[0]] + Squeeze(s[1..]))[1..] == Squeeze(s[1..]);
      } else {
        TrimLeftShortens(IsNoNameChar, s);
        SqueezeLetters(TrimLeft(IsNoNameChar, s));
        TrimLeftLetters(IsNoNameChar, s);
        assert ("-" + Squeeze(TrimLeft(IsNoNameChar, s)))[1..] == Squeeze(TrimLeft(IsNoNameChar, s));
      }
    }
  }

  /** A name normalised holds letters, digits and dashes alone, starts with no dash and has at most sixty characters;
      its letters and digits are those of the name in lower case, in order, the first of them where it was cut. */
  lemma NormalizedIs(tx: Text, name: string)
    ensures var n := NormalizeName(tx, name);
            && AllOf(IsNameChar, n) && |n| <= 60 && (n != "" ==> n[0] != '-')
            && Letters(n) <= Letters(tx.lower(name)) && (|n| < 60 ==> Letters(n) == Letters(tx.lower(name)))
  {
    hide Squeeze, TrimLeft, TrimRight, Letters;
    var lowered := tx.lower(name);
    var squeezed := Squeeze(lowered);
    var bare := Trim(IsDash, squeezed);
    SqueezedIsName(lowered);
    TrimKeeps(IsNameChar, IsDash, squeezed);
    TrimKeeps(IsNameChar, IsDash, TrimLeft(IsDash, squeezed));
    TrimIsTrimmed(IsDash, squeezed);
    SqueezeLetters(lowered);
    TrimLeftLetters(IsDash, squeezed);
    TrimRightLetters(IsDash, TrimLeft(IsDash, squeezed));
    if |bare| > NAME_LENGTH {
      LettersJoin(bare[..NAME_LENGTH], bare[NAME_LENGTH..]);
      assert bare == bare[..NAME_LENGTH] + bare[NAME_LENGTH..];
    }
  }

  lemma NoLeftTrim(f: char -> bool, s: string)
    requires s == "" || !f(s[0])
    ensures TrimLeft(f, s) == s
  {
  }

  // -------------------------------------------------------------------- reading

  /** A dictionary in the order its keys came. */
  function Put(fs: Fields, k: string, v: string): Fields {
    if fs == [] then [(k, v)]
    else if fs[|fs| - 1].0 == k then fs[..|fs| - 1] + [(k, v)]
    else if HasKey(fs, k) then Put(fs[..|fs| - 1], k, v) + [fs[|fs| - 1]]
    else fs + [(k, v)]
  }

  predicate HasKey(fs: Fields, k: string) {
    exists i :: 0 <= i < |fs| && fs[i].0 == k
  }

  function Get(fs: Fields, k: string): Option<string> {
    if fs == [] then None else if fs[|fs| - 1].0 == k then Some(fs[|fs| - 1].1) else Get(fs[..|fs| - 1], k)
  }

  function GetOr(fs: Fields, k: string, default: string): string {
    match Get(fs, k)
    case Some(v) => v
    case None => default
  }

  /** One line of the block: blank lines and comments say nothing; a line that is indented or has no colon is
      more than this reader understands. */
  function ReadLine(tx: Text, fs: Fields, line: string): Option<Fields> {
    var bare := TrimLeft(tx.blank, line);
    if bare == "" || bare[0] == '#' then Some(fs)
    else if line[0] == ' ' || line[0] == '\t' || ':' !in line then None
    else
      var key := Before(":", line);
      Some(Put(fs, tx.lower(Trim(tx.blank, key)), Trim(tx.blank, line[if |key| < |line| then |key| + 1 else |line|..])))
  }

  function ReadLines(tx: Text, lines: seq<string>): Option<Fields> {
    if lines == [] then Some([])
    else
      match ReadLines(tx, lines[..|lines| - 1])
      case None => None
      case Some(fs) => ReadLine(tx, fs, lines[|lines| - 1])
  }

  predicate IsTabOrSpace(c: char) {
    c == ' ' || c == '\t'
  }

  /** What follows the opening fence and its line's end. */
  function Opened(text: string): Option<string> {
    if !(FENCE <= text) then None
    else
      var rest := TrimLeft(IsTabOrSpace, text[|FENCE|..]);
      if rest != "" && rest[0] == '\n' then Some(rest[1..]) else None
  }

  /** The block up to the first closing fence, and what follows that fence's line. */
  function Closed(text: string): Option<(string, string)> {
    var block := Before(CLOSING, text);
    if |text| - |block| < |CLOSING| then None
    else
      var rest := TrimLeft(IsTabOrSpace, text[|block| + |CLOSING|..]);
      Some((block, if rest != "" && rest[0] == '\n' then rest[1..] else rest))
  }

  function ParseFrontmatter(tx: Text, text: string): (Fields, string) {
    match Opened(text)
    case None => ([], text)
    case Some(rest) =>
      match Closed(rest)
      case None => ([], text)
      case Some((block, body)) =>
        match ReadLines(tx, Split(IsBreak, block))
        case None => ([], text)
        case Some(fs) => (fs, body)
  }

  function Cleaned(tx: Text, parts: seq<string>): seq<string> {
    if parts == [] then []
    else
      var part := Trim(IsQuote, Trim(tx.blank, parts[0]));
      (if part == "" then [] else [part]) + Cleaned(tx, parts[1..])
  }

  /** A scalar, or a list in or out of brackets. */
  function SplitValues(tx: Text, raw: string): seq<string> {
    var inner := Trim(tx.blank, raw);
    var bare := if |inner| >= 2 && inner[0] == '[' && inner[|inner| - 1] == ']' then inner[1..|inner| - 1] else inner;
    Cleaned(tx, Split(IsComma, bare))
  }

  function Extra(fs: Fields): Fields {
    if fs == [] then []
    else Extra(fs[..|fs| - 1]) + if fs[|fs| - 1].0 in KNOWN then [] else [fs[|fs| - 1]]
  }

  function ReadVersion(tx: Text, fs: Fields): nat {
    match tx.toInt(GetOr(fs, "version", "1"))
    case Some(n) => if n > 1 then n else 1
    case None => 1
  }

  function SkillOf(tx: Text, name: string, fs: Fields, body: string): Skill {
    var scope := SplitValues(tx, GetOr(fs, "scope", ""));
    var named := GetOr(fs, "name", "");
    Skill(NormalizeName(tx, if named != "" then named else name), Trim(tx.blank, body),
          Trim(IsQuote, Trim(tx.blank, GetOr(fs, "description", ""))),
          if scope == [] then [ANY_SCOPE] else scope,
          SplitValues(tx, GetOr(fs, "requires", "")), SplitValues(tx, GetOr(fs, "tags", "")),
          ReadVersion(tx, fs), GetOr(fs, "created", ""), GetOr(fs, "updated", ""), Extra(fs), fs != [], scope != [])
  }

  function Parse(tx: Text, name: string, text: string): Skill {
    var (fs, body) := ParseFrontmatter(tx, text);
    SkillOf(tx, name, fs, body)
  }

  // ------------------------------------------------------------------- printing

  function ListText(values: seq<string>): string {
    "[" + Join(", ", values) + "]"
  }

  /** A line the frontmatter may have. */
  datatype Slot = Slot(key: string, value: string, written: bool)

  /** What the frontmatter states, in the order it is written. */
  function Slots(tx: Text, s: Skill): (slots: seq<Slot>)
    ensures |slots| == 8
  {
    [Slot("name", s.name, true),
     Slot("description", s.description, s.description != ""),
     Slot("scope", ListText(s.scope), true),
     Slot("requires", ListText(s.requires_), s.requires_ != []),
     Slot("tags", ListText(s.tags), s.tags != []),
     Slot("version", tx.fromInt(s.version), true),
     Slot("created", s.created, s.created != ""),
     Slot("updated", s.updated, s.updated != "")]
  }

  function Present(slots: seq<Slot>): Fields {
    if slots == [] then []
    else
      var last := slots[|slots| - 1];
      Present(slots[..|slots| - 1]) + if last.written then [(last.key, last.value)] else []
  }

  function Stated(tx: Text, s: Skill): Fields {
    Present(Slots(tx, s)) + s.extra
  }

  function Line(kv: (string, string)): string {
    kv.0 + ": " + kv.1
  }

  function Lines(fs: Fields): seq<string> {
    seq(|fs|, i requires 0 <= i < |fs| => Line(fs[i]))
  }

  function Render(tx: Text, s: Skill): string {
    "---\n" + Join("\n", Lines(Stated(tx, s))) + "\n---\n\n" + Trim(tx.blank, s.body) + "\n"
  }

  // ------------------------------------------------------------------ the file's text

  function Tail(fs: Fields): string {
    if fs == [] then "" else Tail(fs[..|fs| - 1]) + "\n" + Line(fs[|fs| - 1])
  }

  lemma TailOneMore(fs: Fields, kv: (string, string))
    ensures Tail(fs + [kv]) == Tail(fs) + "\n" + Line(kv)
  {
    assert (fs + [kv])[..|fs|] == fs;
  }

  lemma {:induction false} TailJoins(a: Fields, b: Fields)
    ensures Tail(a + b) == Tail(a) + Tail(b)
  {
    hide Line;
    if b == [] {
      assert a + b == a;
    } else {
      var c, kv := b[..|b| - 1], b[|b| - 1];
      TailJoins(a, c);
      TailOneMore(a + c, kv);
      assert a + b == a + c + [kv];
      Associates(Tail(a), Tail(c), "\n");
      Associates(Tail(a), Tail(c) + "\n", Line(kv));
    }
  }

  lemma {:induction false} JoinIsTail(fs: Fields)
    requires fs != []
    ensures "\n" + Join("\n", Lines(fs)) == Tail(fs)
  {
    hide Line, Join, Tail;
    var first, rest := fs[0], fs[1..];
    JoinIs("\n", Lines(fs));
    assert fs == [first] + rest && [] + [first] == [first];
    TailJoins([first], rest);
    TailOneMore([], first);
    EmptyTail();
    if rest == [] {
      assert Lines(fs) == [Line(first)];
    } else {
      assert Lines(fs)[0] == Line(first) && Lines(fs)[1..] == Lines(rest);
      JoinIsTail(rest);
      Associates("\n", Line(first), "\n" + Join("\n", Lines(rest)));
      Associates(Line(first), "\n", Join("\n", Lines(rest)));
      assert "" + "\n" == "\n";
    }
  }

  lemma EmptyTail()
    ensures Tail([]) == ""
  {
  }

  function LineOf(slot: Slot): string {
    if slot.written then "\n" + slot.key + ": " + slot.value else ""
  }

  lemma TailOfSlot(slots: seq<Slot>, slot: Slot)
    ensures Tail(Present(slots + [slot])) == Tail(Present(slots)) + LineOf(slot)
  {
    assert (slots + [slot])[..|slots|] == slots;
    var kv := (slot.key, slot.value);
    if slot.written {
      TailOneMore(Present(slots), kv);
      assert "\n" + slot.key + ": " + slot.value == "\n" + Line(kv);
    } else {
      assert Present(slots) + [] == Present(slots);
    }
  }

  lemma TailOfEight(a: Slot, b: Slot, c: Slot, d: Slot, e: Slot, f: Slot, g: Slot, h: Slot)
    ensures Tail(Present([a, b, c, d, e, f, g, h]))
            == LineOf(a) + LineOf(b) + LineOf(c) + LineOf(d) + LineOf(e) + LineOf(f) + LineOf(g) + LineOf(h)
  {
    EmptyTail();
    NothingIsPresent();
    hide Present, Tail, LineOf;
    TailOfSlot([], a);
    TailOfSlot([a], b);
    TailOfSlot([a, b], c);
    TailOfSlot([a, b, c], d);
    TailOfSlot([a, b, c, d], e);
    TailOfSlot([a, b, c, d, e], f);
    TailOfSlot([a, b, c, d, e, f], g);
    TailOfSlot([a, b, c, d, e, f, g], h);
    assert [] + [a] == [a] && "" + LineOf(a) == LineOf(a);
    assert [a] + [b] == [a, b] && [a, b] + [c] == [a, b, c] && [a, b, c] + [d] == [a, b, c, d];
    assert [a, b, c, d] + [e] == [a, b, c, d, e] && [a, b, c, d, e] + [f] == [a, b, c, d, e, f];
    assert [a, b, c, d, e, f] + [g] == [a, b, c, d, e, f, g] && [a, b, c, d, e, f, g] + [h] == [a, b, c, d, e, f, g, h];
  }

  lemma NothingIsPresent()
    ensures Present([]) == []
  {
  }

  function Listed(key: string, values: seq<string>): string {
    "\n" + key + ": [" + Join(", ", values) + "]"
  }

  function Stamped(key: string, value: string): string {
    if value == "" then "" else "\n" + key + ": " + value
  }

  lemma SlotLines(tx: Text, s: Skill)
    ensures var slots := Slots(tx, s);
            && "---" + LineOf(slots[0]) == "---\nname: " + s.name
            && LineOf(slots[1]) == Stamped("description", s.description)
            && LineOf(slots[2]) == Listed("scope", s.scope)
            && LineOf(slots[3]) == (if s.requires_ == [] then "" else Listed("requires", s.requires_))
            && LineOf(slots[4]) == (if s.tags == [] then "" else Listed("tags", s.tags))
            && LineOf(slots[5]) == "\nversion: " + tx.fromInt(s.version)
            && LineOf(slots[6]) == Stamped("created", s.created) && LineOf(slots[7]) == Stamped("updated", s.updated)
  {
    hide Join;
    ListLine("scope", s.scope);
    ListLine("requires", s.requires_);
    ListLine("tags", s.tags);
    assert "\n" + "version" + ": " == "\nversion: ";
    assert "---" + ("\n" + "name" + ": " + s.name) == "---\nname: " + s.name;
  }

  lemma ListLine(key: string, values: seq<string>)
    ensures "\n" + key + ": " + ListText(values) == Listed(key, values)
  {
    hide Join;
    Associates("\n" + key + ": ", "[" + Join(", ", values), "]");
    Associates("\n" + key + ": ", "[", Join(", ", values));
    assert "\n" + key + ": [" == "\n" + key + ": " + "[";
  }

  lemma AllInARow(x: string, a: string, b: string, c: string, d: string, e: string, f: string, g: string, h: string, t: string)
    ensures x + (a + b + c + d + e + f + g + h + t) == x + a + b + c + d + e + f + g + h + t
  {
    Associates(x, a, b);
    Associates(x, a + b, c);
    Associates(x, a + b + c, d);
    Associates(x, a + b + c + d, e);
    Associates(x, a + b + c + d + e, f);
    Associates(x, a + b + c + d + e + f, g);
    Associates(x, a + b + c + d + e + f + g, h);
    Associates(x, a + b + c + d + e + f + g + h, t);
  }

  /** The file of a skill, word for word. */
  lemma WrittenSo(tx: Text, s: Skill)
    ensures Render(tx, s)
            == "---\nname: " + s.name + Stamped("description", s.description) + Listed("scope", s.scope)
               + (if s.requires_ == [] then "" else Listed("requires", s.requires_))
               + (if s.tags == [] then "" else Listed("tags", s.tags))
               + "\nversion: " + tx.fromInt(s.version) + Stamped("created", s.created) + Stamped("updated", s.updated)
               + Tail(s.extra) + "\n---\n\n" + Trim(tx.blank, s.body) + "\n"
  {
    var slots := Slots(tx, s);
    TailOfEight(slots[0], slots[1], slots[2], slots[3], slots[4], slots[5], slots[6], slots[7]);
    SlotLines(tx, s);
    EmptyTail();
    hide *;
    assert slots == [slots[0], slots[1], slots[2], slots[3], slots[4], slots[5], slots[6], slots[7]];
    HeadIsWritten(tx, s);
    RenderIs(tx, s);
    AllInARow("---", LineOf(slots[0]), LineOf(slots[1]), LineOf(slots[2]), LineOf(slots[3]), LineOf(slots[4]), LineOf(slots[5]),
              LineOf(slots[6]), LineOf(slots[7]), Tail(s.extra));
    var upTo := "---\nname: " + s.name + LineOf(slots[1]) + LineOf(slots[2]) + LineOf(slots[3]) + LineOf(slots[4]);
    Associates(upTo, "\nversion: ", tx.fromInt(s.version));
  }

  /** The block's lines, each behind a newline. */
  lemma HeadIsWritten(tx: Text, s: Skill)
    ensures Tail(Stated(tx, s)) == Tail(Present(Slots(tx, s))) + Tail(s.extra)
  {
    hide Tail, Present, Slots;
    TailJoins(Present(Slots(tx, s)), s.extra);
  }

  lemma RenderIs(tx: Text, s: Skill)
    ensures Render(tx, s) == "---" + Tail(Stated(tx, s)) + "\n---\n\n" + Trim(tx.blank, s.body) + "\n"
  {
    NameIsThere(tx, s);
    hide Tail, Stated, Lines, Join, Trim;
    JoinIsTail(Stated(tx, s));
    assert "---" + ("\n" + Join("\n", Lines(Stated(tx, s)))) == "---\n" + Join("\n", Lines(Stated(tx, s)));
  }

  lemma NameIsThere(tx: Text, s: Skill)
    ensures Stated(tx, s) != []
  {
    hide ListText, Tail, LineOf;
    var slots := Slots(tx, s);
    NonePresentYet(slots);
  }

  lemma {:induction false} NonePresentYet(slots: seq<Slot>)
    requires slots != [] && slots[0].written
    ensures Present(slots) != []
  {
    if |slots| > 1 { NonePresentYet(slots[..|slots| - 1]); }
  }
}
