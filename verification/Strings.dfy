/** Strings searched, trimmed and split, as the string library does it. */
module Strings {

  /** The text before the first marker. */
  function Before(marker: string, text: string): (said: string)
    ensures said <= text
  {
    if text == "" || marker <= text then "" else [text[0]] + Before(marker, text[1..])
  }

  ghost predicate Has(marker: string, text: string) {
    exists i :: 0 <= i <= |text| && marker <= text[i..]
  }

  lemma {:induction false} BeforeHasNone(marker: string, text: string)
    requires marker != ""
    ensures !Has(marker, Before(marker, text))
  {
    var said := Before(marker, text);
    if text != "" && !(marker <= text) {
      BeforeHasNone(marker, text[1..]);
      forall i | 0 <= i <= |said| ensures !(marker <= said[i..]) {
        if i == 0 {
          PrefixOfPrefix(marker, said, text);
          assert said[0..] == said;
        } else {
          assert said[i..] == Before(marker, text[1..])[i - 1..];
        }
      }
    }
  }

  lemma PrefixOfPrefix(a: string, b: string, c: string)
    requires b <= c
    ensures a <= b ==> a <= c
  {
  }

  lemma TailHasNone(marker: string, text: string)
    requires text != "" && !Has(marker, text)
    ensures !Has(marker, text[1..])
  {
    forall i | 0 <= i <= |text[1..]| ensures !(marker <= text[1..][i..]) {
      assert text[1..][i..] == text[i + 1..];
    }
  }

  /** Without a marker it is the whole text. */
  lemma {:induction false} BeforeIsAll(marker: string, text: string)
    requires !Has(marker, text)
    ensures Before(marker, text) == text
  {
    assert text[0..] == text;
    if text != "" {
      TailHasNone(marker, text);
      BeforeIsAll(marker, text[1..]);
    }
  }

  /** Whatever follows the marker, what stood before it is left, as long as no marker begins in that. */
  lemma {:induction false} BeforeIsWhatStood(marker: string, said: string, more: string)
    requires marker != "" && !Has(marker, said + marker[..|marker| - 1])
    ensures Before(marker, said + marker + more) == said
  {
    hide Has, Before;
    var head, rest := marker[..|marker| - 1], marker + more;
    assert said + marker + more == said + rest;
    if said == "" {
      assert rest[..|marker|] == marker && said + rest == rest;
      BeforeMarker(marker, rest);
    } else {
      assert (said + head)[1..] == said[1..] + head && (said + rest)[1..] == said[1..] + rest;
      TailHasNone(marker, said + head);
      assert said[1..] + marker + more == said[1..] + rest;
      BeforeIsWhatStood(marker, said[1..], more);
      NoneAtStart(marker, said + head);
      assert (said + head) == (said + rest)[..|said + head|];
      NotAPrefix(marker, said + head, said + rest);
      BeforeLater(marker, said + rest);
    }
  }

  lemma NoneAtStart(marker: string, text: string)
    requires !Has(marker, text)
    ensures !(marker <= text)
  {
    assert text[0..] == text;
  }

  lemma BeforeMarker(marker: string, text: string)
    requires marker <= text
    ensures Before(marker, text) == ""
  {
  }

  lemma BeforeLater(marker: string, text: string)
    requires text != "" && !(marker <= text)
    ensures Before(marker, text) == [text[0]] + Before(marker, text[1..])
  {
  }

  lemma NotAPrefix(a: string, b: string, c: string)
    requires |a| <= |b| <= |c| && b == c[..|b|] && !(a <= b)
    ensures !(a <= c)
  {
  }

  lemma PrefixHasNone(marker: string, a: string, b: string)
    requires !Has(marker, a + b)
    ensures !Has(marker, a)
  {
    forall i | 0 <= i <= |a| ensures !(marker <= a[i..]) {
      assert (a + b)[i..] == a[i..] + b;
      PrefixOfPrefix(marker, a[i..], (a + b)[i..]);
    }
  }

  /** No marker begins before the one found. */
  lemma {:induction false} NoneEarlier(marker: string, text: string, i: nat)
    requires i < |Before(marker, text)|
    ensures !(marker <= text[i..])
  {
    if i == 0 {
      assert text[0..] == text;
    } else {
      NoneEarlier(marker, text[1..], i - 1);
      assert text[1..][i - 1..] == text[i..];
    }
  }

  lemma StillAhead(marker: string, text: string)
    requires Has(marker, text) && !(marker <= text)
    ensures text != "" && Has(marker, text[1..])
  {
    assert text[0..] == text;
    var i :| 0 <= i <= |text| && marker <= text[i..];
    assert text != "" && text[1..][i - 1..] == text[i..];
  }

  lemma Regroup(a: string, b: string, c: string, d: string)
    ensures a + (b + c + d) == a + b + c + d
  {
  }

  /** Where there is a marker, the text is what stood before it, the marker, and the rest. */
  lemma {:induction false} FirstMarker(marker: string, text: string) returns (rest: string)
    requires Has(marker, text)
    ensures text == Before(marker, text) + marker + rest
  {
    hide Has, Before;
    if marker <= text {
      BeforeMarker(marker, text);
      rest := text[|marker|..];
    } else {
      StillAhead(marker, text);
      BeforeLater(marker, text);
      rest := FirstMarker(marker, text[1..]);
      assert text == [text[0]] + text[1..];
      Regroup([text[0]], Before(marker, text[1..]), marker, rest);
    }
  }

  // ------------------------------------------------------------ the ends of lines

  /** What a file holds, as it is read: each of the three ends of a line is one newline. */
  function Universal(s: string): string {
    if s == "" then ""
    else if s[0] != '\r' then [s[0]] + Universal(s[1..])
    else if |s| > 1 && s[1] == '\n' then "\n" + Universal(s[2..])
    else "\n" + Universal(s[1..])
  }

  lemma Associates(a: string, b: string, c: string)
    ensures a + b + c == a + (b + c)
  {
  }

  /** One character, or one end of a line, with what follows. */
  lemma UniversalStep(first: string, rest: string)
    requires first == "\r\n" || (|first| == 1 && (first == "\r" ==> rest == "" || rest[0] != '\n'))
    ensures Universal(first + rest) == (if first[0] == '\r' then "\n" else first) + Universal(rest)
  {
    assert (first + rest)[|first|..] == rest && (first + rest)[0] == first[0];
  }

  lemma {:induction false} UniversalJoins(a: string, b: string)
    requires a == "" || a[|a| - 1] != '\r'
    ensures Universal(a + b) == Universal(a) + Universal(b)
  {
    if a == "" {
      assert a + b == b;
    } else {
      hide Universal;
      var k := if a[0] == '\r' && a[1] == '\n' then 2 else 1;
      var first, less := a[..k], a[k..];
      assert a == first + less;
      assert less == "" || less[|less| - 1] == a[|a| - 1];
      UniversalJoins(less, b);
      UniversalStep(first, less);
      UniversalStep(first, less + b);
      Associates(first, less, b);
      Associates(if first[0] == '\r' then "\n" else first, Universal(less), Universal(b));
    }
  }

  lemma {:induction false} UniversalKeeps(s: string)
    requires '\r' !in s
    ensures Universal(s) == s
  {
    if s != "" { UniversalKeeps(s[1..]); }
  }

  lemma {:induction false} UniversalEnds(s: string)
    requires s != "" && s[|s| - 1] != '\n' && s[|s| - 1] != '\r'
    ensures Universal(s) != "" && Universal(s)[|Universal(s)| - 1] == s[|s| - 1]
  {
    if |s| > 1 {
      UniversalEnds(if s[0] == '\r' && s[1] == '\n' then s[2..] else s[1..]);
    }
  }

  lemma UniversalTrimmed(f: char -> bool, s: string)
    requires Trimmed(f, s) && f('\n') && f('\r')
    ensures Trimmed(f, Universal(s))
  {
    if s != "" { UniversalEnds(s); }
  }

  // --------------------------------------------------------------- trimming

  function TrimLeft(f: char -> bool, s: string): string {
    if s != "" && f(s[0]) then TrimLeft(f, s[1..]) else s
  }

  function TrimRight(f: char -> bool, s: string): string {
    if s != "" && f(s[|s| - 1]) then TrimRight(f, s[..|s| - 1]) else s
  }

  function Trim(f: char -> bool, s: string): string {
    TrimRight(f, TrimLeft(f, s))
  }

  predicate Trimmed(f: char -> bool, s: string) {
    s == "" || (!f(s[0]) && !f(s[|s| - 1]))
  }

  predicate AllOf(f: char -> bool, s: string) {
    forall i :: 0 <= i < |s| ==> f(s[i])
  }

  lemma {:induction false} TrimLeftEnds(f: char -> bool, s: string)
    ensures var t := TrimLeft(f, s); t == "" || (!f(t[0]) && s != "" && t[|t| - 1] == s[|s| - 1])
  {
    if s != "" && f(s[0]) { TrimLeftEnds(f, s[1..]); }
  }

  lemma {:induction false} TrimRightEnds(f: char -> bool, s: string)
    ensures var t := TrimRight(f, s); t == "" || (!f(t[|t| - 1]) && s != "" && t[0] == s[0])
  {
    if s != "" && f(s[|s| - 1]) { TrimRightEnds(f, s[..|s| - 1]); }
  }

  lemma TrimIsTrimmed(f: char -> bool, s: string)
    ensures Trimmed(f, Trim(f, s))
  {
    TrimLeftEnds(f, s);
    TrimRightEnds(f, TrimLeft(f, s));
  }

  lemma TrimmedStays(f: char -> bool, s: string)
    requires Trimmed(f, s)
    ensures Trim(f, s) == s
  {
  }

  /** Padding goes, and only padding. */
  lemma {:induction false} PaddingGoes(f: char -> bool, before: string, s: string, after: string)
    requires Trimmed(f, s) && AllOf(f, before) && AllOf(f, after)
    ensures Trim(f, before + s + after) == s
    decreases |before|
  {
    if before == "" {
      assert before + s + after == s + after;
      if s == "" {
        AllGoes(f, after);
        assert s + after == after;
      } else {
        RightPaddingGoes(f, s, after);
      }
    } else {
      assert (before + s + after)[1..] == before[1..] + s + after;
      PaddingGoes(f, before[1..], s, after);
    }
  }

  lemma {:induction false} AllGoes(f: char -> bool, s: string)
    requires AllOf(f, s)
    ensures TrimLeft(f, s) == ""
  {
    if s != "" { AllGoes(f, s[1..]); }
  }

  lemma {:induction false} RightPaddingGoes(f: char -> bool, s: string, after: string)
    requires s != "" && Trimmed(f, s) && AllOf(f, after)
    ensures Trim(f, s + after) == s
  {
    if after == "" {
      assert s + after == s;
    } else {
      var less := after[..|after| - 1];
      RightPaddingGoes(f, s, less);
      assert (s + after)[..|s + after| - 1] == s + less;
    }
  }

  // -------------------------------------------------------------- splitting

  /** The stretches between separators; at least one. */
  function Split(sep: char -> bool, s: string): (parts: seq<string>)
    ensures parts != []
  {
    if s == "" then [""]
    else
      var rest := Split(sep, s[1..]);
      if sep(s[0]) then [""] + rest else [[s[0]] + rest[0]] + rest[1..]
  }

  predicate NoneOf(f: char -> bool, s: string) {
    forall i :: 0 <= i < |s| ==> !f(s[i])
  }

  lemma {:induction false} SplitNothing(sep: char -> bool, p: string)
    requires NoneOf(sep, p)
    ensures Split(sep, p) == [p]
  {
    if p != "" {
      SplitNothing(sep, p[1..]);
      assert [p[0]] + p[1..] == p && [p[1..]][1..] == [];
    }
  }

  lemma {:induction false} SplitFirst(sep: char -> bool, p: string, c: char, rest: string)
    requires NoneOf(sep, p) && sep(c)
    ensures Split(sep, p + [c] + rest) == [p] + Split(sep, rest)
  {
    var s := p + [c] + rest;
    if p == "" {
      assert s[1..] == rest;
    } else {
      SplitFirst(sep, p[1..], c, rest);
      assert s[1..] == p[1..] + [c] + rest;
      assert [s[0]] + p[1..] == p;
    }
  }

  lemma SplitIs(sep: char -> bool, c: char, rest: string)
    ensures var parts := Split(sep, rest);
            Split(sep, [c] + rest) == if sep(c) then [""] + parts else [[c] + parts[0]] + parts[1..]
  {
    assert ([c] + rest)[1..] == rest;
  }

  lemma {:induction false} SplitBoth(sep: char -> bool, a: string, c: char, b: string)
    requires sep(c)
    ensures Split(sep, a + [c] + b) == Split(sep, a) + Split(sep, b)
  {
    hide Split;
    if a == "" {
      SplitNothing(sep, a);
      assert a + [c] + b == [c] + b;
      SplitIs(sep, c, b);
    } else {
      var first, less := a[0], a[1..];
      SplitBoth(sep, less, c, b);
      SplitIs(sep, first, less);
      SplitIs(sep, first, less + [c] + b);
      assert a == [first] + less && a + [c] + b == [first] + (less + [c] + b);
      var parts, more := Split(sep, less), Split(sep, b);
      assert (parts + more)[1..] == parts[1..] + more;
      assert !sep(first) ==> [[first] + parts[0]] + (parts[1..] + more) == [[first] + parts[0]] + parts[1..] + more;
    }
  }

  lemma {:induction false} SplitAfter(sep: char -> bool, p: string, s: string)
    requires NoneOf(sep, p)
    ensures Split(sep, p + s) == [p + Split(sep, s)[0]] + Split(sep, s)[1..]
  {
    hide Split;
    var parts := Split(sep, s);
    if p == "" {
      assert p + s == s && p + parts[0] == parts[0];
    } else {
      var first, less := p[0], p[1..];
      SplitAfter(sep, less, s);
      SplitIs(sep, first, less + s);
      assert p + s == [first] + (less + s);
      assert [first] + (less + parts[0]) == p + parts[0];
      assert ([less + parts[0]] + parts[1..])[1..] == parts[1..];
    }
  }

  function Join(glue: string, parts: seq<string>): string {
    if parts == [] then "" else if |parts| == 1 then parts[0] else parts[0] + glue + Join(glue, parts[1..])
  }

  /** Split on one character undoes joining on it. */
  lemma {:induction false} SplitUndoesJoin(sep: char -> bool, c: char, parts: seq<string>)
    requires parts != [] && sep(c) && forall i :: 0 <= i < |parts| ==> NoneOf(sep, parts[i])
    ensures Split(sep, Join([c], parts)) == parts
  {
    hide Split, Join, NoneOf;
    JoinIs([c], parts);
    if |parts| == 1 {
      SplitNothing(sep, parts[0]);
    } else {
      SplitUndoesJoin(sep, c, parts[1..]);
      SplitFirst(sep, parts[0], c, Join([c], parts[1..]));
    }
  }

  lemma JoinIs(glue: string, parts: seq<string>)
    requires parts != []
    ensures Join(glue, parts) == if |parts| == 1 then parts[0] else parts[0] + glue + Join(glue, parts[1..])
  {
  }
}
