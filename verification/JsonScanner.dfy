/**
  The brace scanner that finds the end of a JSON object printed in running
  text, against the grammar of RFC 8259: sections 2 (structural characters and
  white space), 4 (objects), 5 (arrays) and 7 (strings).
 */
module JsonScanner {
  // ------------------------------------------------------------- JSON as printed

  /** One character of a string, as written. */
  datatype Piece =
    | Plain(c: char)
    | Escaped(c: char)
    | Unicode(hex: string)

  /** A value as written, with the white space it was written with. */
  datatype Value =
    | Bare(text: string)                          // a number, true, false, null
    | Text(pieces: seq<Piece>)
    | Array(space: string, elements: Elements)
    | Object(space: string, members: Members)

  datatype Elements =
    | NoElement
    | Element(before: string, value: Value, after: string, rest: Elements)

  datatype Members =
    | NoMember
    | Member(before: string, key: seq<Piece>, afterKey: string, beforeValue: string, value: Value, after: string,
             rest: Members)

  predicate IsSpace(c: char) {
    c == ' ' || c == '\t' || c == '\n' || c == '\r'
  }

  predicate Spaces(s: string) {
    forall c :: c in s ==> IsSpace(c)
  }

  predicate IsHex(c: char) {
    '0' <= c <= '9' || 'a' <= c <= 'f' || 'A' <= c <= 'F'
  }

  predicate IsBare(c: char) {
    '0' <= c <= '9' || 'a' <= c <= 'z' || 'A' <= c <= 'Z' || c == '+' || c == '-' || c == '.'
  }

  predicate GoodPiece(p: Piece) {
    match p
    case Plain(c) => c >= ' ' && c != '"' && c != '\\'
    case Escaped(c) => c in {'"', '\\', '/', 'b', 'f', 'n', 'r', 't'}
    case Unicode(hex) => |hex| == 4 && forall c :: c in hex ==> IsHex(c)
  }

  predicate GoodText(ps: seq<Piece>) {
    forall i :: 0 <= i < |ps| ==> GoodPiece(ps[i])
  }

  predicate Good(v: Value) {
    match v
    case Bare(text) => text != "" && forall c :: c in text ==> IsBare(c)
    case Text(ps) => GoodText(ps)
    case Array(space, es) => Spaces(space) && GoodElements(es)
    case Object(space, ms) => Spaces(space) && GoodMembers(ms)
  }

  predicate GoodElements(es: Elements) {
    es.Element? ==> Spaces(es.before) && Good(es.value) && Spaces(es.after) && GoodElements(es.rest)
  }

  predicate GoodMembers(ms: Members) {
    ms.Member? ==>
      && Spaces(ms.before) && GoodText(ms.key) && Spaces(ms.afterKey) && Spaces(ms.beforeValue)
      && Good(ms.value) && Spaces(ms.after) && GoodMembers(ms.rest)
  }

  predicate IsDigit(c: char) {
    '0' <= c <= '9'
  }

  predicate AllDigits(s: string) {
    forall c :: c in s ==> IsDigit(c)
  }

  predicate AllBare(s: string) {
    forall c :: c in s ==> IsBare(c)
  }

  lemma BareTogether(a: string, b: string)
    requires AllBare(a) && AllBare(b)
    ensures AllBare(a + b)
  {
    hide IsBare;
  }

  /** Every number of section 6 of RFC 8259, and each literal of its section 3, is a word here. */
  lemma NumbersAreGood(minus: string, whole: string, point: string, fraction: string, e: string, exponent: string)
    requires minus in {"", "-"} && whole != "" && AllDigits(whole)
    requires point in {"", "."} && AllDigits(fraction) && e in {"", "e", "E", "e+", "E+", "e-", "E-"} && AllDigits(exponent)
    ensures Good(Bare(minus + whole + point + fraction + e + exponent))
    ensures Good(Bare("true")) && Good(Bare("false")) && Good(Bare("null"))
  {
    assert AllBare(minus) && AllBare(whole) && AllBare(point) && AllBare(fraction) && AllBare(e) && AllBare(exponent);
    hide AllBare, AllDigits;
    BareTogether(minus, whole);
    BareTogether(minus + whole, point);
    BareTogether(minus + whole + point, fraction);
    BareTogether(minus + whole + point + fraction, e);
    BareTogether(minus + whole + point + fraction + e, exponent);
    GoodWhenBare(minus + whole + point + fraction + e + exponent);
    LiteralsAreGood();
  }

  lemma GoodWhenBare(text: string)
    requires text != "" && AllBare(text)
    ensures Good(Bare(text))
  {
  }

  lemma LiteralsAreGood()
    ensures Good(Bare("true")) && Good(Bare("false")) && Good(Bare("null"))
  {
    assert AllBare("true") && AllBare("false") && AllBare("null");
    GoodWhenBare("true");
    GoodWhenBare("false");
    GoodWhenBare("null");
  }

  /** Four hexadecimal digits of either case make a Unicode escape, as in section 7 of RFC 8259, and nothing else. */
  lemma HexIs(c: char)
    ensures IsHex(c) <==> IsDigit(c) || c in {'a', 'b', 'c', 'd', 'e', 'f', 'A', 'B', 'C', 'D', 'E', 'F'}
  {
  }

  function PrintPiece(p: Piece): string {
    match p
    case Plain(c) => [c]
    case Escaped(c) => ['\\', c]
    case Unicode(hex) => "\\u" + hex
  }

  function PrintPieces(ps: seq<Piece>): string {
    if ps == [] then "" else PrintPiece(ps[0]) + PrintPieces(ps[1..])
  }

  function PrintText(ps: seq<Piece>): string {
    "\"" + PrintPieces(ps) + "\""
  }

  function Print(v: Value): string {
    match v
    case Bare(text) => text
    case Text(ps) => PrintText(ps)
    case Array(space, es) => "[" + space + PrintElements(es) + "]"
    case Object(space, ms) => "{" + space + PrintMembers(ms) + "}"
  }

  function PrintElements(es: Elements): string {
    match es
    case NoElement => ""
    case Element(before, v, after, rest) =>
      before + Print(v) + after + (if rest.NoElement? then "" else "," + PrintElements(rest))
  }

  function PrintMembers(ms: Members): string {
    match ms
    case NoMember => ""
    case Member(before, key, afterKey, beforeValue, v, after, rest) =>
      before + PrintText(key) + afterKey + ":" + beforeValue + Print(v) + after
      + (if rest.NoMember? then "" else "," + PrintMembers(rest))
  }

  // ------------------------------------------------------------------ the scanner

  datatype Scan = Scan(depth: int, instr: bool, esc: bool)

  function Next(st: Scan, c: char): Scan {
    if st.esc then st.(esc := false)
    else if c == '\\' then st.(esc := true)
    else if c == '"' then st.(instr := !st.instr)
    else if st.instr then st
    else if c == '{' then st.(depth := st.depth + 1)
    else if c == '}' then st.(depth := st.depth - 1)
    else st
  }

  /** The scan ends at a closing brace outside strings that brings the depth to 0. */
  predicate Closes(st: Scan, c: char) {
    !st.esc && !st.instr && c == '}' && st.depth == 1
  }

  /** How many characters the scan takes. */
  function Length(st: Scan, s: string): (n: nat)
    ensures n <= |s|
    ensures s != "" ==> n > 0
    decreases |s|
  {
    if s == "" then 0
    else if Closes(st, s[0]) then 1
    else 1 + Length(Next(st, s[0]), s[1..])
  }

  const START := Scan(0, false, false)

  method ScanFrom(text: string, start: nat) returns (end: nat)
    requires start <= |text|
    ensures end == start + Length(START, text[start..]) && end <= |text|
  {
    var depth, instr, esc := 0, false, false;
    end := start;
    while end < |text|
      invariant start <= end <= |text|
      invariant start + Length(START, text[start..]) == end + Length(Scan(depth, instr, esc), text[end..])
    {
      var c := text[end];
      assert text[end..][1..] == text[end + 1..];
      if esc {
        esc := false;
      } else if c == '\\' {
        esc := true;
      } else if c == '"' {
        instr := !instr;
      } else if !instr {
        if c == '{' {
          depth := depth + 1;
        } else if c == '}' {
          depth := depth - 1;
          if depth == 0 {
            end := end + 1;
            return;
          }
        }
      }
      end := end + 1;
    }
  }

  // ------------------------------------------------- the scanner inverts the printer

  /** From `st` the scan goes over all of `a`, whatever comes after it, and is then in `to`. */
  ghost predicate Over(st: Scan, a: string, to: Scan) {
    forall s :: Length(st, a + s) == |a| + Length(to, s)
  }

  lemma OverNothing(st: Scan)
    ensures Over(st, "", st)
  {
    forall s ensures Length(st, "" + s) == Length(st, s) {
      assert "" + s == s;
    }
  }

  lemma OverOne(st: Scan, c: char)
    requires !Closes(st, c)
    ensures Over(st, [c], Next(st, c))
  {
    forall s ensures Length(st, [c] + s) == 1 + Length(Next(st, c), s) {
      assert ([c] + s)[1..] == s;
    }
  }

  lemma OverBoth(st: Scan, a: string, mid: Scan, b: string, to: Scan)
    requires Over(st, a, mid) && Over(mid, b, to)
    ensures Over(st, a + b, to)
  {
    forall s ensures Length(st, a + b + s) == |a + b| + Length(to, s) {
      assert a + b + s == a + (b + s);
    }
  }

  /** Characters that change nothing outside strings. */
  lemma {:induction false} OverQuiet(d: int, a: string)
    requires forall c :: c in a ==> c != '"' && c != '\\' && c != '{' && c != '}'
    ensures Over(Scan(d, false, false), a, Scan(d, false, false))
  {
    hide Over;
    var st := Scan(d, false, false);
    if a == "" {
      OverNothing(st);
    } else {
      assert [a[0]] + a[1..] == a && a[0] in a && forall c :: c in a[1..] ==> c in a;
      OverOne(st, a[0]);
      OverQuiet(d, a[1..]);
      OverBoth(st, [a[0]], st, a[1..], st);
    }
  }

  lemma {:induction false} OverInside(d: int, a: string)
    requires forall c :: c in a ==> c != '"' && c != '\\'
    ensures Over(Scan(d, true, false), a, Scan(d, true, false))
  {
    hide Over;
    var st := Scan(d, true, false);
    if a == "" {
      OverNothing(st);
    } else {
      assert [a[0]] + a[1..] == a && a[0] in a && forall c :: c in a[1..] ==> c in a;
      OverOne(st, a[0]);
      OverInside(d, a[1..]);
      OverBoth(st, [a[0]], st, a[1..], st);
    }
  }

  lemma OverPiece(d: int, p: Piece)
    requires GoodPiece(p)
    ensures Over(Scan(d, true, false), PrintPiece(p), Scan(d, true, false))
  {
    hide Over;
    var inside := Scan(d, true, false);
    var escaped := Scan(d, true, true);
    match p
    case Plain(c) => OverOne(inside, c);
    case Escaped(c) =>
      OverOne(inside, '\\');
      OverOne(escaped, c);
      OverBoth(inside, ['\\'], escaped, [c], inside);
      assert ['\\'] + [c] == ['\\', c];
    case Unicode(hex) =>
      OverOne(inside, '\\');
      OverOne(escaped, 'u');
      OverBoth(inside, ['\\'], escaped, ['u'], inside);
      OverInside(d, hex);
      OverBoth(inside, ['\\'] + ['u'], inside, hex, inside);
      assert ['\\'] + ['u'] == "\\u";
  }

  lemma {:induction false} OverPieces(d: int, ps: seq<Piece>)
    requires GoodText(ps)
    ensures Over(Scan(d, true, false), PrintPieces(ps), Scan(d, true, false))
  {
    hide Over, GoodPiece, PrintPiece;
    var st := Scan(d, true, false);
    if ps == [] {
      OverNothing(st);
    } else {
      OverPiece(d, ps[0]);
      OverPieces(d, ps[1..]);
      OverBoth(st, PrintPiece(ps[0]), st, PrintPieces(ps[1..]), st);
    }
  }

  lemma OverText(d: int, ps: seq<Piece>)
    requires GoodText(ps)
    ensures Over(Scan(d, false, false), PrintText(ps), Scan(d, false, false))
  {
    hide Over, PrintPieces, GoodText;
    var outside, inside := Scan(d, false, false), Scan(d, true, false);
    OverOne(outside, '"');
    OverPieces(d, ps);
    OverOne(inside, '"');
    OverBoth(outside, "\"", inside, PrintPieces(ps), inside);
    OverBoth(outside, "\"" + PrintPieces(ps), inside, "\"", outside);
  }

  /** Inside an object the scan goes over any value and is back where it was. */
  lemma {:induction false} OverValue(d: int, v: Value)
    requires Good(v) && d >= 1
    ensures Over(Scan(d, false, false), Print(v), Scan(d, false, false))
    decreases v
  {
    hide Over, GoodText, PrintText;
    var st, deeper := Scan(d, false, false), Scan(d + 1, false, false);
    match v
    case Bare(text) => OverQuiet(d, text);
    case Text(ps) => OverText(d, ps);
    case Array(space, es) =>
      OverQuiet(d, "[" + space);
      OverElements(d, es);
      OverQuiet(d, "]");
      OverBoth(st, "[" + space, st, PrintElements(es), st);
      OverBoth(st, "[" + space + PrintElements(es), st, "]", st);
    case Object(space, ms) =>
      OverOne(st, '{');
      OverQuiet(d + 1, space);
      OverMembers(d + 1, ms);
      OverOne(deeper, '}');
      OverBoth(st, "{", deeper, space, deeper);
      OverBoth(st, "{" + space, deeper, PrintMembers(ms), deeper);
      OverBoth(st, "{" + space + PrintMembers(ms), deeper, "}", st);
  }

  lemma {:induction false} OverElements(d: int, es: Elements)
    requires GoodElements(es) && d >= 1
    ensures Over(Scan(d, false, false), PrintElements(es), Scan(d, false, false))
    decreases es
  {
    hide Over, Good, Print;
    var st := Scan(d, false, false);
    match es
    case NoElement => OverNothing(st);
    case Element(before, v, after, rest) =>
      OverQuiet(d, before);
      OverValue(d, v);
      OverQuiet(d, after);
      OverBoth(st, before, st, Print(v), st);
      OverBoth(st, before + Print(v), st, after, st);
      if rest.NoElement? {
        OverNothing(st);
      } else {
        OverQuiet(d, ",");
        OverElements(d, rest);
        OverBoth(st, ",", st, PrintElements(rest), st);
      }
      OverBoth(st, before + Print(v) + after, st, if rest.NoElement? then "" else "," + PrintElements(rest), st);
  }

  lemma {:induction false} OverMembers(d: int, ms: Members)
    requires GoodMembers(ms) && d >= 1
    ensures Over(Scan(d, false, false), PrintMembers(ms), Scan(d, false, false))
    decreases ms
  {
    hide Over, Good, Print, PrintText, GoodText;
    var st := Scan(d, false, false);
    match ms
    case NoMember => OverNothing(st);
    case Member(before, key, afterKey, beforeValue, v, after, rest) =>
      OverQuiet(d, before);
      OverText(d, key);
      OverQuiet(d, afterKey);
      OverQuiet(d, ":");
      OverQuiet(d, beforeValue);
      OverValue(d, v);
      OverQuiet(d, after);
      OverBoth(st, before, st, PrintText(key), st);
      OverBoth(st, before + PrintText(key), st, afterKey, st);
      OverBoth(st, before + PrintText(key) + afterKey, st, ":", st);
      OverBoth(st, before + PrintText(key) + afterKey + ":", st, beforeValue, st);
      OverBoth(st, before + PrintText(key) + afterKey + ":" + beforeValue, st, Print(v), st);
      OverBoth(st, before + PrintText(key) + afterKey + ":" + beforeValue + Print(v), st, after, st);
      if rest.NoMember? {
        OverNothing(st);
      } else {
        OverQuiet(d, ",");
        OverMembers(d, rest);
        OverBoth(st, ",", st, PrintMembers(rest), st);
      }
      OverBoth(st, before + PrintText(key) + afterKey + ":" + beforeValue + Print(v) + after, st,
               if rest.NoMember? then "" else "," + PrintMembers(rest), st);
  }

  lemma OverAndClose(st: Scan, a: string, to: Scan, c: char, s: string)
    requires Over(st, a, to) && Closes(to, c)
    ensures Length(st, a + ([c] + s)) == |a| + 1
  {
    assert Length(to, [c] + s) == 1;
  }

  lemma OverOpening(o: Value)
    requires o.Object? && Good(o)
    ensures Over(START, "{" + o.space + PrintMembers(o.members), Scan(1, false, false))
  {
    hide Over, PrintMembers;
    var inside := Scan(1, false, false);
    OverOne(START, '{');
    OverQuiet(1, o.space);
    OverMembers(1, o.members);
    OverBoth(START, "{", inside, o.space, inside);
    OverBoth(START, "{" + o.space, inside, PrintMembers(o.members), inside);
  }

  lemma Reassociated(a: string, c: char, s: string)
    ensures a + [c] + s == a + ([c] + s)
  {
  }

  /** Started at an object, the scan stops exactly at its end, whatever is printed after it. */
  lemma ScanInvertsPrint(o: Value, suffix: string)
    requires o.Object? && Good(o)
    ensures Length(START, Print(o) + suffix) == |Print(o)|
  {
    hide Over, Length, PrintMembers, Good;
    var opening := "{" + o.space + PrintMembers(o.members);
    OverOpening(o);
    OverAndClose(START, opening, Scan(1, false, false), '}', suffix);
    Reassociated(opening, '}', suffix);
  }
}
