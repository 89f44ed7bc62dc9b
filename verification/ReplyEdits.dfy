/**
  Tool calls a model prints as bare JSON in its reply: found by a pattern,
  delimited by the brace scanner, taken out of the text when they decode.
 */
module ReplyEdits {
  import opened Wrappers
  import opened JsonScanner

  // ----------------------------------------------------------------- the pattern

  /** What of a regular expression the pattern uses: text, `\s*`, `\w+`. */
  datatype Token = Literal(text: string) | Blanks | Word

  /** The pattern library's character classes. */
  datatype Classes = Classes(blank: char -> bool, word: char -> bool)

  predicate InClass(f: char -> bool, s: string) {
    forall i :: 0 <= i < |s| ==> f(s[i])
  }

  /** Blanks are at least JSON's, and no class holds the punctuation of the pattern. */
  ghost predicate Sane(cl: Classes) {
    && (forall c :: IsSpace(c) ==> cl.blank(c))
    && !cl.blank('"') && !cl.blank(':') && !cl.blank(',') && !cl.word('"')
  }

  const CALL: seq<Token> := [
    Literal("{"), Blanks, Literal("\"name\""), Blanks, Literal(":"), Blanks, Literal("\""), Word, Literal("\""),
    Blanks, Literal(","), Blanks, Literal("\"arguments\""), Blanks, Literal(":")]

  /** The tokens match at the start of `s`, each repetition as long as it likes. */
  ghost predicate Matches(cl: Classes, ts: seq<Token>, s: string)
    decreases |ts|
  {
    if ts == [] then true
    else match ts[0]
      case Literal(t) => t <= s && Matches(cl, ts[1..], s[|t|..])
      case Blanks => exists n :: 0 <= n <= |s| && InClass(cl.blank, s[..n]) && Matches(cl, ts[1..], s[n..])
      case Word => exists n :: 0 < n <= |s| && InClass(cl.word, s[..n]) && Matches(cl, ts[1..], s[n..])
  }

  /** How far `s` stays in the class. */
  function Lead(f: char -> bool, s: string): (n: nat)
    ensures n <= |s| && InClass(f, s[..n]) && (n < |s| ==> !f(s[n]))
  {
    if s == "" || !f(s[0]) then 0 else 1 + Lead(f, s[1..])
  }

  /** The tokens read without going back: each repetition takes all it can. */
  predicate Reads(cl: Classes, ts: seq<Token>, s: string)
    decreases |ts|
  {
    if ts == [] then true
    else match ts[0]
      case Literal(t) => t <= s && Reads(cl, ts[1..], s[|t|..])
      case Blanks => Reads(cl, ts[1..], s[Lead(cl.blank, s)..])
      case Word => Lead(cl.word, s) > 0 && Reads(cl, ts[1..], s[Lead(cl.word, s)..])
  }

  /** Every repetition is followed by text that starts outside its class. */
  predicate Separated(cl: Classes, ts: seq<Token>) {
    forall i :: 0 <= i < |ts| && !ts[i].Literal? ==>
      && i + 1 < |ts| && ts[i + 1].Literal? && ts[i + 1].text != ""
      && !(if ts[i].Blanks? then cl.blank else cl.word)(ts[i + 1].text[0])
  }

  lemma {:induction false} LeadIs(f: char -> bool, s: string, n: nat)
    requires n < |s| && InClass(f, s[..n]) && !f(s[n])
    ensures Lead(f, s) == n
  {
    if n > 0 {
      assert s[..n][0] == s[0];
      var tail := s[..n][1..];
      forall i | 0 <= i < |tail| ensures f(tail[i]) {
        assert tail[i] == s[..n][i + 1];
      }
      assert s[1..][..n - 1] == tail;
      LeadIs(f, s[1..], n - 1);
    }
  }

  /** Where repetitions are separated, reading without going back finds every match and only matches. */
  lemma {:induction false} ReadsIffMatches(cl: Classes, ts: seq<Token>, s: string)
    requires Separated(cl, ts)
    ensures Reads(cl, ts, s) <==> Matches(cl, ts, s)
    decreases |ts|
  {
    if ts != [] {
      var rest := ts[1..];
      assert Separated(cl, rest) by {
        forall i | 0 <= i < |rest| && !rest[i].Literal?
          ensures i + 1 < |rest| && rest[i + 1].Literal? && rest[i + 1].text != ""
          ensures !(if rest[i].Blanks? then cl.blank else cl.word)(rest[i + 1].text[0])
        {
          assert rest[i] == ts[i + 1];
        }
      }
      if ts[0].Literal? {
        if ts[0].text <= s { ReadsIffMatches(cl, rest, s[|ts[0].text|..]); }
      } else {
        var f := if ts[0].Blanks? then cl.blank else cl.word;
        ReadsIffMatches(cl, rest, s[Lead(f, s)..]);
        if Matches(cl, ts, s) {
          var n :| 0 <= n <= |s| && InClass(f, s[..n]) && Matches(cl, rest, s[n..]) && (ts[0].Word? ==> n > 0);
          assert rest[0] == ts[1] && ts[1].text <= s[n..];
          LeadIs(f, s, n);
        }
      }
    }
  }

  /** A head of a call stands at the start of `s`. */
  predicate IsHead(cl: Classes, s: string) {
    Reads(cl, CALL, s)
  }

  /** For sane classes the reading of the call pattern is the pattern's own meaning. */
  lemma HeadIsTheMatch(cl: Classes, s: string)
    requires Sane(cl)
    ensures IsHead(cl, s) <==> Matches(cl, CALL, s)
  {
    assert Separated(cl, CALL) by {
      hide Reads, Matches;
    }
    hide Reads, Matches, Separated;
    ReadsIffMatches(cl, CALL, s);
  }

  lemma HeadIsBrace(cl: Classes, s: string)
    requires IsHead(cl, s)
    ensures s != "" && s[0] == '{'
  {
    assert CALL[0].text <= s;
  }

  /** The first head in `s`, if any. */
  function Search(cl: Classes, s: string): (p: Option<nat>)
    ensures p.Some? ==> p.value <= |s| && IsHead(cl, s[p.value..])
    ensures forall k: nat :: k < (if p.Some? then p.value else |s|) ==> !IsHead(cl, s[k..])
  {
    if IsHead(cl, s) then
      assert s[0..] == s;
      Some(0)
    else if s == "" then None
    else
      match Search(cl, s[1..])
      case None =>
        assert forall k: nat :: 0 < k <= |s| ==> s[k..] == s[1..][k - 1..];
        assert s[0..] == s;
        None
      case Some(p) =>
        assert forall k: nat :: 0 < k <= |s| ==> s[k..] == s[1..][k - 1..];
        assert s[0..] == s;
        Some(p + 1)
  }

  // ----------------------------------------------------------------- the parse

  /** A stretch of the reply: kept, or removed as a call. */
  datatype Part<A> = Kept(text: string) | Removed(text: string, call: A)

  function Blob<A>(decode: string -> Option<A>, blob: string): Part<A> {
    match decode(blob)
    case Some(call) => Removed(blob, call)
    case None => Kept(blob)
  }

  /** The first head in `s` and where the scan from it stops. */
  function Cut(cl: Classes, s: string): (c: Option<(nat, nat)>)
    ensures c.Some? ==> c.value.0 < c.value.1 <= |s|
  {
    match Search(cl, s)
    case None => None
    case Some(p) =>
      HeadIsBrace(cl, s[p..]);
      Some((p, p + Length(START, s[p..])))
  }

  /** The reply cut into stretches. `decode` reads an object: a name, and arguments that are an object. */
  function Parts<A>(cl: Classes, decode: string -> Option<A>, s: string): seq<Part<A>>
    decreases |s|
  {
    match Cut(cl, s)
    case None => [Kept(s)]
    case Some((p, q)) => [Kept(s[..p]), Blob(decode, s[p..q])] + Parts(cl, decode, s[q..])
  }

  function KeptTexts<A>(ps: seq<Part<A>>): seq<string> {
    if ps == [] then [] else KeptTexts(ps[..|ps| - 1]) + match ps[|ps| - 1] case Kept(t) => [t] case Removed(_, _) => []
  }

  function Calls<A>(ps: seq<Part<A>>): seq<A> {
    if ps == [] then [] else Calls(ps[..|ps| - 1]) + match ps[|ps| - 1] case Kept(_) => [] case Removed(_, c) => [c]
  }

  function Joined(texts: seq<string>): string {
    if texts == [] then "" else texts[0] + Joined(texts[1..])
  }

  /** Take the calls out of a reply. */
  method ParseCalls<A>(cl: Classes, decode: string -> Option<A>, strip: string -> string, text: string)
      returns (cleaned: string, calls: seq<A>)
    ensures calls == Calls(Parts(cl, decode, text))
    ensures cleaned == strip(Joined(KeptTexts(Parts(cl, decode, text))))
  {
    hide KeptTexts, Calls, IsHead, Search, Length, Parts, Blob;
    var out: seq<string> := [];
    calls := [];
    var i := 0;
    ghost var done: seq<Part<A>> := [];
    NoParts<A>();
    assert text[0..] == text && [] + Parts(cl, decode, text) == Parts(cl, decode, text);
    while true
      invariant 0 <= i <= |text|
      invariant Parts(cl, decode, text) == done + Parts(cl, decode, text[i..])
      invariant out == KeptTexts(done) && calls == Calls(done)
      decreases |text| - i
    {
      var m := Search(cl, text[i..]);
      PartsStep(cl, decode, text, i);
      if m.None? {
        OneMore(done, Kept(text[i..]), out, calls);
        out := out + [text[i..]];
        cleaned := strip(Joined(out));
        return;
      }
      var start := i + m.value;
      OneMore(done, Kept(text[i..start]), out, calls);
      out := out + [text[i..start]];
      var j := ScanFrom(text, start);
      var blob := text[start..j];
      OneMore(done + [Kept(text[i..start])], Blob(decode, blob), out, calls);
      BlobIs(decode, blob);
      match decode(blob) {
        case Some(call) => calls := calls + [call];
        case None => out := out + [blob];
      }
      Regroup(done, Kept(text[i..start]), Blob(decode, blob), Parts(cl, decode, text[j..]));
      done := done + [Kept(text[i..start])] + [Blob(decode, blob)];
      i := j;
    }
  }

  lemma PartsStep<A>(cl: Classes, decode: string -> Option<A>, text: string, i: nat)
    requires i <= |text|
    ensures match Search(cl, text[i..])
            case None => Parts(cl, decode, text[i..]) == [Kept(text[i..])]
            case Some(p) =>
              var start := i + p;
              var j := start + Length(START, text[start..]);
              && start < j <= |text|
              && Parts(cl, decode, text[i..])
                 == [Kept(text[i..start]), Blob(decode, text[start..j])] + Parts(cl, decode, text[j..])
  {
    hide Search, IsHead, Length, Blob;
    if Search(cl, text[i..]).Some? {
      var p := Search(cl, text[i..]).value;
      assert text[i..][p..] == text[i + p..];
      var n := Length(START, text[i + p..]);
      assert Cut(cl, text[i..]) == Some((p, p + n));
      Slices(text, i, p, n);
      assert Parts(cl, decode, text[i..])
          == [Kept(text[i..][..p]), Blob(decode, text[i..][p..p + n])] + Parts(cl, decode, text[i..][p + n..]);
    }
  }

  lemma Slices<T>(s: seq<T>, i: nat, p: nat, n: nat)
    requires i + p + n <= |s|
    ensures s[i..][p..] == s[i + p..] && s[i..][..p] == s[i..i + p]
    ensures s[i..][p..p + n] == s[i + p..i + p + n] && s[i..][p + n..] == s[i + p + n..]
  {
  }

  lemma BlobIs<A>(decode: string -> Option<A>, blob: string)
    ensures Blob(decode, blob) == match decode(blob) case Some(call) => Removed(blob, call) case None => Kept(blob)
  {
  }

  lemma Regroup<A>(done: seq<A>, x: A, y: A, rest: seq<A>)
    ensures done + ([x, y] + rest) == done + [x] + [y] + rest
  {
  }

  lemma NoParts<A>()
    ensures KeptTexts<A>([]) == [] && Calls<A>([]) == []
  {
  }

  lemma OneMore<A>(done: seq<Part<A>>, p: Part<A>, out: seq<string>, calls: seq<A>)
    requires out == KeptTexts(done) && calls == Calls(done)
    ensures KeptTexts(done + [p]) == (if p.Kept? then out + [p.text] else out)
    ensures Calls(done + [p]) == (if p.Kept? then calls else calls + [p.call])
  {
    assert (done + [p])[..|done|] == done;
  }

  // ------------------------------------------------------------- what it preserves

  function Whole<A>(ps: seq<Part<A>>): string {
    if ps == [] then "" else ps[0].text + Whole(ps[1..])
  }

  /** What is kept and what is removed, in order, is the reply: nothing is lost or moved. */
  lemma {:induction false} PartsAreTheText<A>(cl: Classes, decode: string -> Option<A>, s: string)
    ensures Whole(Parts(cl, decode, s)) == s
    decreases |s|
  {
    hide Cut, Blob;
    match Cut(cl, s)
    case None =>
      assert Parts(cl, decode, s)[1..] == [];
    case Some((p, q)) =>
      var rest := Parts(cl, decode, s[q..]);
      PartsAreTheText(cl, decode, s[q..]);
      BlobIs(decode, s[p..q]);
      var two := [Kept(s[..p]), Blob(decode, s[p..q])];
      assert (two + rest)[1..] == [Blob(decode, s[p..q])] + rest && ((two + rest)[1..])[1..] == rest;
      assert s == s[..p] + (s[p..q] + s[q..]);
  }

  /** Only what decodes to a call is removed, and it decodes to that call. */
  lemma {:induction false} RemovedAreCalls<A>(cl: Classes, decode: string -> Option<A>, s: string)
    ensures forall p :: p in Parts(cl, decode, s) && p.Removed? ==> decode(p.text) == Some(p.call)
    decreases |s|
  {
    hide Cut;
    if Cut(cl, s).Some? {
      RemovedAreCalls(cl, decode, s[Cut(cl, s).value.1..]);
    }
  }

  // ------------------------------------------------- calls printed into running text

  /** A call as a model prints it: an object that names the tool, then gives the arguments. */
  predicate IsCallObject(cl: Classes, o: Value) {
    && o.Object? && Good(o) && o.members.Member? && o.members.rest.Member?
    && PrintText(o.members.key) == "\"name\""
    && o.members.value.Text? && PrintPieces(o.members.value.pieces) != ""
    && InClass(cl.word, PrintPieces(o.members.value.pieces))
    && PrintText(o.members.rest.key) == "\"arguments\""
  }

  lemma LiteralAt(cl: Classes, k: nat, s: string)
    requires k < |CALL| && CALL[k].Literal? && Matches(cl, CALL[k + 1..], s)
    ensures Matches(cl, CALL[k..], CALL[k].text + s)
  {
    assert CALL[k..][1..] == CALL[k + 1..];
    assert (CALL[k].text + s)[|CALL[k].text|..] == s;
  }

  lemma RepeatAt(cl: Classes, k: nat, a: string, s: string)
    requires k < |CALL| && !CALL[k].Literal? && Matches(cl, CALL[k + 1..], s)
    requires InClass(if CALL[k].Blanks? then cl.blank else cl.word, a) && (CALL[k].Word? ==> a != "")
    ensures Matches(cl, CALL[k..], a + s)
  {
    assert CALL[k..][1..] == CALL[k + 1..];
    assert (a + s)[..|a|] == a && (a + s)[|a|..] == s;
  }

  lemma SpacesAreBlanks(cl: Classes, s: string)
    requires Sane(cl) && Spaces(s)
    ensures InClass(cl.blank, s)
  {
    forall i | 0 <= i < |s| ensures cl.blank(s[i]) {
      assert s[i] in s;
    }
  }

  /** A call's head from the tool's name on. */
  function FromName(name: string, s4: string, s5: string, s6: string, rest: string): string {
    name + ("\"" + (s4 + ("," + (s5 + ("\"arguments\"" + (s6 + (":" + rest)))))))
  }

  lemma Tokens()
    ensures |CALL| == 15 && CALL[0] == Literal("{") && CALL[2] == Literal("\"name\"") && CALL[4] == Literal(":")
    ensures CALL[6] == Literal("\"") && CALL[8] == Literal("\"") && CALL[10] == Literal(",")
    ensures CALL[12] == Literal("\"arguments\"") && CALL[14] == Literal(":") && CALL[7].Word?
    ensures CALL[1].Blanks? && CALL[3].Blanks? && CALL[5].Blanks? && CALL[9].Blanks? && CALL[11].Blanks? && CALL[13].Blanks?
  {
  }

  lemma FromNameMatches(cl: Classes, name: string, s4: string, s5: string, s6: string, rest: string)
    requires Sane(cl) && Spaces(s4) && Spaces(s5) && Spaces(s6) && name != "" && InClass(cl.word, name)
    ensures Matches(cl, CALL[7..], FromName(name, s4, s5, s6, rest))
  {
    Tokens();
    hide Matches, InClass, CALL;
    SpacesAreBlanks(cl, s4);
    SpacesAreBlanks(cl, s5);
    SpacesAreBlanks(cl, s6);
    NothingMatches(cl, rest);
    LiteralAt(cl, 14, rest);
    RepeatAt(cl, 13, s6, ":" + rest);
    LiteralAt(cl, 12, s6 + (":" + rest));
    var t := "\"arguments\"" + (s6 + (":" + rest));
    RepeatAt(cl, 11, s5, t);
    LiteralAt(cl, 10, s5 + t);
    RepeatAt(cl, 9, s4, "," + (s5 + t));
    LiteralAt(cl, 8, s4 + ("," + (s5 + t)));
    RepeatAt(cl, 7, name, "\"" + (s4 + ("," + (s5 + t))));
  }

  lemma CallMatches(cl: Classes, s1: string, s2: string, s3: string, t: string)
    requires Sane(cl) && Spaces(s1) && Spaces(s2) && Spaces(s3) && Matches(cl, CALL[7..], t)
    ensures Matches(cl, CALL, "{" + (s1 + ("\"name\"" + (s2 + (":" + (s3 + ("\"" + t)))))))
  {
    Tokens();
    hide Matches, InClass, CALL;
    SpacesAreBlanks(cl, s1);
    SpacesAreBlanks(cl, s2);
    SpacesAreBlanks(cl, s3);
    LiteralAt(cl, 6, t);
    RepeatAt(cl, 5, s3, "\"" + t);
    LiteralAt(cl, 4, s3 + ("\"" + t));
    var u := ":" + (s3 + ("\"" + t));
    RepeatAt(cl, 3, s2, u);
    LiteralAt(cl, 2, s2 + u);
    RepeatAt(cl, 1, s1, "\"name\"" + (s2 + u));
    LiteralAt(cl, 0, s1 + ("\"name\"" + (s2 + u)));
    assert CALL[0..] == CALL;
  }

  lemma NothingMatches(cl: Classes, s: string)
    ensures Matches(cl, CALL[15..], s)
  {
  }

  lemma Regrouped(a: string, b: string, c: string, d: string)
    ensures a + b + c + d == a + (b + (c + d))
  {
  }

  lemma Nested(a: string, b: string, c: string, d: string, e: string, f: string, g: string, h: string, t: string)
    ensures a + b + c + d + e + f + g + h + t == a + (b + (c + (d + (e + (f + (g + (h + t)))))))
  {
    Regrouped(a, b, c, d);
    Regrouped(a + b + c + d, e, f, g + (h + t));
    Regrouped(a + b + c + d + e + f, g, h, t);
    Regrouped(a, b, c, d + (e + (f + (g + (h + t)))));
  }

  lemma TakeLiteral(cl: Classes, k: nat, text: string, s: string) returns (rest: string)
    requires k < |CALL| && CALL[k] == Literal(text) && Matches(cl, CALL[k..], s)
    ensures s == text + rest && Matches(cl, CALL[k + 1..], rest)
  {
    assert CALL[k..][1..] == CALL[k + 1..];
    rest := s[|text|..];
  }

  lemma TakeBlanks(cl: Classes, k: nat, s: string) returns (run: string, rest: string)
    requires k < |CALL| && CALL[k].Blanks? && Matches(cl, CALL[k..], s)
    ensures s == run + rest && Matches(cl, CALL[k + 1..], rest) && InClass(cl.blank, run)
  {
    assert CALL[k..][1..] == CALL[k + 1..];
    var n :| 0 <= n <= |s| && InClass(cl.blank, s[..n]) && Matches(cl, CALL[k + 1..], s[n..]);
    run, rest := s[..n], s[n..];
  }

  lemma TakeWord(cl: Classes, k: nat, s: string) returns (run: string, rest: string)
    requires k < |CALL| && CALL[k].Word? && Matches(cl, CALL[k..], s)
    ensures s == run + rest && Matches(cl, CALL[k + 1..], rest) && InClass(cl.word, run) && run != ""
  {
    assert CALL[k..][1..] == CALL[k + 1..];
    var n :| 0 < n <= |s| && InClass(cl.word, s[..n]) && Matches(cl, CALL[k + 1..], s[n..]);
    run, rest := s[..n], s[n..];
  }

  lemma NameSpells(cl: Classes, s: string) returns (name: string, b4: string, b5: string, b6: string, rest: string)
    requires Matches(cl, CALL[7..], s)
    ensures InClass(cl.blank, b4) && InClass(cl.blank, b5) && InClass(cl.blank, b6) && name != "" && InClass(cl.word, name)
    ensures s == FromName(name, b4, b5, b6, rest)
  {
    Tokens();
    hide Matches, InClass, CALL;
    var t7, t8, t9, t10, t11, t12, t13;
    name, t7 := TakeWord(cl, 7, s);
    t8 := TakeLiteral(cl, 8, "\"", t7);
    b4, t9 := TakeBlanks(cl, 9, t8);
    t10 := TakeLiteral(cl, 10, ",", t9);
    b5, t11 := TakeBlanks(cl, 11, t10);
    t12 := TakeLiteral(cl, 12, "\"arguments\"", t11);
    b6, t13 := TakeBlanks(cl, 13, t12);
    rest := TakeLiteral(cl, 14, ":", t13);
  }

  lemma OpeningSpells(cl: Classes, s: string) returns (b1: string, b2: string, b3: string, t: string)
    requires Matches(cl, CALL[0..], s)
    ensures InClass(cl.blank, b1) && InClass(cl.blank, b2) && InClass(cl.blank, b3)
    ensures s == "{" + (b1 + ("\"name\"" + (b2 + (":" + (b3 + ("\"" + t)))))) && Matches(cl, CALL[7..], t)
  {
    Tokens();
    hide Matches, InClass, CALL;
    var t0, t1, t2, t3, t4, t5;
    t0 := TakeLiteral(cl, 0, "{", s);
    b1, t1 := TakeBlanks(cl, 1, t0);
    t2 := TakeLiteral(cl, 2, "\"name\"", t1);
    b2, t3 := TakeBlanks(cl, 3, t2);
    t4 := TakeLiteral(cl, 4, ":", t3);
    b3, t5 := TakeBlanks(cl, 5, t4);
    t := TakeLiteral(cl, 6, "\"", t5);
  }

  /** Whatever is taken for a call opens an object, names a tool, and goes on to its arguments, with nothing but blanks
      between. */
  lemma HeadSpells(cl: Classes, s: string)
      returns (b1: string, b2: string, b3: string, name: string, b4: string, b5: string, b6: string, rest: string)
    requires Sane(cl) && IsHead(cl, s)
    ensures InClass(cl.blank, b1) && InClass(cl.blank, b2) && InClass(cl.blank, b3)
    ensures InClass(cl.blank, b4) && InClass(cl.blank, b5) && InClass(cl.blank, b6) && name != "" && InClass(cl.word, name)
    ensures s == "{" + (b1 + ("\"name\"" + (b2 + (":" + (b3 + ("\"" + FromName(name, b4, b5, b6, rest)))))))
  {
    hide *;
    HeadIsTheMatch(cl, s);
    assert CALL[0..] == CALL;
    var t;
    b1, b2, b3, t := OpeningSpells(cl, s);
    name, b4, b5, b6, rest := NameSpells(cl, t);
  }

  /** A printed call is a head, whatever is printed after it. */
  lemma CallObjectIsHead(cl: Classes, o: Value, suffix: string)
    requires Sane(cl) && IsCallObject(cl, o)
    ensures IsHead(cl, Print(o) + suffix)
  {
    hide IsHead, Matches, Print, PrintPieces, PrintMembers, Good, Sane, GoodText, Spaces, InClass, FromName;
    var m := o.members;
    var r := m.rest;
    var name := PrintPieces(m.value.pieces);
    SpacesOfCall(o);
    var tail := CallTail(r, suffix);
    CallText(cl, o, suffix);
    FromNameMatches(cl, name, m.after, r.before, r.afterKey, tail);
    CallMatches(cl, o.space + m.before, m.afterKey, m.beforeValue, FromName(name, m.after, r.before, r.afterKey, tail));
    HeadIsTheMatch(cl, Print(o) + suffix);
  }

  lemma SpacesOfCall(o: Value)
    requires o.Object? && Good(o) && o.members.Member? && o.members.rest.Member?
    ensures Spaces(o.space + o.members.before)
    ensures Spaces(o.members.afterKey) && Spaces(o.members.beforeValue) && Spaces(o.members.after)
    ensures Spaces(o.members.rest.before) && Spaces(o.members.rest.afterKey)
  {
    assert GoodMembers(o.members) && GoodMembers(o.members.rest);
  }

  function PrintRest(ms: Members): string {
    if ms.NoMember? then "" else "," + PrintMembers(ms)
  }

  /** What a call prints from the arguments on. */
  function CallTail(r: Members, suffix: string): string
    requires r.Member?
  {
    r.beforeValue + (Print(r.value) + (r.after + (PrintRest(r.rest) + ("}" + suffix))))
  }

  lemma MembersText(m: Members, t: string)
    requires m.Member?
    ensures PrintMembers(m) + t
            == m.before + (PrintText(m.key) + (m.afterKey + (":" + (m.beforeValue + (Print(m.value)
               + (m.after + (PrintRest(m.rest) + t)))))))
  {
    var key, value := PrintText(m.key), Print(m.value);
    assert PrintMembers(m) + t == m.before + key + m.afterKey + ":" + m.beforeValue + value + m.after + PrintRest(m.rest) + t;
    hide *;
    Nested(m.before, key, m.afterKey, ":", m.beforeValue, value, m.after, PrintRest(m.rest), t);
  }

  lemma CallText(cl: Classes, o: Value, suffix: string)
    requires IsCallObject(cl, o)
    ensures var m, r := o.members, o.members.rest;
            Print(o) + suffix
            == "{" + ((o.space + m.before) + ("\"name\"" + (m.afterKey + (":" + (m.beforeValue + ("\""
               + FromName(PrintPieces(m.value.pieces), m.after, r.before, r.afterKey, CallTail(r, suffix))))))))
  {
    hide PrintMembers, PrintPieces, Good, InClass;
    var m, r := o.members, o.members.rest;
    var name := PrintPieces(m.value.pieces);
    var t := "}" + suffix;
    assert PrintRest(r) == "," + PrintMembers(r) && Print(m.value) == "\"" + name + "\"";
    assert Print(o) == "{" + o.space + PrintMembers(m) + "}";
    hide *;
    MembersText(m, t);
    MembersText(r, t);
    var u := m.after + (PrintRest(r) + t);
    var w := "\"name\"" + (m.afterKey + (":" + (m.beforeValue + (("\"" + name + "\"") + u))));
    Regrouped("{", o.space, PrintMembers(m), t);
    assert "{" + o.space + PrintMembers(m) + "}" + suffix == "{" + o.space + PrintMembers(m) + t;
    assert o.space + (m.before + w) == (o.space + m.before) + w;
    assert ("\"" + name + "\"") + u == "\"" + (name + ("\"" + u));
    assert ("," + PrintMembers(r)) + t == "," + (PrintMembers(r) + t);
  }

  /** A call printed into running text, and the prose after it. */
  datatype Printed<A> = Printed(written: Value, call: A, after: string)

  function Document<A>(prose: string, ps: seq<Printed<A>>): string
    decreases |ps|
  {
    if ps == [] then prose else prose + (Print(ps[0].written) + Document(ps[0].after, ps[1..]))
  }

  predicate NoBrace(s: string) {
    forall i :: 0 <= i < |s| ==> s[i] != '{'
  }

  /** Prose without opening braces, calls that the JSON library reads as what they are. */
  predicate IsPrinted<A(==)>(cl: Classes, decode: string -> Option<A>, p: Printed<A>) {
    IsCallObject(cl, p.written) && NoBrace(p.after) && decode(Print(p.written)) == Some(p.call)
  }

  predicate AllPrinted<A(==)>(cl: Classes, decode: string -> Option<A>, ps: seq<Printed<A>>) {
    forall i :: 0 <= i < |ps| ==> IsPrinted(cl, decode, ps[i])
  }

  lemma ProseIsNoHead(cl: Classes, prose: string, t: string, k: nat)
    requires NoBrace(prose) && k < |prose|
    ensures !IsHead(cl, (prose + t)[k..])
  {
    hide IsHead;
    if IsHead(cl, (prose + t)[k..]) { HeadIsBrace(cl, (prose + t)[k..]); }
  }

  /** The first head in prose followed by a head is that one. */
  lemma SearchSkipsProse(cl: Classes, prose: string, t: string)
    requires NoBrace(prose) && IsHead(cl, t)
    ensures Search(cl, prose + t) == Some(|prose|)
  {
    hide *;
    HeadIsBrace(cl, t);
    assert (prose + t)[|prose|..] == t;
    var found := Search(cl, prose + t);
    if found.Some? && found.value < |prose| { ProseIsNoHead(cl, prose, t, found.value); }
  }

  lemma SearchFindsNone(cl: Classes, prose: string)
    requires NoBrace(prose)
    ensures Search(cl, prose) == None
  {
    hide IsHead, Search;
    if Search(cl, prose).Some? { HeadIsBrace(cl, prose[Search(cl, prose).value..]); }
  }

  /** One printed call is cut out exactly. */
  lemma CutsTheCall(cl: Classes, prose: string, o: Value, rest: string)
    requires Sane(cl) && NoBrace(prose) && IsCallObject(cl, o)
    ensures Cut(cl, prose + (Print(o) + rest)) == Some((|prose|, |prose| + |Print(o)|))
  {
    hide IsHead, Search, Print, PrintMembers, Length, Sane, NoBrace;
    var t := Print(o) + rest;
    CallObjectIsHead(cl, o, rest);
    SearchSkipsProse(cl, prose, t);
    assert (prose + t)[|prose|..] == t;
    ScanInvertsPrint(o, rest);
  }

  function Expected<A>(prose: string, ps: seq<Printed<A>>): seq<Part<A>>
    decreases |ps|
  {
    if ps == [] then [Kept(prose)]
    else [Kept(prose), Removed(Print(ps[0].written), ps[0].call)] + Expected(ps[0].after, ps[1..])
  }

  /** Brace-free prose with calls printed into it is cut into exactly that prose and those calls. */
  lemma {:induction false} PrintedIsCut<A>(cl: Classes, decode: string -> Option<A>, prose: string, ps: seq<Printed<A>>)
    requires Sane(cl) && NoBrace(prose) && AllPrinted(cl, decode, ps)
    ensures Parts(cl, decode, Document(prose, ps)) == Expected(prose, ps)
    decreases |ps|
  {
    hide Sane, Search, Print, IsCallObject, Cut;
    if ps == [] {
      SearchFindsNone(cl, prose);
      CutsNothing(cl, prose);
    } else {
      assert IsPrinted(cl, decode, ps[0]);
      var o, rest := Print(ps[0].written), Document(ps[0].after, ps[1..]);
      CutsTheCall(cl, prose, ps[0].written, rest);
      PrintedIsCut(cl, decode, ps[0].after, ps[1..]);
      ThreeParts(prose, o, rest);
      BlobIs(decode, o);
    }
  }

  lemma ThreeParts<T>(a: seq<T>, b: seq<T>, c: seq<T>)
    ensures var s := a + (b + c); s[..|a|] == a && s[|a|..|a| + |b|] == b && s[|a| + |b|..] == c
  {
  }

  lemma CutsNothing(cl: Classes, s: string)
    requires Search(cl, s) == None
    ensures Cut(cl, s) == None
  {
  }

  lemma {:induction false} FirstPart<A>(p: Part<A>, ps: seq<Part<A>>)
    ensures KeptTexts([p] + ps) == (if p.Kept? then [p.text] else []) + KeptTexts(ps)
    ensures Calls([p] + ps) == (if p.Kept? then [] else [p.call]) + Calls(ps)
  {
    if ps == [] {
      assert [p] + ps == [p];
    } else {
      FirstPart(p, ps[..|ps| - 1]);
      assert ([p] + ps)[..|ps|] == [p] + ps[..|ps| - 1];
    }
  }

  /** From such a reply exactly the printed calls are recovered, in order, and exactly the prose is kept. */
  lemma {:induction false} PrintedCallsAreRecovered<A>(cl: Classes, decode: string -> Option<A>, prose: string,
                                                       ps: seq<Printed<A>>)
    requires Sane(cl) && NoBrace(prose) && AllPrinted(cl, decode, ps)
    ensures Calls(Parts(cl, decode, Document(prose, ps))) == seq(|ps|, i requires 0 <= i < |ps| => ps[i].call)
    ensures KeptTexts(Parts(cl, decode, Document(prose, ps)))
            == [prose] + seq(|ps|, i requires 0 <= i < |ps| => ps[i].after)
    decreases |ps|
  {
    hide Sane, IsCallObject, Parts, Document, Calls, KeptTexts, Print;
    PrintedIsCut(cl, decode, prose, ps);
    var empty: seq<Part<A>> := [];
    NoParts<A>();
    FirstPart(Kept(prose), empty);
    if ps == [] {
      assert Expected(prose, ps) == [Kept(prose)] + empty;
    } else {
      var rest := Expected(ps[0].after, ps[1..]);
      var call := Removed(Print(ps[0].written), ps[0].call);
      assert IsPrinted(cl, decode, ps[0]);
      PrintedIsCut(cl, decode, ps[0].after, ps[1..]);
      PrintedCallsAreRecovered(cl, decode, ps[0].after, ps[1..]);
      FirstPart(call, rest);
      FirstPart(Kept(prose), [call] + rest);
      assert Expected(prose, ps) == [Kept(prose)] + ([call] + rest);
    }
  }
}
