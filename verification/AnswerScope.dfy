/**
  What a turn asks about, and how much of the conversation it may be answered
  from: a question about the document that stands on its own words is answered
  without the turns about the project's own code.
 */
module AnswerScope {
  import opened Strings
  import opened Wrappers

  datatype Scope = Normative | Implementation | Mixed | General

  /** The vocabularies and patterns a message is searched for. */
  datatype Lexicon = Lexicon(
    strip: string -> string,
    localSubject: string -> bool,
    change: string -> bool,
    codeShaped: string -> bool,
    document: string -> bool,
    referent: string -> bool)

  predicate IsLocal(s: Scope) {
    s == Implementation || s == Mixed
  }

  predicate NamesLocal(lex: Lexicon, message: string) {
    var text := lex.strip(message);
    lex.localSubject(text) || lex.change(text) || lex.codeShaped(text)
  }

  predicate RefersBack(lex: Lexicon, message: string) {
    lex.referent(lex.strip(message))
  }

  function Of(lex: Lexicon, message: string, prior: Option<Scope>, standardBound: bool): Scope {
    var document := lex.document(lex.strip(message));
    var local := NamesLocal(lex, message);
    var back := prior.Some? && RefersBack(lex, message);
    if back && IsLocal(prior.value) then (if document then Mixed else prior.value)
    else if local && document then Mixed
    else if local then Implementation
    else if document then Normative
    else if back then prior.value
    else if standardBound then Normative
    else General
  }

  /** A scope is local exactly when the message names something local or points back at a turn that was. */
  lemma LocalIff(lex: Lexicon, message: string, prior: Option<Scope>, standardBound: bool)
    ensures IsLocal(Of(lex, message, prior, standardBound))
            <==> NamesLocal(lex, message) || (prior.Some? && IsLocal(prior.value) && RefersBack(lex, message))
  {
  }

  /** Whose words decide: with a document named and something local, or a document named while pointing back at a
      local turn, both; the document alone where nothing local is meant and it is named, or bound and nothing is. */
  lemma ScopeIs(lex: Lexicon, message: string, prior: Option<Scope>, standardBound: bool)
    ensures var scope := Of(lex, message, prior, standardBound);
            var named, local := lex.document(lex.strip(message)), IsLocal(scope);
            var back := prior.Some? && RefersBack(lex, message);
            && (named ==> scope.Mixed? || scope.Normative?) && (named && local ==> scope.Mixed?)
            && (!named && !local && !back ==> scope == if standardBound then Normative else General)
            && (!named && back && (!NamesLocal(lex, message) || IsLocal(prior.value)) ==> scope == prior.value)
            && (!named && NamesLocal(lex, message) && !(back && IsLocal(prior.value)) ==> scope.Implementation?)
  {
  }

  // ----------------------------------------------------------- what was actually said

  const MARKER := "\n\n[Tools executed during this turn"

  /** What was said, without the tool transcript from its marker on. */
  function SpokenPart(text: string): string {
    Before(MARKER, text)
  }

  /** Whatever transcript follows what was said, only what was said is left, as long as no marker begins in it. */
  lemma TranscriptIsCut(said: string, transcript: string)
    requires !Has(MARKER, said + MARKER[..|MARKER| - 1])
    ensures SpokenPart(said + MARKER + transcript) == said && SpokenPart(said) == said
  {
    hide Has, Before;
    var marker, head := MARKER, MARKER[..|MARKER| - 1];
    assert said + MARKER + transcript == said + marker + transcript;
    BeforeIsWhatStood(marker, said, transcript);
    PrefixHasNone(marker, said, head);
    BeforeIsAll(marker, said);
  }

  // --------------------------------------------------------- what of history is carried

  datatype Message = Message(role: string, content: string)

  const ELIDED_ASK := "[an earlier turn about this project's own code]"
  const ELIDED_REPLY :=
    "[the answer to it, not repeated here: it described this project's code and is not evidence about the document]"

  predicate Withholds(scope: Scope, standardBound: bool, selfContained: bool) {
    standardBound && scope == Normative && selfContained
  }

  /** The exchange a message opens is about local things, by its own words alone. */
  predicate Opens(lex: Lexicon, m: Message) {
    IsLocal(Of(lex, SpokenPart(m.content), None, true))
  }

  /** The exchange the `i`-th message belongs to is about local things: the last question up to it says so. */
  predicate InLocalExchange(lex: Lexicon, history: seq<Message>, i: nat)
    requires i < |history|
  {
    if history[i].role == "user" then Opens(lex, history[i])
    else i > 0 && InLocalExchange(lex, history, i - 1)
  }

  function CarriedMessage(lex: Lexicon, history: seq<Message>, i: nat): Message
    requires i < |history|
  {
    var m := history[i];
    var local := InLocalExchange(lex, history, i);
    if m.role == "user" then m.(content := if local then ELIDED_ASK else SpokenPart(m.content))
    else m.(content := if local then ELIDED_REPLY else m.content)
  }

  function CarriedHistory(lex: Lexicon, history: seq<Message>): (kept: seq<Message>)
    ensures |kept| == |history| && forall i :: 0 <= i < |history| ==> kept[i].role == history[i].role
  {
    seq(|history|, i requires 0 <= i < |history| => CarriedMessage(lex, history, i))
  }

  method Carried(lex: Lexicon, history: seq<Message>, scope: Scope, standardBound: bool, selfContained: bool)
      returns (kept: seq<Message>)
    ensures standardBound && scope.Normative? && selfContained ==> kept == CarriedHistory(lex, history)
    ensures !(standardBound && scope.Normative? && selfContained) ==> kept == history
  {
    if !Withholds(scope, standardBound, selfContained) {
      return history;
    }
    kept := [];
    var local := false;
    for i := 0 to |history|
      invariant local == (i > 0 && InLocalExchange(lex, history, i - 1))
      invariant kept == CarriedHistory(lex, history)[..i]
    {
      var m := history[i];
      if m.role == "user" {
        var said := SpokenPart(m.content);
        local := IsLocal(Of(lex, said, None, standardBound));
        kept := kept + [Message(m.role, if local then ELIDED_ASK else said)];
      } else {
        kept := kept + [Message(m.role, if local then ELIDED_REPLY else m.content)];
      }
    }
  }

  /** Whatever the turn before it was about: with a document bound, the project's material is withheld from exactly
      the questions that name nothing local and point back at nothing. */
  lemma WithheldFromIff(lex: Lexicon, message: string, prior: Option<Scope>, bound: bool)
    ensures Withholds(Of(lex, message, prior, bound), bound, !RefersBack(lex, message))
            <==> bound && !NamesLocal(lex, message) && !RefersBack(lex, message)
  {
  }

  /** Withheld is an exchange whose question, as far as it was spoken, names something local: each message of it is
      replaced by a note; every other is carried, questions without their transcripts. */
  lemma CarriedIs(lex: Lexicon, history: seq<Message>, q: nat, i: nat)
    requires q <= i < |history| && history[q].role == "user"
    requires forall k :: q < k <= i ==> history[k].role != "user"
    ensures var kept, local := CarriedHistory(lex, history)[i], NamesLocal(lex, SpokenPart(history[q].content));
            && kept.role == history[i].role
            && (local ==> kept.content == if i == q then ELIDED_ASK else ELIDED_REPLY)
            && (!local ==> kept.content == if i == q then SpokenPart(history[i].content) else history[i].content)
  {
    hide NamesLocal, SpokenPart;
    LastQuestionDecides(lex, history, q, i);
  }

  lemma {:induction false} LastQuestionDecides(lex: Lexicon, history: seq<Message>, q: nat, i: nat)
    requires q <= i < |history| && history[q].role == "user"
    requires forall k :: q < k <= i ==> history[k].role != "user"
    ensures InLocalExchange(lex, history, i) <==> NamesLocal(lex, SpokenPart(history[q].content))
  {
    hide NamesLocal, SpokenPart;
    if q < i { LastQuestionDecides(lex, history, q, i - 1); }
  }

  /** Before the first question nothing is withheld. */
  lemma {:induction false} NothingBeforeAQuestion(lex: Lexicon, history: seq<Message>, i: nat)
    requires i < |history| && forall k :: 0 <= k <= i ==> history[k].role != "user"
    ensures CarriedHistory(lex, history)[i] == history[i] && !InLocalExchange(lex, history, i)
  {
    if i > 0 { NothingBeforeAQuestion(lex, history, i - 1); }
  }

  // -------------------------------------------------------------------- what leaks

  /** Two histories that differ only in what may not be carried: what was asked and answered about local
      things, and the tool transcripts on questions. */
  ghost predicate AgreeOnTheRest(lex: Lexicon, a: seq<Message>, b: seq<Message>) {
    && |a| == |b|
    && forall i :: 0 <= i < |a| ==> AgreeAt(lex, a, b, i)
  }

  ghost predicate AgreeAt(lex: Lexicon, a: seq<Message>, b: seq<Message>, i: nat)
    requires i < |a| == |b|
  {
    && a[i].role == b[i].role
    && InLocalExchange(lex, a, i) == InLocalExchange(lex, b, i)
    && (!InLocalExchange(lex, a, i) ==>
          if a[i].role == "user" then SpokenPart(a[i].content) == SpokenPart(b[i].content)
          else a[i].content == b[i].content)
  }

  /** The classes of the questions decide which exchanges are local. */
  lemma {:induction false} QuestionsDecide(lex: Lexicon, a: seq<Message>, b: seq<Message>, i: nat)
    requires i < |a| == |b|
    requires forall k :: 0 <= k < |a| ==> a[k].role == b[k].role
    requires forall k :: 0 <= k < |a| && a[k].role == "user" ==> Opens(lex, a[k]) == Opens(lex, b[k])
    ensures InLocalExchange(lex, a, i) == InLocalExchange(lex, b, i)
  {
    if i > 0 { QuestionsDecide(lex, a, b, i - 1); }
  }

  /** Nobody wrote the notes that stand for what is withheld. */
  ghost predicate NoNotes(lex: Lexicon, history: seq<Message>) {
    forall i :: 0 <= i < |history| ==> history[i].content != ELIDED_REPLY && SpokenPart(history[i].content) != ELIDED_ASK
  }

  /** Nothing of what is withheld reaches what is carried, whatever the two histories say there. */
  lemma NothingWithheldLeaks(lex: Lexicon, a: seq<Message>, b: seq<Message>)
    requires AgreeOnTheRest(lex, a, b)
    ensures CarriedHistory(lex, a) == CarriedHistory(lex, b)
  {
    hide InLocalExchange;
    forall i | 0 <= i < |a| ensures CarriedMessage(lex, a, i) == CarriedMessage(lex, b, i) {
      assert AgreeAt(lex, a, b, i);
    }
  }

  /** And nothing else is withheld: histories are carried alike exactly when they agree on the rest. */
  lemma CarriedAlikeIff(lex: Lexicon, a: seq<Message>, b: seq<Message>)
    requires NoNotes(lex, a) && NoNotes(lex, b)
    ensures CarriedHistory(lex, a) == CarriedHistory(lex, b) <==> AgreeOnTheRest(lex, a, b)
  {
    hide InLocalExchange;
    if CarriedHistory(lex, a) == CarriedHistory(lex, b) {
      forall i | 0 <= i < |a| ensures AgreeAt(lex, a, b, i) {
        assert CarriedHistory(lex, a)[i] == CarriedMessage(lex, a, i);
        assert CarriedHistory(lex, b)[i] == CarriedMessage(lex, b, i);
      }
    }
    if AgreeOnTheRest(lex, a, b) { NothingWithheldLeaks(lex, a, b); }
  }

  /** Where the note holds no transcript and names local things, as it does, carrying what was carried changes
      nothing. */
  lemma CarriedTwice(lex: Lexicon, history: seq<Message>)
    requires !Has(MARKER, ELIDED_ASK) && NamesLocal(lex, ELIDED_ASK)
    ensures CarriedHistory(lex, CarriedHistory(lex, history)) == CarriedHistory(lex, history)
  {
    hide InLocalExchange, NamesLocal, Has, Before;
    var once := CarriedHistory(lex, history);
    BeforeIsAll(MARKER, ELIDED_ASK);
    forall i | 0 <= i < |history| ensures CarriedMessage(lex, once, i) == CarriedMessage(lex, history, i) {
      assert once[i] == CarriedMessage(lex, history, i);
      StaysLocal(lex, history, i);
      BeforeHasNone(MARKER, history[i].content);
      BeforeIsAll(MARKER, SpokenPart(history[i].content));
    }
  }

  lemma {:induction false} StaysLocal(lex: Lexicon, history: seq<Message>, i: nat)
    requires i < |history| && NamesLocal(lex, ELIDED_ASK) && SpokenPart(ELIDED_ASK) == ELIDED_ASK
    ensures InLocalExchange(lex, CarriedHistory(lex, history), i) == InLocalExchange(lex, history, i)
  {
    hide Before, Has;
    if history[i].role == "user" {
      BeforeHasNone(MARKER, history[i].content);
      BeforeIsAll(MARKER, SpokenPart(history[i].content));
    } else if i > 0 {
      StaysLocal(lex, history, i - 1);
    }
  }

  // --------------------------------------------------- what a question was about, then and now

  /** The scope a question had when it was asked: the question before it, by its own words, is its prior. */
  function AskedScope(lex: Lexicon, before: Option<string>, message: string): Scope {
    var prior := match before
      case Some(m) => Some(Of(lex, SpokenPart(m), None, true))
      case None => Some(Of(lex, "", None, true));
    Of(lex, message, prior, true)
  }

  /** An exchange is withheld for what its question names, not for what it was about: the two agree unless the
      question names nothing local and points back at one that does. The answer to such a follow-up describes
      the project's code and is carried. What a question said is what it holds before a tool transcript. */
  lemma WithheldForWhatItWasAboutIff(lex: Lexicon, before: string, m: Message)
    ensures var said := SpokenPart(m.content);
            (Opens(lex, m) <==> IsLocal(AskedScope(lex, Some(before), said)))
            <==> !(!NamesLocal(lex, said) && RefersBack(lex, said) && NamesLocal(lex, SpokenPart(before)))
  {
    hide SpokenPart, NamesLocal, RefersBack;
  }
}
