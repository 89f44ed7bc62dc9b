/**
  The index kept of the skill files: how it is made to agree with them, and
  when it does.
 */
module SkillReconcile {
  import opened Wrappers
  import opened Strings
  import opened SkillFile

  // ---------------------------------------------------------------------- the index

  /** What is embedded, its digest, and the scope and requirements kept beside it. */
  datatype Entry = Entry(digest: string, document: string, scope: string, requires_: string)

  function EntryOf(digest: string -> string, s: Skill): Entry {
    Entry(digest(DocumentOf(s)), DocumentOf(s), Join(",", s.scope), Join(",", s.requires_))
  }

  function DocumentOf(s: Skill): string {
    if s.description == "" then "# Skill: " + s.name + "\n\n" + s.body
    else "# Skill: " + s.name + "\n\n" + s.description + "\n\n" + s.body
  }

  predicate IsCurrent(digest: string -> string, index: map<string, Entry>, s: Skill) {
    s.name in index && index[s.name].digest == digest(DocumentOf(s))
  }

  function Names(skills: seq<Skill>): set<string> {
    set i | 0 <= i < |skills| :: skills[i].name
  }

  /** No two skills that the index does not have as they are share a name. */
  predicate DistinctStale(digest: string -> string, was: map<string, Entry>, skills: seq<Skill>) {
    forall i, j :: 0 <= i < j < |skills| && !IsCurrent(digest, was, skills[i]) && !IsCurrent(digest, was, skills[j])
                   ==> skills[i].name != skills[j].name
  }

  /** Which of the first `n` skills the index does not have as they are. */
  function Stale(digest: string -> string, was: map<string, Entry>, skills: seq<Skill>, n: nat): set<nat>
    requires n <= |skills|
  {
    set i: nat | i < n && !IsCurrent(digest, was, skills[i])
  }

  lemma OneMoreStale(digest: string -> string, was: map<string, Entry>, skills: seq<Skill>, i: nat)
    requires i < |skills|
    ensures |Stale(digest, was, skills, i + 1)|
            == |Stale(digest, was, skills, i)| + if IsCurrent(digest, was, skills[i]) then 0 else 1
  {
    hide IsCurrent;
    var more, less := Stale(digest, was, skills, i + 1), Stale(digest, was, skills, i);
    if IsCurrent(digest, was, skills[i]) {
      assert more == less;
    } else {
      assert more == less + {i};
    }
  }

  /** The names among the first `n` skills that the index does not know. */
  function Unknown(was: map<string, Entry>, skills: seq<Skill>, n: nat): set<string>
    requires n <= |skills|
  {
    Names(skills[..n]) - was.Keys
  }

  lemma OneMoreUnknown(was: map<string, Entry>, skills: seq<Skill>, i: nat)
    requires i < |skills| && (skills[i].name in was || skills[i].name !in Names(skills[..i]))
    ensures |Unknown(was, skills, i + 1)| == |Unknown(was, skills, i)| + if skills[i].name in was then 0 else 1
  {
    hide Names;
    NamesGrow(skills, i);
    OneMoreNew(Names(skills[..i]), was.Keys, skills[i].name);
  }

  lemma OneMoreNew(names: set<string>, known: set<string>, name: string)
    requires name in known || name !in names
    ensures |names + {name} - known| == |names - known| + if name in known then 0 else 1
  {
    if name in known {
      assert names + {name} - known == names - known;
    } else {
      assert names + {name} - known == names - known + {name};
    }
  }

  lemma AllUnknown(was: map<string, Entry>, skills: seq<Skill>)
    ensures Unknown(was, skills, |skills|) == Names(skills) - was.Keys && Unknown(was, skills, 0) == {}
  {
    assert skills[..|skills|] == skills;
  }

  lemma NoneStale(digest: string -> string, was: map<string, Entry>, skills: seq<Skill>)
    ensures Stale(digest, was, skills, 0) == {}
  {
  }

  /** By their digests, the index answers with every skill there is, as it is, and with no other. */
  predicate Agrees(digest: string -> string, index: map<string, Entry>, skills: seq<Skill>) {
    && index.Keys == Names(skills)
    && forall i :: 0 <= i < |skills| ==> IsCurrent(digest, index, skills[i])
  }

  /** The stale skills of the first `n` are written anew; a name without one is as it was. */
  ghost predicate UpTo(digest: string -> string, was: map<string, Entry>, now: map<string, Entry>, skills: seq<Skill>,
                       n: nat)
    requires n <= |skills|
  {
    && now.Keys == was.Keys + Names(skills[..n])
    && (forall i :: 0 <= i < n && !IsCurrent(digest, was, skills[i])
                    ==> skills[i].name in now && now[skills[i].name] == EntryOf(digest, skills[i]))
    && (forall name :: name in was && NoneStaleNamed(digest, was, skills, n, name) ==> now[name] == was[name])
  }

  predicate NoneStaleNamed(digest: string -> string, was: map<string, Entry>, skills: seq<Skill>, n: nat, name: string)
    requires n <= |skills|
  {
    forall i :: 0 <= i < n && skills[i].name == name ==> IsCurrent(digest, was, skills[i])
  }

  /** Every file's name is there and no other; what is stale is written anew, the rest kept. */
  ghost predicate IsReconciled(digest: string -> string, was: map<string, Entry>, now: map<string, Entry>,
                               skills: seq<Skill>)
  {
    && now.Keys == Names(skills)
    && (forall i :: 0 <= i < |skills| && !IsCurrent(digest, was, skills[i])
                    ==> skills[i].name in now && now[skills[i].name] == EntryOf(digest, skills[i]))
    && (forall name :: name in was && name in now && NoneStaleNamed(digest, was, skills, |skills|, name)
                       ==> now[name] == was[name])
  }

  datatype Counts = Counts(indexed: nat, removed: nat, added: nat)

  class SkillIndex {
    var entries: map<string, Entry>

    constructor ()
      ensures entries == map[]
    {
      entries := map[];
    }

    /** Make the index agree with the directory. Only what changed is embedded again; what has no file behind
        it is dropped; the counts say what moved. An id given twice is refused, and then nothing changes. */
    method Reconcile(digest: string -> string, skills: seq<Skill>) returns (result: Result<Counts, string>)
      modifies this
      ensures result.Success? <==> DistinctStale(digest, old(entries), skills)
      ensures result.Failure? ==> entries == old(entries)
      ensures result.Success? ==>
                && IsReconciled(digest, old(entries), entries, skills)
                && result.value.indexed == |Stale(digest, old(entries), skills, |skills|)|
                && result.value.removed == |old(entries).Keys - Names(skills)|
                && result.value.added == |Names(skills) - old(entries).Keys|
    {
      hide EntryOf, Names, Stale, IsCurrent, IsReconciled, UpTo, DistinctStale;
      var was := entries;
      if !DistinctStale(digest, was, skills) {
        return Failure("an id is given twice");
      }
      var now, indexed, added := Upserted(digest, was, skills);
      var gone := was.Keys - Names(skills);
      AllUpTo(digest, was, now, skills, gone);
      entries := now - gone;
      result := Success(Counts(indexed, |gone|, added));
    }
  }

  /** Embed what is not current; how many that were, and how many of them were new. */
  method Upserted(digest: string -> string, was: map<string, Entry>, skills: seq<Skill>)
      returns (now: map<string, Entry>, indexed: nat, added: nat)
    requires DistinctStale(digest, was, skills)
    ensures UpTo(digest, was, now, skills, |skills|)
    ensures indexed == |Stale(digest, was, skills, |skills|)|
    ensures added == |Names(skills) - was.Keys|
  {
    hide EntryOf, Names, Stale, Unknown, IsCurrent, DistinctStale, UpTo;
    now, indexed, added := was, 0, 0;
    NoneYet(digest, was, skills);
    NoneStale(digest, was, skills);
    AllUnknown(was, skills);
    for i := 0 to |skills|
      invariant UpTo(digest, was, now, skills, i)
      invariant indexed == |Stale(digest, was, skills, i)|
      invariant added == |Unknown(was, skills, i)|
    {
      var s := skills[i];
      NewOnce(digest, was, skills, i);
      OneMoreStale(digest, was, skills, i);
      OneMoreUnknown(was, skills, i);
      OneMoreUpTo(digest, was, now, skills, i);
      if !IsCurrent(digest, was, s) {
        indexed := indexed + 1;
        added := added + if s.name in was then 0 else 1;
        now := now[s.name := EntryOf(digest, s)];
      }
    }
  }

  lemma NoneYet(digest: string -> string, was: map<string, Entry>, skills: seq<Skill>)
    ensures UpTo(digest, was, was, skills, 0)
  {
    assert Names(skills[..0]) == {};
  }

  /** What the index does not know is stale, and so named once. */
  lemma NewOnce(digest: string -> string, was: map<string, Entry>, skills: seq<Skill>, i: nat)
    requires i < |skills| && DistinctStale(digest, was, skills)
    ensures skills[i].name in was || skills[i].name !in Names(skills[..i])
    ensures IsCurrent(digest, was, skills[i]) ==> skills[i].name in was
  {
    hide DocumentOf;
    if skills[i].name in Names(skills[..i]) {
      var k :| 0 <= k < |skills[..i]| && skills[..i][k].name == skills[i].name;
      assert skills[k].name == skills[i].name;
    }
  }

  lemma OneMoreUpTo(digest: string -> string, was: map<string, Entry>, now: map<string, Entry>, skills: seq<Skill>,
                    i: nat)
    requires i < |skills| && DistinctStale(digest, was, skills) && UpTo(digest, was, now, skills, i)
    ensures var s := skills[i];
            UpTo(digest, was, if IsCurrent(digest, was, s) then now else now[s.name := EntryOf(digest, s)], skills, i + 1)
  {
    hide EntryOf, Names, IsCurrent, NoneStaleNamed;
    NamesGrow(skills, i);
    CurrentIsThere(digest, was, skills[i]);
    var s := skills[i];
    var next := if IsCurrent(digest, was, s) then now else now[s.name := EntryOf(digest, s)];
    assert next.Keys == was.Keys + Names(skills[..i + 1]) by { KeysGrow(was.Keys, Names(skills[..i]), now.Keys, s.name); }
    forall name | name in was && NoneStaleNamed(digest, was, skills, i + 1, name) ensures next[name] == was[name] {
      FewerStaleNamed(digest, was, skills, i, name);
    }
  }

  lemma KeysGrow(known: set<string>, names: set<string>, keys: set<string>, name: string)
    requires keys == known + names
    ensures name in known ==> keys == known + (names + {name})
    ensures keys + {name} == known + (names + {name})
  {
  }

  lemma FewerStaleNamed(digest: string -> string, was: map<string, Entry>, skills: seq<Skill>, i: nat, name: string)
    requires i < |skills| && NoneStaleNamed(digest, was, skills, i + 1, name)
    ensures NoneStaleNamed(digest, was, skills, i, name)
    ensures skills[i].name == name ==> IsCurrent(digest, was, skills[i])
  {
    hide IsCurrent;
  }

  lemma CurrentIsThere(digest: string -> string, was: map<string, Entry>, s: Skill)
    ensures IsCurrent(digest, was, s) ==> s.name in was
    ensures EntryOf(digest, s).digest == digest(DocumentOf(s))
  {
  }

  lemma AllUpTo(digest: string -> string, was: map<string, Entry>, now: map<string, Entry>, skills: seq<Skill>,
                gone: set<string>)
    requires UpTo(digest, was, now, skills, |skills|) && gone == was.Keys - Names(skills)
    ensures IsReconciled(digest, was, now - gone, skills)
  {
    hide EntryOf, Names, IsCurrent;
    assert skills[..|skills|] == skills;
    forall i | 0 <= i < |skills| ensures skills[i].name in Names(skills) { NamesGrow(skills, i); }
  }

  // ------------------------------------------------------------------- what it comes to

  /** Files of one name hold one document. */
  predicate OneDigestEach(digest: string -> string, skills: seq<Skill>) {
    forall i, j :: 0 <= i < j < |skills| && skills[i].name == skills[j].name
                   ==> digest(DocumentOf(skills[i])) == digest(DocumentOf(skills[j]))
  }

  lemma SameDigest(digest: string -> string, skills: seq<Skill>, i: nat, j: nat)
    requires OneDigestEach(digest, skills) && i < |skills| && j < |skills| && skills[i].name == skills[j].name
    ensures digest(DocumentOf(skills[i])) == digest(DocumentOf(skills[j]))
  {
    hide DocumentOf;
  }

  /** Where files of one name hold one document, each skill is kept where it was current, else written anew. */
  lemma EachIsIndexed(digest: string -> string, was: map<string, Entry>, now: map<string, Entry>, skills: seq<Skill>,
                      i: nat)
    requires IsReconciled(digest, was, now, skills) && i < |skills| && OneDigestEach(digest, skills)
    ensures IsIndexed(digest, was, now, skills[i])
  {
    hide DocumentOf, Names, EntryOf, OneDigestEach;
    NamesGrow(skills, i);
    if IsCurrent(digest, was, skills[i]) {
      forall j | 0 <= j < |skills| && skills[j].name == skills[i].name ensures IsCurrent(digest, was, skills[j]) {
        SameDigest(digest, skills, i, j);
      }
      assert NoneStaleNamed(digest, was, skills, |skills|, skills[i].name);
    }
  }

  /** Afterwards the index agrees with the directory, whatever it was before, exactly when no two files of one
      name differ. */
  lemma ReconciledAgreesIff(digest: string -> string, was: map<string, Entry>, now: map<string, Entry>, skills: seq<Skill>)
    requires IsReconciled(digest, was, now, skills)
    ensures Agrees(digest, now, skills) <==> OneDigestEach(digest, skills)
  {
    hide DocumentOf, Names, OneDigestEach, IsReconciled, IsIndexed, EntryOf;
    if OneDigestEach(digest, skills) {
      forall i | 0 <= i < |skills| ensures IsCurrent(digest, now, skills[i]) {
        EachIsIndexed(digest, was, now, skills, i);
        IndexedIsCurrent(digest, was, now, skills[i]);
      }
      KeysAre(digest, was, now, skills);
    }
    if Agrees(digest, now, skills) { AgreedIsOne(digest, now, skills); }
  }

  lemma IndexedIsCurrent(digest: string -> string, was: map<string, Entry>, now: map<string, Entry>, s: Skill)
    requires IsIndexed(digest, was, now, s)
    ensures IsCurrent(digest, now, s)
  {
    hide DocumentOf;
  }

  lemma KeysAre(digest: string -> string, was: map<string, Entry>, now: map<string, Entry>, skills: seq<Skill>)
    requires IsReconciled(digest, was, now, skills)
    ensures now.Keys == Names(skills)
  {
  }

  lemma AgreedIsOne(digest: string -> string, index: map<string, Entry>, skills: seq<Skill>)
    requires Agrees(digest, index, skills)
    ensures OneDigestEach(digest, skills)
  {
    hide DocumentOf, Names;
    forall i, j | 0 <= i < j < |skills| && skills[i].name == skills[j].name
      ensures digest(DocumentOf(skills[i])) == digest(DocumentOf(skills[j]))
    {
      assert IsCurrent(digest, index, skills[i]) && IsCurrent(digest, index, skills[j]);
    }
  }

  /** An index that agrees is left exactly as it is, and only such an index is. */
  lemma LeftAloneIff(digest: string -> string, was: map<string, Entry>, now: map<string, Entry>, skills: seq<Skill>)
    requires IsReconciled(digest, was, now, skills)
    ensures was == now <==> Agrees(digest, was, skills)
  {
    hide DocumentOf, Names;
    if was == now {
      forall i | 0 <= i < |skills| ensures IsCurrent(digest, was, skills[i]) {
        CurrentIsThere(digest, was, skills[i]);
        NamesGrow(skills, i);
      }
    }
    if Agrees(digest, was, skills) {
      forall name | name in was ensures name in now && was[name] == now[name] {
        assert NoneStaleNamed(digest, was, skills, |skills|, name);
      }
      assert was.Keys == now.Keys;
    }
  }

  /** Of two skills of one name and one body the documents are the same exactly when the descriptions are; and of one
      description, exactly when the bodies are. */
  lemma DocumentsAlikeIff(s: Skill, t: Skill)
    requires s.name == t.name
    ensures s.body == t.body ==> (DocumentOf(s) == DocumentOf(t) <==> s.description == t.description)
    ensures s.description == t.description ==> (DocumentOf(s) == DocumentOf(t) <==> s.body == t.body)
  {
    var head := "# Skill: " + s.name + "\n\n";
    DocumentIs(s, head);
    DocumentIs(t, head);
    if DocumentOf(s) == DocumentOf(t) { Cancels(head, SaidIn(s), SaidIn(t)); }
    if SaidIn(s) == SaidIn(t) {
      if s.body == t.body { DescriptionsAre(s.description, t.description, s.body); }
      if s.description == t.description && s.description != "" { Cancels(s.description + "\n\n", s.body, t.body); }
    }
  }

  function SaidIn(s: Skill): string {
    if s.description == "" then s.body else s.description + "\n\n" + s.body
  }

  lemma DocumentIs(s: Skill, head: string)
    requires head == "# Skill: " + s.name + "\n\n"
    ensures DocumentOf(s) == head + SaidIn(s)
  {
    assert head + s.description + "\n\n" + s.body == head + (s.description + "\n\n" + s.body);
  }

  lemma Cancels(a: string, b: string, c: string)
    requires a + b == a + c
    ensures b == c
  {
    assert (a + b)[|a|..] == b && (a + c)[|a|..] == c;
  }

  lemma DescriptionsAre(d: string, e: string, body: string)
    requires (if d == "" then body else d + "\n\n" + body) == (if e == "" then body else e + "\n\n" + body)
    ensures d == e
  {
    if d != "" && e != "" {
      assert (d + "\n\n" + body)[..|d|] == d && (e + "\n\n" + body)[..|e|] == e;
    }
  }

  /** So an edit of the body or the description is found, as long as the digests of the two documents differ. */
  lemma EditsAreFound(digest: string -> string, index: map<string, Entry>, before: Skill, after: Skill)
    requires after == before.(body := after.body) || after == before.(description := after.description)
    requires after != before && IsCurrent(digest, index, before)
    requires digest(DocumentOf(before)) == digest(DocumentOf(after)) ==> DocumentOf(before) == DocumentOf(after)
    ensures !IsCurrent(digest, index, after)
  {
    hide DocumentOf;
    DocumentsAlikeIff(before, after);
  }

  /** Two files of one name that differ take turns: the entry of the one is written over by the other, at every
      reconcile. */
  lemma TwoFilesTakeTurns(digest: string -> string, was: map<string, Entry>, now: map<string, Entry>, skills: seq<Skill>,
                          i: nat, j: nat)
    requires IsReconciled(digest, was, now, skills) && i < |skills| && j < |skills|
    requires skills[i].name == skills[j].name && digest(DocumentOf(skills[i])) != digest(DocumentOf(skills[j]))
    requires IsCurrent(digest, was, skills[i])
    ensures now[skills[i].name] == EntryOf(digest, skills[j]) && IsCurrent(digest, now, skills[j])
    ensures !IsCurrent(digest, now, skills[i]) && now != was
  {
    hide DocumentOf, Names;
  }

  /** The scope and requirements beside a document are the skill's own exactly when it was embedded anew, or they
      were so before: an edit of them alone leaves what the index says of them as it was. */
  lemma EntryIsTheSkillsIff(digest: string -> string, was: map<string, Entry>, now: map<string, Entry>, s: Skill)
    requires IsIndexed(digest, was, now, s)
    ensures now[s.name] == EntryOf(digest, s) <==> !IsCurrent(digest, was, s) || was[s.name] == EntryOf(digest, s)
  {
    hide DocumentOf;
  }

  lemma EditedScopeIsMissed(digest: string -> string, was: map<string, Entry>, now: map<string, Entry>, s: Skill,
                            before: Skill)
    requires IsIndexed(digest, was, now, s) && s == before.(scope := s.scope)
    requires s.name in was && was[s.name] == EntryOf(digest, before) && Join(",", s.scope) != Join(",", before.scope)
    ensures IsCurrent(digest, now, s) && now[s.name] == EntryOf(digest, before) != EntryOf(digest, s)
  {
    hide Join;
  }

  /** Kept where it was current, else written anew. */
  predicate IsIndexed(digest: string -> string, was: map<string, Entry>, now: map<string, Entry>, s: Skill) {
    && s.name in now
    && now[s.name] == if IsCurrent(digest, was, s) then was[s.name] else EntryOf(digest, s)
  }

  lemma NamesGrow(skills: seq<Skill>, i: nat)
    requires i < |skills|
    ensures Names(skills[..i + 1]) == Names(skills[..i]) + {skills[i].name}
    ensures skills[i].name in Names(skills)
  {
    var more, less := skills[..i + 1], skills[..i];
    forall n | n in Names(less) ensures n in Names(more) {
      var k :| 0 <= k < |less| && less[k].name == n;
      assert more[k].name == n;
    }
    assert more[i].name == skills[i].name;
    forall n | n in Names(more) ensures n in Names(less) + {skills[i].name} {
      var k :| 0 <= k < |more| && more[k].name == n;
      if k < i { assert less[k].name == n; }
    }
  }

  /** What is kept beside a document tells its scope and what it requires: split at the commas, the values are there
      again. */
  lemma EntryTellsItsLists(digest: string -> string, s: Skill)
    requires s.scope != [] && forall i :: 0 <= i < |s.scope| ==> NoneOf(IsComma, s.scope[i])
    requires forall i :: 0 <= i < |s.requires_| ==> NoneOf(IsComma, s.requires_[i])
    ensures Split(IsComma, EntryOf(digest, s).scope) == s.scope
    ensures if s.requires_ == [] then EntryOf(digest, s).requires_ == ""
            else Split(IsComma, EntryOf(digest, s).requires_) == s.requires_
  {
    assert [','] == ",";
    SplitUndoesJoin(IsComma, ',', s.scope);
    if s.requires_ != [] { SplitUndoesJoin(IsComma, ',', s.requires_); }
  }
}
