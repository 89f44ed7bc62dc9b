/**
  The selector drops by id. What that does to items that share one: when each
  item is kept, and when each is told why it is not.
 */
module SharedIds {
  import opened ContextSelection
  import Sorting

  // ----------------------------------------------------------------- what goes

  /** The item at place `i` of the drop order and all behind it do not fit. */
  predicate Goes(kept: seq<Candidate>, i: nat, available: nat)
    requires i < |DropOrder(kept)|
  {
    Sum(DropOrder(kept)[i..]) > available
  }

  lemma {:induction false} TailsFall(order: seq<Candidate>, i: nat, j: nat)
    requires i <= j <= |order|
    ensures Sum(order[j..]) <= Sum(order[i..])
    decreases j - i
  {
    if i < j {
      TailsFall(order, i + 1, j);
      assert order[i..][1..] == order[i + 1..];
    }
  }

  /** The places that go, before anything is dropped: those whose tail is too large. */
  lemma GoesIff(kept: seq<Candidate>, k: nat, available: nat, i: nat)
    requires IsLeastDrop(DropOrder(kept), k, available) && i < |DropOrder(kept)|
    ensures Goes(kept, i, available) <==> i < k
  {
    if k <= i { TailsFall(DropOrder(kept), k, i); }
  }

  /** Of an admitted item's own id, some optional item goes. */
  predicate IdGoes(kept: seq<Candidate>, id: string, available: nat) {
    exists i :: 0 <= i < |DropOrder(kept)| && DropOrder(kept)[i].id == id && Goes(kept, i, available)
  }

  lemma GoneIff(kept: seq<Candidate>, k: nat, available: nat, id: string)
    requires IsLeastDrop(DropOrder(kept), k, available)
    ensures id in Ids(DropOrder(kept)[..k]) <==> IdGoes(kept, id, available)
  {
    hide DropOrder, IsLeastDrop, Goes;
    var order := DropOrder(kept);
    LeastDropIsWithin(order, k, available);
    if id in Ids(order[..k]) {
      var i :| 0 <= i < k && order[..k][i].id == id;
      GoesIff(kept, k, available, i);
      assert order[i].id == id;
    }
    if IdGoes(kept, id, available) {
      var i :| 0 <= i < |order| && order[i].id == id && Goes(kept, i, available);
      GoesIff(kept, k, available, i);
      assert order[..k][i].id == id;
    }
  }

  /** An admitted item, mandatory or not, is kept exactly when every optional item of its id fits together with
      all that would go after it. */
  lemma KeptIff(kept: seq<Candidate>, k: nat, available: nat, c: Candidate)
    requires IsLeastDrop(DropOrder(kept), k, available) && c in kept
    ensures c in Keep(kept, Ids(DropOrder(kept)[..k]))
            <==> forall i :: 0 <= i < |DropOrder(kept)| && DropOrder(kept)[i].id == c.id
                             ==> Sum(DropOrder(kept)[i..]) <= available
  {
    hide DropOrder, Ids, IsLeastDrop, Sum;
    LeastDropIsWithin(DropOrder(kept), k, available);
    var gone := Ids(DropOrder(kept)[..k]);
    WhereMember(kept, (x: Candidate) => x.id !in gone, c);
    GoneIff(kept, k, available, c.id);
  }

  /** No optional item has the id of a mandatory one. */
  predicate KindsApart(kept: seq<Candidate>) {
    forall c, d :: c in kept && d in kept && c.mandatory && !d.mandatory ==> c.id != d.id
  }

  /** As long as the two kinds do not share ids, nothing mandatory is ever dropped. */
  lemma MandatoryIsSafe(kept: seq<Candidate>, k: nat, c: Candidate)
    requires KindsApart(kept) && k <= |DropOrder(kept)| && c in kept && c.mandatory
    ensures c in Keep(kept, Ids(DropOrder(kept)[..k]))
  {
    hide DropOrder, Keep;
    var first := DropOrder(kept)[..k];
    WhereMember(kept, (x: Candidate) => x.id !in Ids(first), c);
    KeepIs(kept, Ids(first));
    forall i | 0 <= i < k ensures first[i].id != c.id {
      DropOrderIsOptional(kept, DropOrder(kept)[i]);
      assert first[i] == DropOrder(kept)[i];
    }
  }

  lemma KeepIs(cs: seq<Candidate>, gone: set<string>)
    ensures Keep(cs, gone) == Where(cs, (c: Candidate) => c.id !in gone)
  {
  }

  // -------------------------------------------------------- the ids the client gives

  const MANDATORY_IDS: set<string> := {"request", "session:history", "standard:binding", "system:instructions",
                                       "system:tool-guide", "project:working-directory", "system:coding-core"}
  const OPTIONAL_IDS: set<string> := {"memory:project", "retrieval:corpus", "knowledge:workspace", "standard:retrieval",
                                      "project:identity", "project:build"}
  const RULE := "rule:"
  const SKILL := "skill:"
  const CAPABILITY := "capability:"

  predicate IsOptionalId(id: string) {
    id in OPTIONAL_IDS || RULE <= id || SKILL <= id || CAPABILITY <= id
  }

  predicate FromClient(c: Candidate) {
    if c.mandatory then c.id in MANDATORY_IDS else IsOptionalId(c.id)
  }

  lemma ClientIdsAreApart(id: string)
    requires id in MANDATORY_IDS
    ensures !IsOptionalId(id)
  {
    if id == "request" {
      OtherStart(id, RULE, 1);
      OtherStart(id, SKILL, 0);
    } else if id == "project:working-directory" {
      OtherStart(id, RULE, 0);
      OtherStart(id, SKILL, 0);
    } else {
      assert id[0] == 's' && id[1] != 'k';
      OtherStart(id, RULE, 0);
      OtherStart(id, SKILL, 1);
    }
    OtherStart(id, CAPABILITY, 0);
  }

  lemma OtherStart(id: string, start: string, i: nat)
    requires i < |start| && i < |id| && id[i] != start[i]
    ensures !(start <= id)
  {
  }

  /** No candidate the client gives puts a mandatory item at risk, however many optional ones share an id. */
  lemma ClientKeepsMandatory(kept: seq<Candidate>, k: nat, c: Candidate)
    requires forall d :: d in kept ==> FromClient(d)
    requires k <= |DropOrder(kept)| && c in kept && c.mandatory
    ensures c in Keep(kept, Ids(DropOrder(kept)[..k]))
  {
    hide DropOrder, Keep, IsOptionalId;
    forall m, d | m in kept && d in kept && m.mandatory && !d.mandatory ensures m.id != d.id {
      assert FromClient(m) && FromClient(d);
      ClientIdsAreApart(m.id);
    }
    MandatoryIsSafe(kept, k, c);
  }

  // ------------------------------------------------------------ one decision each

  /** At some place of the order an item goes, and a later one of its id does not. */
  predicate GoesInPart(kept: seq<Candidate>, available: nat) {
    exists i, j :: 0 <= i < j < |DropOrder(kept)| && DropOrder(kept)[i].id == DropOrder(kept)[j].id
                   && Goes(kept, i, available) && !Goes(kept, j, available)
  }

  /** Of an id, either no optional item goes, or every item goes: all of its optional ones, and there is no
      mandatory one. */
  predicate GoesTogether(kept: seq<Candidate>, available: nat) {
    && !GoesInPart(kept, available)
    && forall c :: c in kept && c.mandatory ==> !IdGoes(kept, c.id, available)
  }

  lemma {:induction false} WhereCounts(cs: seq<Candidate>, keep: Candidate -> bool, c: Candidate)
    ensures multiset(Where(cs, keep))[c] == if keep(c) then multiset(cs)[c] else 0
  {
    if cs != [] {
      WhereCounts(cs[1..], keep, c);
      assert cs == [cs[0]] + cs[1..];
    }
  }

  lemma OrderCounts(kept: seq<Candidate>, c: Candidate)
    ensures multiset(DropOrder(kept))[c] == if c.mandatory then 0 else multiset(kept)[c]
  {
    Sorting.SortedIsPermutation(GoesBefore, Optionals(kept));
    WhereCounts(kept, (x: Candidate) => !x.mandatory, c);
  }

  /** How often an item is dropped and kept, against how often it is there. */
  lemma Accounted(kept: seq<Candidate>, k: nat, c: Candidate)
    requires k <= |DropOrder(kept)|
    ensures var first := DropOrder(kept)[..k];
            var told := multiset(first + Keep(kept, Ids(first)))[c];
            && (c.id !in Ids(first) ==> told == multiset(kept)[c])
            && (c.id in Ids(first) && c.mandatory ==> told == 0)
            && (c.id in Ids(first) && !c.mandatory ==> told + multiset(DropOrder(kept)[k..])[c] == multiset(kept)[c])
  {
    hide DropOrder, Keep, Ids;
    var order := DropOrder(kept);
    var first := order[..k];
    var gone := Ids(first);
    KeepIs(kept, gone);
    WhereCounts(kept, (x: Candidate) => x.id !in gone, c);
    OrderCounts(kept, c);
    assert order == first + order[k..];
    if c in first { InIds(first, c); }
  }

  lemma InIds(cs: seq<Candidate>, c: Candidate)
    requires c in cs
    ensures c.id in Ids(cs)
  {
    var i :| 0 <= i < |cs| && cs[i] == c;
    assert cs[i].id in Ids(cs);
  }

  /** Nothing but the first `k` of the order has an id of theirs. */
  predicate NoneLeft(kept: seq<Candidate>, k: nat)
    requires k <= |DropOrder(kept)|
  {
    forall c :: c in kept && c.id in Ids(DropOrder(kept)[..k]) ==> !c.mandatory && c !in DropOrder(kept)[k..]
  }

  lemma ToldIff(kept: seq<Candidate>, k: nat)
    requires k <= |DropOrder(kept)|
    ensures var first := DropOrder(kept)[..k];
            multiset(first + Keep(kept, Ids(first))) == multiset(kept) <==> NoneLeft(kept, k)
  {
    hide DropOrder, Keep, Ids;
    var first, rest := DropOrder(kept)[..k], DropOrder(kept)[k..];
    var told := first + Keep(kept, Ids(first));
    if NoneLeft(kept, k) {
      forall c ensures multiset(told)[c] == multiset(kept)[c] {
        Accounted(kept, k, c);
        OrderCounts(kept, c);
        InRest(kept, k, c);
      }
    } else {
      var c :| c in kept && c.id in Ids(first) && (c.mandatory || c in rest);
      Accounted(kept, k, c);
    }
  }

  lemma InRest(kept: seq<Candidate>, k: nat, c: Candidate)
    requires k <= |DropOrder(kept)|
    ensures c in DropOrder(kept)[k..] <==> multiset(DropOrder(kept)[k..])[c] > 0
    ensures c in DropOrder(kept)[k..] ==> c in kept
  {
    hide DropOrder;
    if c in DropOrder(kept)[k..] {
      assert c in DropOrder(kept);
      DropOrderIsOptional(kept, c);
    }
  }

  lemma NoneLeftIff(kept: seq<Candidate>, k: nat, available: nat)
    requires IsLeastDrop(DropOrder(kept), k, available) && k <= |DropOrder(kept)|
    ensures NoneLeft(kept, k) <==> GoesTogether(kept, available)
  {
    hide DropOrder, IsLeastDrop, Goes, Ids, IdGoes, GoesInPart;
    var order := DropOrder(kept);
    if NoneLeft(kept, k) && GoesInPart(kept, available) {
      var c := PartStays(kept, k, available);
      GoneIff(kept, k, available, c.id);
    }
    forall c | c in kept ensures c.id in Ids(order[..k]) <==> IdGoes(kept, c.id, available) {
      GoneIff(kept, k, available, c.id);
    }
    if GoesTogether(kept, available) {
      forall c | c in kept && c.id in Ids(order[..k]) ensures c !in order[k..] {
        if c in order[k..] { StaysInPart(kept, k, available, c); }
      }
    }
  }

  lemma PartStays(kept: seq<Candidate>, k: nat, available: nat) returns (c: Candidate)
    requires IsLeastDrop(DropOrder(kept), k, available) && k <= |DropOrder(kept)| && GoesInPart(kept, available)
    ensures c in kept && c in DropOrder(kept)[k..] && IdGoes(kept, c.id, available)
  {
    hide DropOrder, IsLeastDrop, Goes;
    var order := DropOrder(kept);
    var i, j :| 0 <= i < j < |order| && order[i].id == order[j].id && Goes(kept, i, available) && !Goes(kept, j, available);
    c := order[j];
    GoesIff(kept, k, available, j);
    assert order[k..][j - k] == c;
    DropOrderIsOptional(kept, c);
  }

  lemma StaysInPart(kept: seq<Candidate>, k: nat, available: nat, c: Candidate)
    requires IsLeastDrop(DropOrder(kept), k, available) && k <= |DropOrder(kept)|
    requires c.id in Ids(DropOrder(kept)[..k]) && c in DropOrder(kept)[k..]
    ensures GoesInPart(kept, available)
  {
    hide DropOrder, IsLeastDrop, Goes;
    var order := DropOrder(kept);
    var i :| 0 <= i < k && order[..k][i].id == c.id;
    var j :| 0 <= j < |order| - k && order[k..][j] == c;
    assert order[i].id == c.id && order[k + j] == c;
    GoesIff(kept, k, available, i);
    GoesIff(kept, k, available, k + j);
  }

  /** Every admitted item is kept or among those told they were dropped, each once, exactly when no id goes in
      part: an item that only shares the id of one that goes is neither. */
  lemma AllAreToldIff(kept: seq<Candidate>, k: nat, available: nat)
    requires IsLeastDrop(DropOrder(kept), k, available)
    ensures var first := DropOrder(kept)[..k];
            multiset(first + Keep(kept, Ids(first))) == multiset(kept) <==> GoesTogether(kept, available)
  {
    hide DropOrder, Keep, Ids, IsLeastDrop, NoneLeft, GoesTogether;
    LeastDropIsWithin(DropOrder(kept), k, available);
    ToldIff(kept, k);
    NoneLeftIff(kept, k, available);
  }

  /** Every candidate gets exactly one decision, refused, dropped or chosen, exactly when no admitted id goes in
      part. */
  lemma OneDecisionEachIff(candidates: seq<Candidate>, refusal: Candidate -> string, k: nat, available: nat)
    requires IsLeastDrop(DropOrder(Admitted(candidates, refusal)), k, available)
    ensures var kept := Admitted(candidates, refusal);
            var first := DropOrder(kept)[..k];
            multiset(NotAdmitted(candidates, refusal) + first + Keep(kept, Ids(first))) == multiset(candidates)
            <==> GoesTogether(kept, available)
  {
    hide DropOrder, Where, Keep, Ids, IsLeastDrop, GoesTogether;
    var kept, refused := Admitted(candidates, refusal), NotAdmitted(candidates, refusal);
    LeastDropIsWithin(DropOrder(kept), k, available);
    var first := DropOrder(kept)[..k];
    WhereSplits(candidates, c => refusal(c) == "", c => refusal(c) != "");
    AllAreToldIff(kept, k, available);
    Cancels(multiset(refused), multiset(first) + multiset(Keep(kept, Ids(first))), multiset(kept));
    assert multiset(refused + first + Keep(kept, Ids(first)))
        == multiset(refused) + (multiset(first) + multiset(Keep(kept, Ids(first))));
  }

  lemma Cancels<T>(a: multiset<T>, b: multiset<T>, c: multiset<T>)
    ensures a + b == a + c <==> b == c
  {
    if a + b == a + c {
      forall x ensures b[x] == c[x] { assert (a + b)[x] == (a + c)[x]; }
    }
  }

  // ----------------------------------------------------------------- ids used once

  predicate DistinctIds(cs: seq<Candidate>) {
    forall i, j :: 0 <= i < j < |cs| ==> cs[i].id != cs[j].id
  }

  lemma SameIdSameItem(cs: seq<Candidate>, a: Candidate, b: Candidate)
    requires DistinctIds(cs) && a in cs && b in cs && a.id == b.id
    ensures a == b
  {
    var i :| 0 <= i < |cs| && cs[i] == a;
    var j :| 0 <= j < |cs| && cs[j] == b;
    assert i == j;
  }

  lemma {:induction false} OnlyOnce(cs: seq<Candidate>, c: Candidate)
    requires DistinctIds(cs)
    ensures multiset(cs)[c] <= 1
  {
    if cs != [] {
      OnlyOnce(cs[1..], c);
      assert cs == [cs[0]] + cs[1..];
      assert forall i :: 0 <= i < |cs[1..]| ==> cs[1..][i] == cs[i + 1];
      if cs[0] == c { assert c !in cs[1..]; }
    }
  }

  lemma DistinctLeaveNone(kept: seq<Candidate>, k: nat)
    requires DistinctIds(kept) && k <= |DropOrder(kept)|
    ensures NoneLeft(kept, k)
  {
    hide DropOrder, DistinctIds;
    var first, rest := DropOrder(kept)[..k], DropOrder(kept)[k..];
    assert DropOrder(kept) == first + rest;
    forall c | c in kept && c.id in Ids(first) ensures !c.mandatory && c !in rest {
      var i :| 0 <= i < |first| && first[i].id == c.id;
      assert first[i] in DropOrder(kept);
      DropOrderIsOptional(kept, first[i]);
      SameIdSameItem(kept, first[i], c);
      OnlyOnce(kept, c);
      OrderCounts(kept, c);
      assert c in first ==> multiset(first)[c] > 0;
    }
  }

  /** With ids used once the dropped items are exactly the first of the order. */
  lemma DroppedAreTheFirst(kept: seq<Candidate>, k: nat)
    requires DistinctIds(kept) && k <= |DropOrder(kept)|
    ensures var gone := Ids(DropOrder(kept)[..k]);
            multiset(Where(kept, (c: Candidate) => c.id in gone)) == multiset(DropOrder(kept)[..k])
  {
    hide DropOrder, Keep, Ids, DistinctIds, Where;
    var first := DropOrder(kept)[..k];
    var gone := Ids(first);
    var out := Where(kept, (c: Candidate) => c.id in gone);
    DistinctLeaveNone(kept, k);
    forall c ensures multiset(out)[c] == multiset(first)[c] {
      WhereCounts(kept, (x: Candidate) => x.id in gone, c);
      Accounted(kept, k, c);
      KeepIs(kept, gone);
      WhereCounts(kept, (x: Candidate) => x.id !in gone, c);
      OrderCounts(kept, c);
      InRest(kept, k, c);
      if c in first { InIds(first, c); }
    }
  }

  /** And every candidate gets exactly one decision. */
  lemma OneDecisionEach(candidates: seq<Candidate>, refusal: Candidate -> string, k: nat)
    requires DistinctIds(candidates) && k <= |DropOrder(Admitted(candidates, refusal))|
    ensures var kept := Admitted(candidates, refusal);
            var first := DropOrder(kept)[..k];
            multiset(NotAdmitted(candidates, refusal) + first + Keep(kept, Ids(first))) == multiset(candidates)
  {
    hide DropOrder, Where, Keep, Ids, DistinctIds, NoneLeft;
    var kept := Admitted(candidates, refusal);
    WhereSplits(candidates, c => refusal(c) == "", c => refusal(c) != "");
    WhereKeepsDistinct(candidates, c => refusal(c) == "");
    DistinctLeaveNone(kept, k);
    ToldIff(kept, k);
  }

  lemma {:induction false} WhereKeepsDistinct(cs: seq<Candidate>, keep: Candidate -> bool)
    requires DistinctIds(cs)
    ensures DistinctIds(Where(cs, keep))
  {
    if cs != [] {
      var rest := cs[1..];
      assert forall i :: 0 <= i < |rest| ==> rest[i] == cs[i + 1];
      WhereKeepsDistinct(rest, keep);
      forall i | 0 <= i < |Where(rest, keep)| ensures Where(rest, keep)[i].id != cs[0].id {
        WhereMember(rest, keep, Where(rest, keep)[i]);
      }
    }
  }

  // ------------------------------------------------------------------ where ids are shared

  /** A rule's id: the one it declares, else its file's name without the number in front. */
  function RuleId(digit: char -> bool, stem: string, declared: string): string {
    RULE + if declared != "" then declared else Title(digit, stem)
  }

  function Title(digit: char -> bool, stem: string): string {
    var n := Leading(digit, stem);
    if 0 < n < |stem| && stem[n] == '-' then stem[n + 1..] else stem
  }

  function Leading(digit: char -> bool, s: string): (n: nat)
    ensures n <= |s|
  {
    if s != "" && digit(s[0]) then 1 + Leading(digit, s[1..]) else 0
  }

  /** Nothing goes but digits and the dash behind them. */
  lemma {:induction false} OnlyANumberGoes(digit: char -> bool, stem: string)
    requires Title(digit, stem) != stem
    ensures exists n :: && 0 < n < |stem| && stem[n] == '-' && Title(digit, stem) == stem[n + 1..]
                        && forall i :: 0 <= i < n ==> digit(stem[i])
  {
    LeadingAreDigits(digit, stem);
  }

  lemma {:induction false} LeadingAreDigits(digit: char -> bool, s: string)
    ensures forall i :: 0 <= i < Leading(digit, s) ==> digit(s[i])
  {
    if s != "" && digit(s[0]) {
      LeadingAreDigits(digit, s[1..]);
      forall i | 0 < i < Leading(digit, s) ensures digit(s[i]) { assert s[i] == s[1..][i - 1]; }
    }
  }

  lemma {:induction false} NumberGoes(digit: char -> bool, number: string, title: string)
    requires number != "" && !digit('-') && forall i :: 0 <= i < |number| ==> digit(number[i])
    ensures RuleId(digit, number + "-" + title, "") == RULE + title
  {
    LeadingIs(digit, number, "-" + title);
    assert number + "-" + title == number + ("-" + title);
    assert (number + "-" + title)[|number| + 1..] == title;
  }

  lemma {:induction false} LeadingIs(digit: char -> bool, number: string, rest: string)
    requires rest != "" && !digit(rest[0]) && forall i :: 0 <= i < |number| ==> digit(number[i])
    ensures Leading(digit, number + rest) == |number|
  {
    if number == "" {
      assert number + rest == rest;
    } else {
      assert (number + rest)[1..] == number[1..] + rest;
      LeadingIs(digit, number[1..], rest);
    }
  }

  /** Two rule files that differ in their numbers have one id. With room for the second alone both go, and only
      the first is told. */
  lemma TwoRulesOneId(digit: char -> bool, first: string, second: string, title: string, a: string, b: string, rank: int,
                      available: nat)
    requires first != "" && second != "" && !digit('-')
    requires forall i :: 0 <= i < |first| ==> digit(first[i])
    requires forall i :: 0 <= i < |second| ==> digit(second[i])
    requires |a| >= |b|
    requires var id := RULE + title;
             Weight(Candidate(id, rank, b, false)) <= available
             < Weight(Candidate(id, rank, a, false)) + Weight(Candidate(id, rank, b, false))
    ensures var x := Candidate(RuleId(digit, first + "-" + title, ""), rank, a, false);
            var y := Candidate(RuleId(digit, second + "-" + title, ""), rank, b, false);
            && IsLeastDrop(DropOrder([x, y]), 1, available)
            && DropOrder([x, y])[..1] == [x] && Keep([x, y], Ids([x])) == []
            && !GoesTogether([x, y], available)
  {
    NumberGoes(digit, first, title);
    NumberGoes(digit, second, title);
    PairGoes(Candidate(RULE + title, rank, a, false), Candidate(RULE + title, rank, b, false), available);
  }

  lemma PairGoes(x: Candidate, y: Candidate, available: nat)
    requires x.id == y.id && !x.mandatory && !y.mandatory && !GoesBefore(y, x)
    requires Weight(y) <= available < Weight(x) + Weight(y)
    ensures IsLeastDrop(DropOrder([x, y]), 1, available)
    ensures DropOrder([x, y])[..1] == [x] && Keep([x, y], Ids([x])) == []
    ensures !GoesTogether([x, y], available)
  {
    PairIsInOrder(x, y);
    SumsOfPair(x, y);
    assert [x][0].id in Ids([x]);
    KeepNone([x, y], Ids([x]));
    assert DropOrder([x, y])[..1] == [x] && DropOrder([x, y])[0..] == [x, y] && DropOrder([x, y])[1..] == [y];
    assert Goes([x, y], 0, available) && !Goes([x, y], 1, available);
  }

  lemma PairIsInOrder(x: Candidate, y: Candidate)
    requires !x.mandatory && !y.mandatory && !GoesBefore(y, x)
    ensures DropOrder([x, y]) == [x, y]
  {
    assert [x, y][1..] == [y] && [y][1..] == [];
    assert Optionals([y]) == [y] + Optionals([]) && Optionals([x, y]) == [x] + Optionals([y]);
    Sorting.OrderedIsSorted(GoesBefore, [x, y]);
  }

  lemma SumsOfPair(x: Candidate, y: Candidate)
    ensures Sum([x, y]) == Weight(x) + Weight(y) && Sum([y]) == Weight(y)
  {
    assert [x, y][1..] == [y] && [y][1..] == [];
    assert Sum([y]) == Weight(y) + Sum([]);
  }

  /** Nor would a mandatory item be safe from an optional one of its id. */
  lemma SharedIdDropsMandatory(id: string, text: string)
    requires text != ""
    ensures var kept := [Candidate(id, 1, text, true), Candidate(id, 0, text, false)];
            IsLeastDrop(DropOrder(kept), 1, 0) && Keep(kept, Ids(DropOrder(kept)[..1])) == []
  {
    var a, b := Candidate(id, 1, text, true), Candidate(id, 0, text, false);
    var kept := [a, b];
    assert kept[1..] == [b] && [b][1..] == [];
    assert Optionals([b]) == [b] + Optionals([]) && Optionals(kept) == Optionals([b]);
    assert [b][..0] == [];
    assert Sorting.Sorted(GoesBefore, [b]) == [b];
    assert [b][0..] == [b] && [b][..1] == [b];
    assert [b][0].id in Ids([b]);
    KeepNone(kept, Ids([b]));
  }
}
