/**
  The selector that decides what a turn is given: what does not apply is
  refused, and a tight budget drops optional items, lowest priority first.
 */
module ContextSelection {
  import opened Wrappers
  import Sorting
  import ContextItems

  datatype Candidate = Candidate(id: string, rank: int, text: string, mandatory: bool)

  /** Why a candidate is, or is not, in the selection. */
  datatype Verdict = Refused(why: string) | OverBudget(available: nat) | Chosen

  datatype Decision = Decision(id: string, verdict: Verdict)

  datatype Budget = Budget(window: nat, outputReservation: nat, mandatoryTokens: nat)

  function Available(b: Budget): nat {
    if b.window - b.outputReservation - b.mandatoryTokens >= 0
    then b.window - b.outputReservation - b.mandatoryTokens else 0
  }

  const CHARS_PER_TOKEN := 3

  function Weight(c: Candidate): nat {
    ContextItems.Estimate(CHARS_PER_TOKEN, c.text)
  }

  function Sum(cs: seq<Candidate>): nat {
    if cs == [] then 0 else Weight(cs[0]) + Sum(cs[1..])
  }

  /** Lower priority goes first, and the larger of two that tie. */
  predicate GoesBefore(a: Candidate, b: Candidate) {
    a.rank < b.rank || (a.rank == b.rank && |a.text| > |b.text|)
  }

  function Where(cs: seq<Candidate>, keep: Candidate -> bool): seq<Candidate> {
    if cs == [] then []
    else if keep(cs[0]) then [cs[0]] + Where(cs[1..], keep)
    else Where(cs[1..], keep)
  }

  function Optionals(cs: seq<Candidate>): seq<Candidate> {
    Where(cs, (c: Candidate) => !c.mandatory)
  }

  function Keep(cs: seq<Candidate>, dropped: set<string>): seq<Candidate> {
    Where(cs, (c: Candidate) => c.id !in dropped)
  }

  function Ids(cs: seq<Candidate>): set<string> {
    set i | 0 <= i < |cs| :: cs[i].id
  }

  /** The order in which optional items go. */
  function DropOrder(kept: seq<Candidate>): seq<Candidate> {
    Sorting.Sorted(GoesBefore, Optionals(kept))
  }

  /** `k` is the least number of items whose going leaves the optional rest within `available`. */
  predicate IsLeastDrop(order: seq<Candidate>, k: nat, available: nat) {
    && k <= |order| && Sum(order[k..]) <= available
    && forall j :: 0 <= j < k ==> Sum(order[j..]) > available
  }

  function DropDecisions(cs: seq<Candidate>, available: nat): seq<Decision> {
    seq(|cs|, i requires 0 <= i < |cs| => Decision(cs[i].id, OverBudget(available)))
  }

  lemma OneMoreGoes(order: seq<Candidate>, i: nat, available: nat)
    requires i < |order|
    ensures Sum(order[i..]) == Weight(order[i]) + Sum(order[i + 1..])
    ensures Ids(order[..i + 1]) == Ids(order[..i]) + {order[i].id}
    ensures DropDecisions(order[..i + 1], available)
            == DropDecisions(order[..i], available) + [Decision(order[i].id, OverBudget(available))]
  {
    assert order[i..][1..] == order[i + 1..];
    var more := order[..i + 1];
    forall id | id in Ids(more) ensures id in Ids(order[..i]) + {order[i].id} {
      var j :| 0 <= j < |more| && more[j].id == id;
      if j < i { assert order[..i][j].id == id; }
    }
    forall id | id in Ids(order[..i]) ensures id in Ids(more) {
      var j :| 0 <= j < i && order[..i][j].id == id;
      assert more[j].id == id;
    }
    assert more[i].id in Ids(more);
  }

  lemma NothingGoesYet(kept: seq<Candidate>, available: nat)
    ensures Sum(Optionals(kept)) == Sum(DropOrder(kept)[0..])
    ensures Ids(DropOrder(kept)[..0]) == {} && DropDecisions(DropOrder(kept)[..0], available) == []
  {
    SortedSumsAlike(Optionals(kept), {});
    KeepAll(Optionals(kept));
    KeepAll(DropOrder(kept));
    assert DropOrder(kept)[0..] == DropOrder(kept);
  }

  method Fit(kept: seq<Candidate>, available: nat)
      returns (rest: seq<Candidate>, decisions: seq<Decision>, k: nat)
    ensures IsLeastDrop(DropOrder(kept), k, available)
    ensures rest == Keep(kept, Ids(DropOrder(kept)[..k]))
    ensures decisions == DropDecisions(DropOrder(kept)[..k], available)
  {
    hide Sum, Ids, DropDecisions, Weight;
    var optional := Optionals(kept);
    var total := Sum(optional);
    var order := Sorting.Sorted(GoesBefore, optional);
    NothingGoesYet(kept, available);
    assert order == DropOrder(kept);
    hide *;
    var drop: set<string> := {};
    decisions := [];
    var i := 0;
    while i < |order| && total > available
      invariant 0 <= i <= |order| && total == Sum(order[i..])
      invariant drop == Ids(order[..i]) && decisions == DropDecisions(order[..i], available)
      invariant forall j :: 0 <= j < i ==> Sum(order[j..]) > available
    {
      OneMoreGoes(order, i, available);
      drop := drop + {order[i].id};
      total := total - Weight(order[i]);
      decisions := decisions + [Decision(order[i].id, OverBudget(available))];
      i := i + 1;
    }
    assert i == |order| ==> order[i..] == [];
    EmptySum();
    k := i;
    rest := Keep(kept, drop);
    LeastDropIs(order, k, available);
  }

  lemma EmptySum()
    ensures Sum([]) == 0
  {
  }

  lemma LeastDropIs(order: seq<Candidate>, k: nat, available: nat)
    requires k <= |order| && Sum(order[k..]) <= available && forall j :: 0 <= j < k ==> Sum(order[j..]) > available
    ensures IsLeastDrop(order, k, available)
  {
  }

  function ChosenDecisions(cs: seq<Candidate>): seq<Decision> {
    seq(|cs|, i requires 0 <= i < |cs| => Decision(cs[i].id, Chosen))
  }

  function RefusedDecisions(cs: seq<Candidate>, refusal: Candidate -> string): seq<Decision> {
    seq(|cs|, i requires 0 <= i < |cs| => Decision(cs[i].id, Refused(refusal(cs[i]))))
  }

  function Admitted(cs: seq<Candidate>, refusal: Candidate -> string): seq<Candidate> {
    Where(cs, c => refusal(c) == "")
  }

  function NotAdmitted(cs: seq<Candidate>, refusal: Candidate -> string): seq<Candidate> {
    Where(cs, c => refusal(c) != "")
  }

  /** One pass over the candidates: refused with a reason, or admitted. */
  method Admit(candidates: seq<Candidate>, refusal: Candidate -> string)
      returns (kept: seq<Candidate>, decisions: seq<Decision>)
    ensures kept == Admitted(candidates, refusal)
    ensures decisions == RefusedDecisions(NotAdmitted(candidates, refusal), refusal)
  {
    hide Where;
    kept, decisions := [], [];
    var i := 0;
    NoneAdmitted(refusal);
    assert candidates[..0] == [];
    while i < |candidates|
      invariant 0 <= i <= |candidates|
      invariant kept == Admitted(candidates[..i], refusal)
      invariant decisions == RefusedDecisions(NotAdmitted(candidates[..i], refusal), refusal)
    {
      var item := candidates[i];
      assert candidates[..i + 1] == candidates[..i] + [item];
      WhereAppends(candidates[..i], item, c => refusal(c) == "");
      WhereAppends(candidates[..i], item, c => refusal(c) != "");
      var reason := refusal(item);
      if reason != "" {
        decisions := decisions + [Decision(item.id, Refused(reason))];
      } else {
        kept := kept + [item];
      }
      i := i + 1;
    }
    assert candidates[..i] == candidates;
  }

  lemma NoneAdmitted(refusal: Candidate -> string)
    ensures Admitted([], refusal) == [] && NotAdmitted([], refusal) == []
  {
  }

  lemma {:induction false} WhereAppends(cs: seq<Candidate>, c: Candidate, keep: Candidate -> bool)
    ensures Where(cs + [c], keep) == Where(cs, keep) + if keep(c) then [c] else []
  {
    if cs == [] {
      assert cs + [c] == [c] && [c][1..] == [];
    } else {
      WhereAppends(cs[1..], c, keep);
      assert (cs + [c])[1..] == cs[1..] + [c];
    }
  }

  method Select(candidates: seq<Candidate>, refusal: Candidate -> string, budget: Option<Budget>)
      returns (selected: seq<Candidate>, decisions: seq<Decision>, k: nat)
    ensures var kept, refused := Admitted(candidates, refusal), NotAdmitted(candidates, refusal);
            if budget.None? then
              && selected == kept
              && decisions == RefusedDecisions(refused, refusal) + ChosenDecisions(kept)
            else
              && IsLeastDrop(DropOrder(kept), k, Available(budget.value))
              && selected == Keep(kept, Ids(DropOrder(kept)[..k]))
              && decisions == RefusedDecisions(refused, refusal)
                              + DropDecisions(DropOrder(kept)[..k], Available(budget.value))
                              + ChosenDecisions(selected)
  {
    hide Admitted, NotAdmitted, DropOrder, IsLeastDrop, Keep, Ids, DropDecisions, RefusedDecisions;
    var kept;
    kept, decisions := Admit(candidates, refusal);
    k := 0;
    if budget.Some? {
      ghost var admitted := kept;
      var dropped;
      kept, dropped, k := Fit(kept, Available(budget.value));
      LeastDropIsWithin(DropOrder(admitted), k, Available(budget.value));
      decisions := decisions + dropped;
    }
    selected := [];
    var i := 0;
    ghost var before := decisions;
    while i < |kept|
      invariant 0 <= i <= |kept| && selected == kept[..i]
      invariant decisions == before + ChosenDecisions(selected)
    {
      selected := selected + [kept[i]];
      decisions := decisions + [Decision(kept[i].id, Chosen)];
      i := i + 1;
    }
  }

  lemma LeastDropIsWithin(order: seq<Candidate>, k: nat, available: nat)
    requires IsLeastDrop(order, k, available)
    ensures k <= |order|
  {
  }

  // -------------------------------------------------------------------- lemmas

  lemma GoesBeforeIsWeakOrder()
    ensures Sorting.WeakOrder(GoesBefore)
  {
  }

  lemma {:induction false} KeepAll(cs: seq<Candidate>)
    ensures Keep(cs, {}) == cs
  {
    if cs != [] { KeepAll(cs[1..]); }
  }

  lemma {:induction false} KeepAppends(a: seq<Candidate>, b: seq<Candidate>, gone: set<string>)
    ensures Keep(a + b, gone) == Keep(a, gone) + Keep(b, gone)
  {
    if a == [] {
      assert a + b == b;
    } else {
      KeepAppends(a[1..], b, gone);
      assert (a + b)[1..] == a[1..] + b;
    }
  }

  lemma {:induction false} SumAppends(a: seq<Candidate>, b: seq<Candidate>)
    ensures Sum(a + b) == Sum(a) + Sum(b)
  {
    if a == [] {
      assert a + b == b;
    } else {
      SumAppends(a[1..], b);
      assert (a + b)[1..] == a[1..] + b;
    }
  }

  lemma SumKeepAppends(a: seq<Candidate>, b: seq<Candidate>, gone: set<string>)
    ensures Sum(Keep(a + b, gone)) == Sum(Keep(a, gone)) + Sum(Keep(b, gone))
  {
    KeepAppends(a, b, gone);
    SumAppends(Keep(a, gone), Keep(b, gone));
  }

  lemma {:induction false} InsertedSumsAlike(cs: seq<Candidate>, c: Candidate, gone: set<string>)
    ensures Sum(Keep(Sorting.Inserted(GoesBefore, cs, c), gone)) == Sum(Keep(cs, gone)) + Sum(Keep([c], gone))
  {
    SumKeepAppends(cs, [c], gone);
    if cs != [] && GoesBefore(c, cs[|cs| - 1]) {
      var start, last := cs[..|cs| - 1], cs[|cs| - 1];
      InsertedSumsAlike(start, c, gone);
      SumKeepAppends(Sorting.Inserted(GoesBefore, start, c), [last], gone);
      SumKeepAppends(start, [last], gone);
      assert start + [last] == cs;
    }
  }

  /** Sorting changes no sum, whatever is left out of it. */
  lemma {:induction false} SortedSumsAlike(cs: seq<Candidate>, gone: set<string>)
    ensures Sum(Keep(Sorting.Sorted(GoesBefore, cs), gone)) == Sum(Keep(cs, gone))
  {
    if cs != [] {
      var start, last := cs[..|cs| - 1], cs[|cs| - 1];
      SortedSumsAlike(start, gone);
      InsertedSumsAlike(Sorting.Sorted(GoesBefore, start), last, gone);
      SumKeepAppends(start, [last], gone);
      assert start + [last] == cs;
    }
  }

  lemma {:induction false} KeepNone(cs: seq<Candidate>, gone: set<string>)
    requires Ids(cs) <= gone
    ensures Keep(cs, gone) == []
  {
    if cs != [] {
      assert cs[0].id in Ids(cs);
      assert Ids(cs[1..]) <= Ids(cs) by {
        forall i | 0 <= i < |cs[1..]| ensures cs[1..][i].id in Ids(cs) { assert cs[1..][i] == cs[i + 1]; }
      }
      KeepNone(cs[1..], gone);
    }
  }

  lemma {:induction false} KeepWeighsLess(cs: seq<Candidate>, gone: set<string>)
    ensures Sum(Keep(cs, gone)) <= Sum(cs)
  {
    if cs != [] {
      KeepWeighsLess(cs[1..], gone);
      if cs[0].id !in gone { SumAppends([cs[0]], Keep(cs[1..], gone)); }
    }
  }

  lemma {:induction false} OptionalsOfKeep(cs: seq<Candidate>, gone: set<string>)
    ensures Optionals(Keep(cs, gone)) == Keep(Optionals(cs), gone)
  {
    if cs != [] {
      OptionalsOfKeep(cs[1..], gone);
      var rest := Keep(cs[1..], gone);
      if cs[0].id !in gone { assert ([cs[0]] + rest)[1..] == rest; }
      var later := Optionals(cs[1..]);
      if !cs[0].mandatory { assert ([cs[0]] + later)[1..] == later; }
    }
  }

  /** Whatever is kept, its optional part fits what the budget leaves. */
  lemma OptionalRestFits(kept: seq<Candidate>, k: nat, available: nat)
    requires IsLeastDrop(DropOrder(kept), k, available)
    ensures Sum(Optionals(Keep(kept, Ids(DropOrder(kept)[..k])))) <= available
  {
    var order := DropOrder(kept);
    var gone := Ids(order[..k]);
    OptionalsOfKeep(kept, gone);
    SortedSumsAlike(Optionals(kept), gone);
    assert order == order[..k] + order[k..];
    KeepAppends(order[..k], order[k..], gone);
    KeepNone(order[..k], gone);
    assert [] + Keep(order[k..], gone) == Keep(order[k..], gone);
    KeepWeighsLess(order[k..], gone);
  }

  function Mandatories(cs: seq<Candidate>): seq<Candidate> {
    Where(cs, (c: Candidate) => c.mandatory)
  }

  lemma {:induction false} TwoKinds(cs: seq<Candidate>)
    ensures Sum(cs) == Sum(Mandatories(cs)) + Sum(Optionals(cs))
  {
    if cs != [] {
      TwoKinds(cs[1..]);
      SumAppends([cs[0]], Mandatories(cs[1..]));
      SumAppends([cs[0]], Optionals(cs[1..]));
    }
  }

  lemma {:induction false} MandatoriesOfKeep(cs: seq<Candidate>, gone: set<string>)
    ensures Sum(Mandatories(Keep(cs, gone))) <= Sum(Mandatories(cs))
  {
    if cs != [] {
      MandatoriesOfKeep(cs[1..], gone);
      var rest := Keep(cs[1..], gone);
      if cs[0].id !in gone { assert ([cs[0]] + rest)[1..] == rest; }
      SumAppends([cs[0]], Mandatories(rest));
      SumAppends([cs[0]], Mandatories(cs[1..]));
    }
  }

  /** When the budget's mandatory tokens cover the mandatory items, and fit, so does the whole selection. */
  lemma WholeSelectionFits(kept: seq<Candidate>, k: nat, b: Budget)
    requires IsLeastDrop(DropOrder(kept), k, Available(b))
    requires Sum(Mandatories(kept)) <= b.mandatoryTokens <= b.window - b.outputReservation
    ensures Sum(Keep(kept, Ids(DropOrder(kept)[..k]))) <= b.window - b.outputReservation
  {
    var gone := Ids(DropOrder(kept)[..k]);
    TwoKinds(Keep(kept, gone));
    MandatoriesOfKeep(kept, gone);
    OptionalRestFits(kept, k, Available(b));
  }

  lemma {:induction false} WhereMember(cs: seq<Candidate>, keep: Candidate -> bool, c: Candidate)
    ensures c in Where(cs, keep) <==> c in cs && keep(c)
  {
    if cs != [] { WhereMember(cs[1..], keep, c); }
  }

  lemma DropOrderIsOptional(kept: seq<Candidate>, c: Candidate)
    ensures c in DropOrder(kept) <==> c in kept && !c.mandatory
    ensures Sorting.Ordered(GoesBefore, DropOrder(kept))
  {
    GoesBeforeIsWeakOrder();
    Sorting.SortedIsOrdered(GoesBefore, Optionals(kept));
    Sorting.SortedIsPermutation(GoesBefore, Optionals(kept));
    WhereMember(kept, (x: Candidate) => !x.mandatory, c);
  }

  /** Lower priority goes first, and of equals the longer text. */
  lemma LowestGoesFirst(kept: seq<Candidate>, i: nat, j: nat)
    requires i < j < |DropOrder(kept)|
    ensures var a, b := DropOrder(kept)[i], DropOrder(kept)[j];
            a.rank < b.rank || (a.rank == b.rank && |a.text| >= |b.text|)
  {
    DropOrderIsOptional(kept, DropOrder(kept)[i]);
    assert !GoesBefore(DropOrder(kept)[j], DropOrder(kept)[i]);
  }

  /** And of those alike in both, the one given first. */
  lemma TiesKeepTheirOrder(kept: seq<Candidate>, c: Candidate)
    ensures Sorting.Ties(GoesBefore, DropOrder(kept), c) == Sorting.Ties(GoesBefore, Optionals(kept), c)
  {
    GoesBeforeIsWeakOrder();
    Sorting.SortedIsStable(GoesBefore, Optionals(kept), c);
  }

  /** Nothing is dropped exactly when the optional items weigh nothing, or fit the window with the reservation and
      the mandatory tokens. */
  lemma NothingGoesIff(kept: seq<Candidate>, k: nat, b: Budget)
    requires IsLeastDrop(DropOrder(kept), k, Available(b))
    ensures k == 0 <==> Sum(Optionals(kept)) == 0 || Sum(Optionals(kept)) + b.outputReservation + b.mandatoryTokens <= b.window
  {
    hide DropOrder, Sum;
    NothingGoesYet(kept, 0);
    assert k > 0 ==> Sum(DropOrder(kept)[0..]) > Available(b);
  }

  /** What an item weighs: a third of its text and one, or nothing without a text. */
  lemma WeighsAThird(c: Candidate)
    ensures Weight(c) == if c.text == "" then 0 else |c.text| / 3 + 1
  {
  }

  lemma {:induction false} WhereSplits(cs: seq<Candidate>, p: Candidate -> bool, q: Candidate -> bool)
    requires forall c :: p(c) <==> !q(c)
    ensures multiset(Where(cs, p)) + multiset(Where(cs, q)) == multiset(cs)
  {
    if cs != [] {
      WhereSplits(cs[1..], p, q);
      assert cs == [cs[0]] + cs[1..];
    }
  }
}
