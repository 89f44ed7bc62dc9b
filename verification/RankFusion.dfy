/**
  Several rankings merged into one by reciprocal rank fusion. Scores are real
  numbers; which of two equal scores comes first is the order of first
  appearance, as a stable sort over an insertion-ordered dictionary gives it.
 */
module RankFusion {
  import opened Sorting

  const K := 60

  /** What a place in a list is worth. */
  function Weight(rank: nat): (w: real)
    ensures w > 0.0
  {
    1.0 / ((K + rank + 1) as real)
  }

  lemma EarlierIsWorthMore(i: nat, j: nat)
    requires i < j
    ensures Weight(i) > Weight(j)
  {
    InverseFalls((K + i + 1) as real, (K + j + 1) as real);
  }

  lemma InverseFalls(x: real, y: real)
    requires 0.0 < x < y
    ensures 1.0 / x > 1.0 / y
  {
    var a, b := 1.0 / x, 1.0 / y;
    assert a * x == 1.0 && b * y == 1.0 && b > 0.0;
    assert b * x < b * y;
    assert (a - b) * x > 0.0;
  }

  datatype Entry<Id> = Entry(id: Id, weight: real)

  function Weighted<Id>(list: seq<Id>): seq<Entry<Id>> {
    seq(|list|, r requires 0 <= r < |list| => Entry(list[r], Weight(r)))
  }

  /** Every place of every list, in the order the scores are added up. */
  function Entries<Id>(lists: seq<seq<Id>>): seq<Entry<Id>> {
    if lists == [] then [] else Entries(lists[..|lists| - 1]) + Weighted(lists[|lists| - 1])
  }

  function Get<Id>(score: map<Id, real>, id: Id): real {
    if id in score then score[id] else 0.0
  }

  function Tally<Id(==)>(es: seq<Entry<Id>>): map<Id, real> {
    if es == [] then map[]
    else
      var before, e := Tally(es[..|es| - 1]), es[|es| - 1];
      before[e.id := Get(before, e.id) + e.weight]
  }

  /** The ids in the order they first come. */
  function FirstSeen<Id(==)>(es: seq<Entry<Id>>): seq<Id> {
    if es == [] then []
    else
      var before, id := FirstSeen(es[..|es| - 1]), es[|es| - 1].id;
      if id in before then before else before + [id]
  }

  function Above<Id>(score: map<Id, real>): (Id, Id) -> bool {
    (x, y) => Get(score, x) > Get(score, y)
  }

  function Fused<Id(==)>(lists: seq<seq<Id>>): seq<Id> {
    Sorted(Above(Tally(Entries(lists))), FirstSeen(Entries(lists)))
  }

  lemma TallyOneMore<Id>(es: seq<Entry<Id>>, e: Entry<Id>)
    ensures Tally(es + [e]) == Tally(es)[e.id := Get(Tally(es), e.id) + e.weight]
    ensures FirstSeen(es + [e]) == if e.id in FirstSeen(es) then FirstSeen(es) else FirstSeen(es) + [e.id]
  {
    assert (es + [e])[..|es|] == es;
  }

  lemma EntriesOneMore<Id>(lists: seq<seq<Id>>, i: nat)
    requires i < |lists|
    ensures Entries(lists[..i + 1]) == Entries(lists[..i]) + Weighted(lists[i])
  {
    assert lists[..i + 1][..i] == lists[..i];
  }

  method Fuse<Id(==)>(lists: seq<seq<Id>>) returns (order: seq<Id>)
    ensures order == Fused(lists)
  {
    hide Tally, FirstSeen, Entries, Weight, Get;
    var score: map<Id, real> := map[];
    var keys: seq<Id> := [];
    NoEntries<Id>();
    assert lists[..0] == [];
    for i := 0 to |lists|
      invariant score == Tally(Entries(lists[..i])) && keys == FirstSeen(Entries(lists[..i]))
    {
      var list := lists[i];
      ghost var done, added := Entries(lists[..i]), Weighted(list);
      EntriesOneMore(lists, i);
      assert done + added[..0] == done;
      for rank := 0 to |list|
        invariant score == Tally(done + added[..rank]) && keys == FirstSeen(done + added[..rank])
      {
        var id := list[rank];
        assert done + added[..rank + 1] == done + added[..rank] + [Entry(id, Weight(rank))];
        TallyOneMore(done + added[..rank], Entry(id, Weight(rank)));
        score := score[id := Get(score, id) + Weight(rank)];
        keys := if id in keys then keys else keys + [id];
      }
      assert added[..|list|] == added;
    }
    assert lists[..|lists|] == lists;
    order := Sorted(Above(score), keys);
  }

  lemma NoEntries<Id>()
    ensures Entries<Id>([]) == [] && Tally<Id>([]) == map[] && FirstSeen<Id>([]) == []
  {
  }

  // --------------------------------------------------------------- a permutation

  predicate NoRepeats<T(==)>(xs: seq<T>) {
    forall i, j :: 0 <= i < j < |xs| ==> xs[i] != xs[j]
  }

  lemma {:induction false} FirstSeenOnce<Id>(es: seq<Entry<Id>>)
    ensures NoRepeats(FirstSeen(es))
    ensures forall id :: id in FirstSeen(es) <==> exists i :: 0 <= i < |es| && es[i].id == id
  {
    if es != [] {
      var before := es[..|es| - 1];
      FirstSeenOnce(before);
      forall id ensures id in FirstSeen(es) <==> exists i :: 0 <= i < |es| && es[i].id == id {
        assert (exists i :: 0 <= i < |es| && es[i].id == id)
          <==> es[|es| - 1].id == id || exists i :: 0 <= i < |before| && before[i].id == id;
      }
    }
  }

  lemma {:induction false} EntriesAreTheLists<Id>(lists: seq<seq<Id>>, id: Id)
    ensures (exists i :: 0 <= i < |Entries(lists)| && Entries(lists)[i].id == id) <==> exists l :: l in lists && id in l
  {
    if lists != [] {
      var before, last := lists[..|lists| - 1], lists[|lists| - 1];
      EntriesAreTheLists(before, id);
      assert lists == before + [last];
      var es, ws := Entries(before), Weighted(last);
      if i :| 0 <= i < |Entries(lists)| && Entries(lists)[i].id == id {
        if i < |es| {
          assert es[i].id == id;
        } else {
          assert ws[i - |es|].id == id && id in last;
        }
      }
      if l :| l in lists && id in l {
        if l in before {
          var i :| 0 <= i < |es| && es[i].id == id;
          assert Entries(lists)[i].id == id;
        } else {
          var r :| 0 <= r < |last| && last[r] == id;
          assert ws[r].id == id && Entries(lists)[|es| + r].id == id;
        }
      }
    }
  }

  lemma NoRepeatsIsAMultiset<T>(xs: seq<T>)
    requires forall x :: multiset(xs)[x] <= 1
    ensures NoRepeats(xs)
  {
    forall i, j | 0 <= i < j < |xs| ensures xs[i] != xs[j] {
      var a, b := xs[..j], xs[j..];
      assert xs == a + b && a[i] == xs[i] && b[0] == xs[j];
      assert multiset(xs)[xs[i]] == multiset(a)[xs[i]] + multiset(b)[xs[i]];
      assert xs[i] in multiset(a) && xs[j] in multiset(b);
    }
  }

  lemma {:induction false} AtMostOne<T>(xs: seq<T>, x: T)
    requires NoRepeats(xs)
    ensures multiset(xs)[x] <= 1
  {
    if xs != [] {
      AtMostOne(xs[..|xs| - 1], x);
      assert xs == xs[..|xs| - 1] + [xs[|xs| - 1]];
      assert xs[|xs| - 1] !in xs[..|xs| - 1];
    }
  }

  /** The fused order holds every id of the lists, once. */
  lemma FusedHoldsEachOnce<Id(!new)>(lists: seq<seq<Id>>)
    ensures NoRepeats(Fused(lists))
    ensures forall id :: id in Fused(lists) <==> exists l :: l in lists && id in l
  {
    hide Tally, Above, Sorted, NoRepeats;
    var es := Entries(lists);
    var keys := FirstSeen(es);
    FirstSeenOnce(es);
    SortedIsPermutation(Above(Tally(es)), keys);
    forall x ensures multiset(Fused(lists))[x] <= 1 { AtMostOne(keys, x); }
    NoRepeatsIsAMultiset(Fused(lists));
    forall id ensures id in Fused(lists) <==> exists l :: l in lists && id in l { EntriesAreTheLists(lists, id); }
  }

  // ------------------------------------------------------------------- the scores

  /** What one list gives an id: a weight for every place it has there. */
  function ListScore<Id(==)>(list: seq<Id>, id: Id): (s: real)
    ensures s >= 0.0
  {
    if list == [] then 0.0
    else ListScore(list[..|list| - 1], id) + if list[|list| - 1] == id then Weight(|list| - 1) else 0.0
  }

  function Score<Id(==)>(lists: seq<seq<Id>>, id: Id): (s: real)
    ensures s >= 0.0
  {
    if lists == [] then 0.0 else Score(lists[..|lists| - 1], id) + ListScore(lists[|lists| - 1], id)
  }

  lemma {:induction false} TallyOfList<Id>(done: seq<Entry<Id>>, list: seq<Id>, id: Id)
    ensures Get(Tally(done + Weighted(list)), id) == Get(Tally(done), id) + ListScore(list, id)
  {
    if list == [] {
      assert done + Weighted(list) == done;
    } else {
      var before := list[..|list| - 1];
      TallyOfList(done, before, id);
      var more := done + Weighted(list);
      assert more[..|more| - 1] == done + Weighted(before);
    }
  }

  /** The dictionary of scores holds the sums. */
  lemma {:induction false} TallyIsScore<Id>(lists: seq<seq<Id>>, id: Id)
    ensures Get(Tally(Entries(lists)), id) == Score(lists, id)
  {
    if lists != [] {
      TallyIsScore(lists[..|lists| - 1], id);
      TallyOfList(Entries(lists[..|lists| - 1]), lists[|lists| - 1], id);
    }
  }

  predicate Precedes<T(==)>(xs: seq<T>, a: T, b: T) {
    exists i, j :: 0 <= i < j < |xs| && xs[i] == a && xs[j] == b
  }

  lemma AboveIsWeak<Id(!new)>(score: map<Id, real>)
    ensures WeakOrder(Above(score))
  {
  }

  /** A higher score comes first. */
  lemma HigherPrecedes<Id(!new)>(lists: seq<seq<Id>>, a: Id, b: Id)
    requires a in Fused(lists) && b in Fused(lists) && Score(lists, a) > Score(lists, b)
    ensures Precedes(Fused(lists), a, b)
  {
    hide Score, Tally, Entries, FirstSeen, Sorted;
    var score := Tally(Entries(lists));
    var order := Fused(lists);
    TallyIsScore(lists, a);
    TallyIsScore(lists, b);
    AboveIsWeak(score);
    SortedIsOrdered(Above(score), FirstSeen(Entries(lists)));
    var i :| 0 <= i < |order| && order[i] == a;
    var j :| 0 <= j < |order| && order[j] == b;
    assert Above(score)(a, b);
    assert i != j;
  }

  // ------------------------------------------------------------- what fusion respects

  /** The list puts `a` before `b`, or does not hold `b`; and it holds `b` at most once. */
  predicate Prefers<Id(==)>(list: seq<Id>, a: Id, b: Id) {
    b in list ==> exists i, j :: 0 <= i < j < |list| && list[i] == a && OnlyAt(list, b, j)
  }

  predicate OnlyAt<Id(==)>(list: seq<Id>, id: Id, r: int)
    requires 0 <= r < |list|
  {
    list[r] == id && forall k :: 0 <= k < |list| && k != r ==> list[k] != id
  }

  lemma {:induction false} AbsentScoresNothing<Id>(list: seq<Id>, id: Id)
    requires id !in list
    ensures ListScore(list, id) == 0.0
  {
    if list != [] { AbsentScoresNothing(list[..|list| - 1], id); }
  }

  lemma {:induction false} OnceScores<Id>(list: seq<Id>, id: Id, r: nat)
    requires r < |list| && OnlyAt(list, id, r)
    ensures ListScore(list, id) == Weight(r)
  {
    if r == |list| - 1 {
      AbsentScoresNothing(list[..r], id);
    } else {
      OnceScores(list[..|list| - 1], id, r);
    }
  }

  lemma {:induction false} HeldScores<Id>(list: seq<Id>, id: Id, r: nat)
    requires r < |list| && list[r] == id
    ensures ListScore(list, id) >= Weight(r)
  {
    if r < |list| - 1 { HeldScores(list[..|list| - 1], id, r); }
  }

  lemma PreferredScoresMore<Id>(list: seq<Id>, a: Id, b: Id)
    requires Prefers(list, a, b)
    ensures ListScore(list, a) >= ListScore(list, b)
    ensures b in list ==> ListScore(list, a) > ListScore(list, b)
  {
    if b in list {
      hide ListScore, Weight;
      var i, j :| 0 <= i < j < |list| && list[i] == a && OnlyAt(list, b, j);
      HeldScores(list, a, i);
      OnceScores(list, b, j);
      EarlierIsWorthMore(i, j);
    } else {
      AbsentScoresNothing(list, b);
    }
  }

  lemma {:induction false} PreferredTotalsMore<Id>(lists: seq<seq<Id>>, a: Id, b: Id)
    requires forall i :: 0 <= i < |lists| ==> Prefers(lists[i], a, b)
    ensures Score(lists, a) >= Score(lists, b)
    ensures (exists l :: l in lists && b in l) ==> Score(lists, a) > Score(lists, b)
  {
    if lists != [] {
      var before, last := lists[..|lists| - 1], lists[|lists| - 1];
      assert lists == before + [last];
      PreferredTotalsMore(before, a, b);
      hide ListScore, Prefers;
      PreferredScoresMore(last, a, b);
    }
  }

  /** What every list that ranks `b` puts before it comes before it in the fused order. */
  lemma FusionIsPareto<Id(!new)>(lists: seq<seq<Id>>, a: Id, b: Id)
    requires forall i :: 0 <= i < |lists| ==> Prefers(lists[i], a, b)
    requires b in Fused(lists)
    ensures Precedes(Fused(lists), a, b)
  {
    FusedHoldsEachOnce(lists);
    var l :| l in lists && b in l;
    var i :| 0 <= i < |lists| && lists[i] == l;
    assert Prefers(lists[i], a, b) && a in l;
    hide *;
    PreferredTotalsMore(lists, a, b);
    HigherPrecedes(lists, a, b);
  }

  lemma {:induction false} InTwoLists<Id>(lists: seq<seq<Id>>, id: Id, p: nat, q: nat, i: nat, j: nat)
    requires p < q < |lists| && i < |lists[p]| && lists[p][i] == id && j < |lists[q]| && lists[q][j] == id
    ensures Score(lists, id) >= Weight(i) + Weight(j)
  {
    hide ListScore, Weight;
    if q == |lists| - 1 {
      InOneList(lists[..q], id, p, i);
      HeldScores(lists[q], id, j);
    } else {
      InTwoLists(lists[..|lists| - 1], id, p, q, i, j);
    }
  }

  lemma {:induction false} InOneList<Id>(lists: seq<seq<Id>>, id: Id, p: nat, i: nat)
    requires p < |lists| && i < |lists[p]| && lists[p][i] == id
    ensures Score(lists, id) >= Weight(i)
  {
    hide ListScore, Weight;
    if p == |lists| - 1 {
      HeldScores(lists[p], id, i);
    } else {
      InOneList(lists[..|lists| - 1], id, p, i);
    }
  }

  lemma {:induction false} InNoList<Id>(lists: seq<seq<Id>>, id: Id)
    requires forall k :: 0 <= k < |lists| ==> id !in lists[k]
    ensures Score(lists, id) == 0.0
  {
    if lists != [] {
      InNoList(lists[..|lists| - 1], id);
      AbsentScoresNothing(lists[|lists| - 1], id);
    }
  }

  lemma {:induction false} InThatListOnly<Id>(lists: seq<seq<Id>>, id: Id, p: nat, i: nat)
    requires p < |lists| && i < |lists[p]| && OnlyAt(lists[p], id, i)
    requires forall k :: 0 <= k < |lists| && k != p ==> id !in lists[k]
    ensures Score(lists, id) == Weight(i)
  {
    hide ListScore, Weight;
    if p == |lists| - 1 {
      InNoList(lists[..p], id);
      OnceScores(lists[p], id, i);
    } else {
      InThatListOnly(lists[..|lists| - 1], id, p, i);
      AbsentScoresNothing(lists[|lists| - 1], id);
    }
  }

  lemma TwoPlacesBeatOne(i: nat, j: nat, k: nat)
    requires i <= K && j <= K
    ensures Weight(i) + Weight(j) > Weight(k)
  {
    if i < K { EarlierIsWorthMore(i, K); }
    if j < K { EarlierIsWorthMore(j, K); }
    if k > 0 { EarlierIsWorthMore(0, k); }
  }

  /** Consensus wins: what two lists rank among their first sixty-one comes before whatever only one list
      ranks, at the head of it or not. */
  lemma ConsensusWins<Id(!new)>(lists: seq<seq<Id>>, a: Id, p: nat, q: nat, i: nat, j: nat, b: Id, s: nat, k: nat)
    requires p < q < |lists| && i < |lists[p]| && lists[p][i] == a && j < |lists[q]| && lists[q][j] == a
    requires i <= 60 && j <= 60
    requires s < |lists| && k < |lists[s]| && OnlyAt(lists[s], b, k)
    requires forall l :: 0 <= l < |lists| && l != s ==> b !in lists[l]
    ensures Precedes(Fused(lists), a, b)
  {
    FusedHoldsEachOnce(lists);
    assert a in lists[p] && b in lists[s] && lists[p] in lists && lists[s] in lists;
    hide *;
    InTwoLists(lists, a, p, q, i, j);
    InThatListOnly(lists, b, s, k);
    TwoPlacesBeatOne(i, j, k);
    HigherPrecedes(lists, a, b);
  }

  /** One ranking alone comes out as it went in. */
  lemma OneListIsKept<Id(!new)>(list: seq<Id>)
    requires NoRepeats(list)
    ensures Fused([list]) == list
  {
    hide Tally, Score, ListScore, Weight, FirstSeen, Sorted;
    var es := Weighted(list);
    assert Entries([list]) == es by {
      assert [list][..0] == [] && Entries<Id>([]) == [] && [] + es == es;
    }
    KeysOfOneList(list);
    forall i, j | 0 <= i < j < |list| ensures !Above(Tally(es))(list[j], list[i]) {
      TallyIsScore([list], list[i]);
      TallyIsScore([list], list[j]);
      OnceScores(list, list[i], i);
      OnceScores(list, list[j], j);
      ScoreOfOne(list, list[i]);
      ScoreOfOne(list, list[j]);
      EarlierIsWorthMore(i, j);
    }
    OrderedIsSorted(Above(Tally(es)), list);
  }

  lemma ScoreOfOne<Id>(list: seq<Id>, id: Id)
    ensures Score([list], id) == ListScore(list, id)
  {
    assert [list][..0] == [] && Score([], id) == 0.0;
  }

  lemma {:induction false} KeysOfOneList<Id>(list: seq<Id>)
    requires NoRepeats(list)
    ensures FirstSeen(Weighted(list)) == list
  {
    if list != [] {
      var before := list[..|list| - 1];
      assert Weighted(list)[..|list| - 1] == Weighted(before);
      KeysOfOneList(before);
      assert list == before + [list[|list| - 1]];
    }
  }

  // --------------------------------------------------------- how far consensus reaches

  lemma {:induction false} InThoseTwoOnly<Id>(lists: seq<seq<Id>>, id: Id, p: nat, q: nat, i: nat, j: nat)
    requires p < q < |lists| && i < |lists[p]| && OnlyAt(lists[p], id, i) && j < |lists[q]| && OnlyAt(lists[q], id, j)
    requires forall k :: 0 <= k < |lists| && k != p && k != q ==> id !in lists[k]
    ensures Score(lists, id) == Weight(i) + Weight(j)
  {
    hide ListScore, Weight;
    if q == |lists| - 1 {
      InThatListOnly(lists[..q], id, p, i);
      OnceScores(lists[q], id, j);
    } else {
      InThoseTwoOnly(lists[..|lists| - 1], id, p, q, i, j);
      AbsentScoresNothing(lists[|lists| - 1], id);
    }
  }

  lemma TwiceAgainstTheHead(r: nat)
    ensures Weight(r) + Weight(r) > Weight(0) <==> r <= 60
    ensures Weight(r) + Weight(r) < Weight(0) <==> r >= 62
  {
    var w, x := Weight(r), (61 + r) as real;
    assert w * x == 1.0 && Weight(0) * 61.0 == 1.0;
    if r <= 60 {
      assert w * x < w * 122.0;
    } else if r == 61 {
      assert w * 122.0 == 1.0;
    } else {
      assert w * x > w * 122.0;
    }
  }

  /** What two lists rank `r` places below their heads comes before what one list alone puts at its head as long as
      it is among their first sixty-one, and after it from the sixty-third place on. */
  lemma ConsensusReaches<Id(!new)>(lists: seq<seq<Id>>, a: Id, p: nat, q: nat, r: nat, b: Id, s: nat)
    requires p < q < |lists| && r < |lists[p]| && OnlyAt(lists[p], a, r) && r < |lists[q]| && OnlyAt(lists[q], a, r)
    requires forall k :: 0 <= k < |lists| && k != p && k != q ==> a !in lists[k]
    requires s < |lists| && 0 < |lists[s]| && OnlyAt(lists[s], b, 0)
    requires forall k :: 0 <= k < |lists| && k != s ==> b !in lists[k]
    ensures r <= 60 ==> Precedes(Fused(lists), a, b)
    ensures r >= 62 ==> Precedes(Fused(lists), b, a)
  {
    FusedHoldsEachOnce(lists);
    assert a in lists[p] && b in lists[s] && lists[p] in lists && lists[s] in lists;
    hide *;
    InThoseTwoOnly(lists, a, p, q, r, r);
    InThatListOnly(lists, b, s, 0);
    TwiceAgainstTheHead(r);
    if r <= 60 {
      HigherPrecedes(lists, a, b);
    } else if r >= 62 {
      HigherPrecedes(lists, b, a);
    }
  }

  // --------------------------------------------------------------------------- ties

  lemma {:induction false} FirstSeenGrows<Id>(es: seq<Entry<Id>>, n: nat)
    requires n <= |es|
    ensures FirstSeen(es[..n]) <= FirstSeen(es)
  {
    if n < |es| {
      var before := es[..|es| - 1];
      FirstSeenGrows(before, n);
      assert before[..n] == es[..n];
    } else {
      assert es[..n] == es;
    }
  }

  lemma {:induction false} EntriesStart<Id>(lists: seq<seq<Id>>, p: nat)
    requires p < |lists|
    ensures Entries(lists[..p]) + Weighted(lists[p]) <= Entries(lists)
  {
    if p < |lists| - 1 {
      var before := lists[..|lists| - 1];
      EntriesStart(before, p);
      assert before[..p] == lists[..p];
    }
  }

  /** `a` is met at a place before which `b` is nowhere, lists taken in turn. */
  ghost predicate ComesFirst<Id>(lists: seq<seq<Id>>, a: Id, b: Id) {
    exists p: nat, i: nat :: p < |lists| && MeetsFirst(lists, a, b, p, i)
  }

  ghost predicate MeetsFirst<Id>(lists: seq<seq<Id>>, a: Id, b: Id, p: nat, i: nat)
    requires p < |lists|
  {
    && i < |lists[p]| && lists[p][i] == a && b !in lists[p][..i + 1]
    && forall k :: 0 <= k < p ==> b !in lists[k]
  }

  lemma NotMetBefore<Id(!new)>(lists: seq<seq<Id>>, a: Id, b: Id, p: nat, i: nat) returns (n: nat)
    requires p < |lists| && MeetsFirst(lists, a, b, p, i)
    ensures 0 < n <= |Entries(lists)| && Entries(lists)[n - 1].id == a
    ensures forall m :: 0 <= m < n ==> Entries(lists)[m].id != b
  {
    hide Entries;
    var es, done, mine := Entries(lists), Entries(lists[..p]), Weighted(lists[p]);
    EntriesStart(lists, p);
    n := |done| + i + 1;
    assert es[n - 1] == (done + mine)[|done| + i] == mine[i];
    EntriesAreTheLists(lists[..p], b);
    forall m | 0 <= m < n ensures es[m].id != b {
      assert es[m] == (done + mine)[m];
      if m < |done| {
        assert done[m].id != b;
      } else {
        assert mine[m - |done|].id == lists[p][..i + 1][m - |done|];
      }
    }
  }

  lemma SeenEarlier<Id(!new)>(es: seq<Entry<Id>>, a: Id, b: Id, n: nat)
    requires 0 < n <= |es| && es[n - 1].id == a && b in FirstSeen(es)
    requires forall m :: 0 <= m < n ==> es[m].id != b
    ensures Precedes(FirstSeen(es), a, b)
  {
    hide FirstSeen;
    var start := es[..n];
    FirstSeenGrows(es, n);
    FirstSeenOnce(start);
    var keys, all := FirstSeen(start), FirstSeen(es);
    assert start[n - 1].id == a && a in keys;
    assert b !in keys;
    assert forall k :: 0 <= k < |keys| ==> all[k] == keys[k] && all[k] != b;
    var x :| 0 <= x < |keys| && keys[x] == a;
    var y :| 0 <= y < |all| && all[y] == b;
    assert all[x] == a && x < y;
  }

  lemma SeenFirst<Id(!new)>(lists: seq<seq<Id>>, a: Id, b: Id)
    requires ComesFirst(lists, a, b) && b in FirstSeen(Entries(lists))
    ensures Precedes(FirstSeen(Entries(lists)), a, b)
  {
    hide FirstSeen, Entries, MeetsFirst, Precedes;
    var p: nat, i: nat :| p < |lists| && MeetsFirst(lists, a, b, p, i);
    var n := NotMetBefore(lists, a, b, p, i);
    SeenEarlier(Entries(lists), a, b, n);
  }

  lemma {:induction false} TiesHold<T>(before: (T, T) -> bool, xs: seq<T>, y: T)
    ensures forall x :: x in Ties(before, xs, y) <==> x in xs && !before(x, y) && !before(y, x)
  {
    if xs != [] {
      TiesHold(before, xs[..|xs| - 1], y);
      assert xs == xs[..|xs| - 1] + [xs[|xs| - 1]];
    }
  }

  lemma PrecedesLonger<T>(xs: seq<T>, x: T, a: T, b: T)
    ensures Precedes(xs + [x], a, b) <==> Precedes(xs, a, b) || (x == b && a in xs)
  {
    var more := xs + [x];
    if Precedes(more, a, b) {
      var i, j :| 0 <= i < j < |more| && more[i] == a && more[j] == b;
      assert xs[i] == a;
      if j < |xs| { assert xs[j] == b; }
    }
    if Precedes(xs, a, b) {
      var i, j :| 0 <= i < j < |xs| && xs[i] == a && xs[j] == b;
      assert more[i] == a && more[j] == b;
    }
    if x == b && a in xs {
      var i :| 0 <= i < |xs| && xs[i] == a;
      assert more[i] == a && more[|xs|] == b;
    }
  }

  /** Of two that tie, which precedes which can be read off the ties alone. */
  lemma {:induction false} TiesPrecede<T>(before: (T, T) -> bool, xs: seq<T>, a: T, b: T)
    requires !before(a, b) && !before(b, a) && !before(a, a)
    ensures Precedes(Ties(before, xs, a), a, b) <==> Precedes(xs, a, b)
  {
    if xs != [] {
      var start, x := xs[..|xs| - 1], xs[|xs| - 1];
      hide Precedes;
      TiesPrecede(before, start, a, b);
      TiesHold(before, start, a);
      PrecedesLonger(start, x, a, b);
      PrecedesLonger(Ties(before, start, a), x, a, b);
      assert xs == start + [x] && Ties(before, start, a) + [] == Ties(before, start, a);
    }
  }

  /** Of two equal scores, the one met first comes first. */
  lemma TiesComeAsMet<Id(!new)>(lists: seq<seq<Id>>, a: Id, b: Id)
    requires Score(lists, a) == Score(lists, b) && b in Fused(lists) && ComesFirst(lists, a, b)
    ensures Precedes(Fused(lists), a, b)
  {
    hide Score, Tally, Entries, FirstSeen, Sorted, Ties, ComesFirst, Precedes;
    var before, keys := Above(Tally(Entries(lists))), FirstSeen(Entries(lists));
    TallyIsScore(lists, a);
    TallyIsScore(lists, b);
    AboveIsWeak(Tally(Entries(lists)));
    SortedIsPermutation(before, keys);
    SeenFirst(lists, a, b);
    SortedIsStable(before, keys, a);
    TiesPrecede(before, keys, a, b);
    TiesPrecede(before, Sorted(before, keys), a, b);
  }
}
