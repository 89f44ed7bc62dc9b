/**
  Whole groups evicted, cheapest first, until the rest fits: the loop that
  ranks the groups anew each pass, and the one sorted order it follows.
 */
module ContextEviction {
  import opened ContextItems
  import Sorting

  // --------------------------------------------------- one order, shortest prefix

  /** `gone` holds every evictable group ranked before any it holds. */
  ghost predicate IsPrefix(sel: Selection, n: nat, gone: set<string>) {
    && gone <= Evictables(sel, n)
    && forall g, h :: g in gone && h in Evictables(sel, n) && h !in gone ==> Sooner(sel, n, g, h)
  }

  ghost predicate Fits(sel: Selection, n: nat, gone: set<string>, fixed: nat, available: nat) {
    fixed + Total(Without(sel, gone), n) <= available
  }

  /** `gone` is the shortest prefix of the evictable groups, by rank, whose going makes the rest fit;
      or all of them, if none does. */
  ghost predicate IsEviction(sel: Selection, n: nat, gone: set<string>, fixed: nat, available: nat) {
    && IsPrefix(sel, n, gone)
    && (Fits(sel, n, gone, fixed, available) || gone == Evictables(sel, n))
    && Needed(sel, n, gone, fixed, available)
  }

  /** The last group to go had to. */
  ghost predicate Needed(sel: Selection, n: nat, gone: set<string>, fixed: nat, available: nat) {
    gone != {} ==> exists last :: last in gone && IsPrefix(sel, n, gone - {last})
                                  && !Fits(sel, n, gone - {last}, fixed, available)
  }

  lemma OneMoreIsNeeded(sel: Selection, n: nat, gone: set<string>, g: string, fixed: nat, available: nat)
    requires IsPrefix(sel, n, gone) && !Fits(sel, n, gone, fixed, available) && g !in gone
    ensures Needed(sel, n, gone + {g}, fixed, available)
  {
    assert gone + {g} - {g} == gone;
  }

  lemma EvictablesAre(sel: Selection, n: nat, g: string)
    ensures g in Evictables(sel, n) <==> Evictable(sel, n, g)
  {
    if Evictable(sel, n, g) {
      var i := Members(sel, n, g)[0];
      assert i in sel && i < n && GroupOf(i, sel[i]) == g;
    }
  }

  /** Two groups never rank alike. */
  lemma RanksDiffer(sel: Selection, n: nat, g: string, h: string)
    requires g in Evictables(sel, n) && h in Evictables(sel, n) && g != h
    ensures Sooner(sel, n, g, h) <==> !Sooner(sel, n, h, g)
  {
    EvictablesAre(sel, n, g);
    EvictablesAre(sel, n, h);
    FirstIsMember(sel, Members(sel, n, g));
    FirstIsMember(sel, Members(sel, n, h));
  }

  lemma FirstIsMember(sel: Selection, m: seq<nat>)
    requires m != [] && forall k :: 0 <= k < |m| ==> m[k] in sel
    ensures exists k :: 0 <= k < |m| && m[k] == RankOf(sel, m).first
  {
    var firsts := seq(|m|, k requires 0 <= k < |m| => m[k] as int);
    var k :| 0 <= k < |firsts| && firsts[k] == Least(firsts);
    assert m[k] == RankOf(sel, m).first;
  }

  lemma {:induction false} TotalShrinks(sel: Selection, n: nat, a: set<string>, b: set<string>)
    requires a <= b
    ensures Total(Without(sel, b), n) <= Total(Without(sel, a), n)
  {
    if n > 0 { TotalShrinks(sel, n - 1, a, b); }
  }

  lemma PrefixesNest(sel: Selection, n: nat, a: set<string>, b: set<string>)
    requires IsPrefix(sel, n, a) && IsPrefix(sel, n, b)
    ensures a <= b || b <= a
  {
    if g :| g in a && g !in b {
      forall h | h in b ensures h in a {
        if h !in a {
          RanksDiffer(sel, n, g, h);
        }
      }
    }
  }

  /** With more room, no more is evicted. */
  lemma MoreRoomEvictsLess(sel: Selection, n: nat, fixed: nat, available: nat, more: nat,
                           gone: set<string>, less: set<string>)
    requires available <= more
    requires IsEviction(sel, n, gone, fixed, available) && IsEviction(sel, n, less, fixed, more)
    ensures less <= gone
  {
    PrefixesNest(sel, n, less, gone);
    NotShorter(sel, n, fixed, available, more, gone, less);
  }

  lemma NotShorter(sel: Selection, n: nat, fixed: nat, available: nat, more: nat,
                   gone: set<string>, less: set<string>)
    requires available <= more
    requires IsEviction(sel, n, gone, fixed, available) && IsEviction(sel, n, less, fixed, more)
    ensures !(gone < less)
  {
    hide IsPrefix, Total, Without;
    if gone < less {
      var last :| last in less && IsPrefix(sel, n, less - {last}) && !Fits(sel, n, less - {last}, fixed, more);
      PrefixesNest(sel, n, gone, less - {last});
      PrefixIsEvictable(sel, n, less);
      TotalShrinks(sel, n, gone, less - {last});
    }
  }

  lemma PrefixIsEvictable(sel: Selection, n: nat, gone: set<string>)
    requires IsPrefix(sel, n, gone)
    ensures gone <= Evictables(sel, n)
  {
  }

  lemma EvictionIsUnique(sel: Selection, n: nat, fixed: nat, available: nat, a: set<string>, b: set<string>)
    requires IsEviction(sel, n, a, fixed, available) && IsEviction(sel, n, b, fixed, available)
    ensures a == b
  {
    MoreRoomEvictsLess(sel, n, fixed, available, available, a, b);
    MoreRoomEvictsLess(sel, n, fixed, available, available, b, a);
  }

  function SetOf(order: seq<string>): set<string> {
    set g | g in order
  }

  /** The evictable groups, each once, in rank order. */
  ghost predicate IsSorted(sel: Selection, n: nat, order: seq<string>) {
    && SetOf(order) == Evictables(sel, n)
    && forall i, j :: 0 <= i < j < |order| ==> Sooner(sel, n, order[i], order[j])
  }

  lemma BeforeTheCut(order: seq<string>, k: nat, j: nat)
    requires k <= |order| && j < |order|
    ensures j < k ==> order[j] in SetOf(order[..k])
  {
    if j < k { assert order[..k][j] == order[j]; }
  }

  lemma SortedStartIsPrefix(sel: Selection, n: nat, order: seq<string>, k: nat)
    requires IsSorted(sel, n, order) && k <= |order|
    ensures IsPrefix(sel, n, SetOf(order[..k]))
  {
    hide Sooner, Evictables;
    forall g, h | g in SetOf(order[..k]) && h in Evictables(sel, n) && h !in SetOf(order[..k])
      ensures Sooner(sel, n, g, h)
    {
      var i :| 0 <= i < k && order[i] == g;
      assert h in SetOf(order);
      var j :| 0 <= j < |order| && order[j] == h;
      BeforeTheCut(order, k, j);
    }
  }

  /** Evicting one group at a time, ranking again before each, is sorting once and taking the
      shortest prefix that fits. */
  lemma EvictionIsSortedPrefix(sel: Selection, n: nat, fixed: nat, available: nat, gone: set<string>,
                               order: seq<string>, k: nat)
    requires IsEviction(sel, n, gone, fixed, available) && IsSorted(sel, n, order) && k <= |order|
    requires Fits(sel, n, SetOf(order[..k]), fixed, available) || k == |order|
    requires forall j :: 0 <= j < k ==> !Fits(sel, n, SetOf(order[..j]), fixed, available)
    ensures gone == SetOf(order[..k])
  {
    hide Sooner, Fits, Evictables;
    var mine := SetOf(order[..k]);
    SortedStartIsPrefix(sel, n, order, k);
    assert k == |order| ==> order[..k] == order;
    if k > 0 {
      SortedStartIsPrefix(sel, n, order, k - 1);
      assert order[..k] == order[..k - 1] + [order[k - 1]];
      assert order[k - 1] !in order[..k - 1] by {
        forall i | 0 <= i < k - 1 ensures order[i] != order[k - 1] {
          SoonerIsStrict(sel, n, order[i], order[k - 1]);
        }
      }
      assert mine - {order[k - 1]} == SetOf(order[..k - 1]);
      assert order[k - 1] in mine;
    } else {
      assert mine == {};
    }
    EvictionIsUnique(sel, n, fixed, available, gone, mine);
  }

  // ------------------------------------------------------------- the sorted order

  /** A group with its rank, to be sorted by it. */
  datatype RankedGroup = RankedGroup(rank: Rank, group: string)

  predicate RanksBefore(a: RankedGroup, b: RankedGroup) {
    a.rank.Before(b.rank)
  }

  ghost predicate IsRanked(sel: Selection, n: nat, r: RankedGroup) {
    r.group in Evictables(sel, n) && Members(sel, n, r.group) != [] && r.rank == RankOf(sel, Members(sel, n, r.group))
  }

  function GroupSeq(rs: seq<RankedGroup>): seq<string> {
    seq(|rs|, i requires 0 <= i < |rs| => rs[i].group)
  }

  predicate DistinctGroups(rs: seq<RankedGroup>) {
    forall i, j :: 0 <= i < j < |rs| ==> rs[i].group != rs[j].group
  }

  ghost predicate AllRanked(sel: Selection, n: nat, rs: seq<RankedGroup>) {
    forall i :: 0 <= i < |rs| ==> IsRanked(sel, n, rs[i])
  }

  lemma RankGroups(sel: Selection, n: nat, gs: set<string>) returns (rs: seq<RankedGroup>)
    requires gs <= Evictables(sel, n)
    ensures AllRanked(sel, n, rs) && DistinctGroups(rs) && SetOf(GroupSeq(rs)) == gs
    decreases gs
  {
    hide IsRanked, Evictables, Members, RankOf;
    if gs == {} {
      rs := [];
    } else {
      var g :| g in gs;
      var rest := RankGroups(sel, n, gs - {g});
      var last := RankGroup(sel, n, g);
      rs := rest + [last];
      GroupsGrow(rest, last);
      assert gs - {g} + {g} == gs;
    }
  }

  lemma RankGroup(sel: Selection, n: nat, g: string) returns (r: RankedGroup)
    requires g in Evictables(sel, n)
    ensures IsRanked(sel, n, r) && r.group == g
  {
    EvictablesAre(sel, n, g);
    r := RankedGroup(RankOf(sel, Members(sel, n, g)), g);
  }

  lemma GroupsGrow(rs: seq<RankedGroup>, r: RankedGroup)
    requires DistinctGroups(rs) && r.group !in SetOf(GroupSeq(rs))
    ensures DistinctGroups(rs + [r]) && SetOf(GroupSeq(rs + [r])) == SetOf(GroupSeq(rs)) + {r.group}
  {
    assert GroupSeq(rs + [r]) == GroupSeq(rs) + [r.group];
    forall i | 0 <= i < |rs| ensures rs[i].group != r.group {
      assert GroupSeq(rs)[i] in SetOf(GroupSeq(rs));
    }
  }

  lemma RanksAreOrdered()
    ensures Sorting.WeakOrder(RanksBefore)
  {
  }

  lemma StaysDistinct(rs: seq<RankedGroup>, sorted: seq<RankedGroup>)
    requires multiset(sorted) == multiset(rs) && DistinctGroups(rs)
    ensures DistinctGroups(sorted)
  {
    forall i, j | 0 <= i < j < |sorted| ensures sorted[i].group != sorted[j].group {
      assert sorted[i] in multiset(rs) && sorted[j] in multiset(rs);
      var k :| 0 <= k < |rs| && rs[k] == sorted[i];
      var l :| 0 <= l < |rs| && rs[l] == sorted[j];
      if sorted[i] == sorted[j] { TwiceThere(rs, sorted, i, j, k); }
    }
  }

  lemma TwiceThere<T>(rs: seq<T>, sorted: seq<T>, i: nat, j: nat, k: nat)
    requires multiset(sorted) == multiset(rs) && i < j < |sorted| && k < |rs|
    requires sorted[i] == sorted[j] == rs[k]
    ensures exists l :: 0 <= l < |rs| && l != k && rs[l] == rs[k]
  {
    var x := rs[k];
    assert sorted == sorted[..j] + sorted[j..] && sorted[..j][i] == x && sorted[j..][0] == x;
    assert multiset(sorted)[x] == multiset(sorted[..j])[x] + multiset(sorted[j..])[x];
    assert x in multiset(sorted[..j]) && x in multiset(sorted[j..]);
    assert rs == rs[..k] + [x] + rs[k + 1..];
    assert multiset(rs)[x] == multiset(rs[..k])[x] + 1 + multiset(rs[k + 1..])[x];
    if x in multiset(rs[..k]) {
      var l :| 0 <= l < k && rs[..k][l] == x;
      assert rs[l] == x;
    } else {
      assert x in multiset(rs[k + 1..]);
      var l :| 0 <= l < |rs[k + 1..]| && rs[k + 1..][l] == x;
      assert rs[k + 1 + l] == x;
    }
  }

  lemma SameGroups(rs: seq<RankedGroup>, sorted: seq<RankedGroup>)
    requires forall x :: x in sorted <==> x in rs
    ensures SetOf(GroupSeq(sorted)) == SetOf(GroupSeq(rs))
  {
    GroupsWithin(rs, sorted);
    GroupsWithin(sorted, rs);
  }

  lemma GroupsWithin(rs: seq<RankedGroup>, sorted: seq<RankedGroup>)
    requires forall x :: x in sorted ==> x in rs
    ensures SetOf(GroupSeq(sorted)) <= SetOf(GroupSeq(rs))
  {
    forall g | g in SetOf(GroupSeq(sorted)) ensures g in SetOf(GroupSeq(rs)) {
      var i :| 0 <= i < |sorted| && GroupSeq(sorted)[i] == g;
      assert sorted[i] in rs;
      var j :| 0 <= j < |rs| && rs[j] == sorted[i];
      assert GroupSeq(rs)[j] == g;
    }
  }

  /** The evictable groups can be put in one order, each before all of higher rank. */
  lemma TheSortedOrder(sel: Selection, n: nat) returns (order: seq<string>)
    ensures IsSorted(sel, n, order)
  {
    var rs := RankGroups(sel, n, Evictables(sel, n));
    hide Evictables, Members, RankOf, Sooner, IsRanked, RanksBefore;
    var sorted := Sorting.Sorted(RanksBefore, rs);
    RanksAreOrdered();
    Sorting.SortedIsOrdered(RanksBefore, rs);
    Sorting.SortedIsPermutation(RanksBefore, rs);
    StaysDistinct(rs, sorted);
    SameGroups(rs, sorted);
    order := GroupSeq(sorted);
    forall i, j | 0 <= i < j < |order| ensures Sooner(sel, n, order[i], order[j]) {
      assert sorted[i] in rs && sorted[j] in rs;
      RankedSooner(sel, n, sorted[i], sorted[j]);
    }
  }

  lemma RankedSooner(sel: Selection, n: nat, a: RankedGroup, b: RankedGroup)
    requires IsRanked(sel, n, a) && IsRanked(sel, n, b) && a.group != b.group && !RanksBefore(b, a)
    ensures Sooner(sel, n, a.group, b.group)
  {
    RanksDiffer(sel, n, a.group, b.group);
    hide Members, RankOf, Evictables;
  }

  lemma SoonerIsStrict(sel: Selection, n: nat, g: string, h: string)
    requires Sooner(sel, n, g, h)
    ensures g != h
  {
  }

  /** There is an order of the unprotected groups by rank, and what goes is its shortest start that makes the
      rest fit, or all of it. */
  lemma EvictionIsShortestStart(sel: Selection, n: nat, fixed: nat, available: nat, gone: set<string>)
      returns (order: seq<string>, k: nat)
    requires IsEviction(sel, n, gone, fixed, available)
    ensures IsSorted(sel, n, order) && k <= |order| && gone == SetOf(order[..k])
    ensures Fits(sel, n, gone, fixed, available) || k == |order|
    ensures forall j :: 0 <= j < k ==> !Fits(sel, n, SetOf(order[..j]), fixed, available)
  {
    order := TheSortedOrder(sel, n);
    hide Fits, IsSorted, IsEviction, SetOf;
    k := 0;
    while k < |order| && !Fits(sel, n, SetOf(order[..k]), fixed, available)
      invariant k <= |order|
      invariant forall j :: 0 <= j < k ==> !Fits(sel, n, SetOf(order[..j]), fixed, available)
    {
      k := k + 1;
    }
    EvictionIsSortedPrefix(sel, n, fixed, available, gone, order, k);
  }

  // -------------------------------------------------------------- the eviction loop

  lemma {:induction false} MembersWithout(sel: Selection, n: nat, gone: set<string>, g: string)
    ensures Members(Without(sel, gone), n, g) == if g in gone then [] else Members(sel, n, g)
  {
    if n == 0 {
      NoMembers(sel, g);
      NoMembers(Without(sel, gone), g);
    } else {
      hide Members, GroupOf;
      MembersWithout(sel, n - 1, gone, g);
      MembersNext(sel, n - 1, g);
      MembersNext(Without(sel, gone), n - 1, g);
    }
  }

  /** Once some groups are gone, the others are evictable as before, in the order they were. */
  lemma OthersRankAsBefore(sel: Selection, n: nat, gone: set<string>, g: string, h: string)
    ensures Evictable(Without(sel, gone), n, g) <==> g !in gone && Evictable(sel, n, g)
    ensures g !in gone && h !in gone ==> (Sooner(Without(sel, gone), n, g, h) <==> Sooner(sel, n, g, h))
  {
    hide GroupOf, Without, RankOf;
    MembersWithout(sel, n, gone, g);
    MembersWithout(sel, n, gone, h);
    if g !in gone { RankWithout(sel, gone, Members(sel, n, g)); }
    if h !in gone { RankWithout(sel, gone, Members(sel, n, h)); }
  }

  lemma RankWithout(sel: Selection, gone: set<string>, m: seq<nat>)
    requires forall k :: 0 <= k < |m| ==> m[k] in sel && GroupOf(m[k], sel[m[k]]) !in gone
    ensures forall k :: 0 <= k < |m| ==> m[k] in Without(sel, gone) && Without(sel, gone)[m[k]] == sel[m[k]]
    ensures m != [] ==> RankOf(Without(sel, gone), m) == RankOf(sel, m)
  {
    var w := Without(sel, gone);
    assert seq(|m|, k requires 0 <= k < |m| => Tier(w[m[k]].layer))
        == seq(|m|, k requires 0 <= k < |m| => Tier(sel[m[k]].layer));
    assert seq(|m|, k requires 0 <= k < |m| => w[m[k]].priority)
        == seq(|m|, k requires 0 <= k < |m| => sel[m[k]].priority);
    assert seq(|m|, k requires 0 <= k < |m| => FreshnessOrder(w[m[k]].freshness))
        == seq(|m|, k requires 0 <= k < |m| => FreshnessOrder(sel[m[k]].freshness));
  }

  /** Every group with a member below `n`, with its members. */
  ghost predicate Groups(sel: Selection, n: nat, grouped: map<string, seq<nat>>) {
    forall g :: (g in grouped <==> Members(sel, n, g) != []) && (g in grouped ==> grouped[g] == Members(sel, n, g))
  }

  lemma NoMembers(sel: Selection, g: string)
    ensures Members(sel, 0, g) == []
  {
  }

  lemma MembersNext(sel: Selection, i: nat, g: string)
    ensures Members(sel, i + 1, g) == Members(sel, i, g) + if i in sel && GroupOf(i, sel[i]) == g then [i] else []
  {
  }

  lemma GroupsNext(sel: Selection, i: nat, grouped: map<string, seq<nat>>)
    requires Groups(sel, i, grouped)
    ensures i !in sel ==> Groups(sel, i + 1, grouped)
    ensures i in sel ==>
              var g := GroupOf(i, sel[i]);
              Groups(sel, i + 1, grouped[g := (if g in grouped then grouped[g] else []) + [i]])
  {
    hide GroupOf, Members;
    forall g ensures Members(sel, i + 1, g) ==
                     Members(sel, i, g) + if i in sel && GroupOf(i, sel[i]) == g then [i] else [] {
      MembersNext(sel, i, g);
    }
  }

  /** Every group's members, in one pass over the items. */
  method GroupItems(sel: Selection, n: nat) returns (grouped: map<string, seq<nat>>)
    ensures Groups(sel, n, grouped)
  {
    hide Groups, GroupOf;
    grouped := map[];
    NoGroups(sel);
    var i := 0;
    while i < n
      invariant 0 <= i <= n && Groups(sel, i, grouped)
    {
      GroupsNext(sel, i, grouped);
      if i in sel {
        var g := GroupOf(i, sel[i]);
        grouped := grouped[g := (if g in grouped then grouped[g] else []) + [i]];
      }
      i := i + 1;
    }
  }

  lemma NoGroups(sel: Selection)
    ensures Groups(sel, 0, map[])
  {
  }

  datatype Candidate = Candidate(rank: Rank, group: string, members: seq<nat>)

  ghost predicate IsCandidate(sel: Selection, n: nat, c: Candidate) {
    && Evictable(sel, n, c.group) && c.members == Members(sel, n, c.group)
    && c.rank == RankOf(sel, Members(sel, n, c.group))
  }

  predicate Lists(groups: seq<Candidate>, g: string) {
    exists k :: 0 <= k < |groups| && groups[k].group == g
  }

  lemma ListsMore(groups: seq<Candidate>, c: Candidate)
    ensures Lists(groups + [c], c.group)
    ensures forall g :: Lists(groups, g) ==> Lists(groups + [c], g)
  {
    var more := groups + [c];
    assert more[|groups|].group == c.group;
    forall g | Lists(groups, g) ensures Lists(more, g) {
      var k :| 0 <= k < |groups| && groups[k].group == g;
      assert more[k].group == g;
    }
  }

  /** The groups that may be dropped, each once, with the rank that decides the order. */
  method EvictableGroups(sel: Selection, n: nat) returns (groups: seq<Candidate>)
    ensures forall k :: 0 <= k < |groups| ==> IsCandidate(sel, n, groups[k])
    ensures forall g :: Evictable(sel, n, g) ==> Lists(groups, g)
    ensures forall j, k :: 0 <= j < k < |groups| ==> groups[j].group != groups[k].group
  {
    hide RankOf, Lists, Members, GroupOf;
    var grouped := GroupItems(sel, n);
    groups := [];
    var waiting := grouped.Keys;
    while waiting != {}
      invariant waiting <= grouped.Keys
      invariant forall k :: 0 <= k < |groups| ==> IsCandidate(sel, n, groups[k])
      invariant forall g :: Evictable(sel, n, g) && g !in waiting ==> Lists(groups, g)
      invariant forall k :: 0 <= k < |groups| ==> groups[k].group !in waiting
      invariant forall j, k :: 0 <= j < k < |groups| ==> groups[j].group != groups[k].group
      decreases waiting
    {
      var g :| g in waiting;
      var m := grouped[g];
      assert m == Members(sel, n, g);
      if forall k :: 0 <= k < |m| ==> !sel[m[k]].protected {
        ListsMore(groups, Candidate(RankOf(sel, m), g, m));
        groups := groups + [Candidate(RankOf(sel, m), g, m)];
      }
      waiting := waiting - {g};
    }
  }

  // ------------------------------------------------------------- what a group is worth

  function Greatest(xs: seq<int>): (x: int)
    requires xs != []
    ensures x in xs && forall k :: 0 <= k < |xs| ==> x >= xs[k]
  {
    if |xs| == 1 then xs[0]
    else
      var y := Greatest(xs[1..]);
      if xs[0] >= y then xs[0] else y
  }

  predicate AllAlike(xs: seq<int>) {
    forall j, k :: 0 <= j < |xs| && 0 <= k < |xs| ==> xs[j] == xs[k]
  }

  lemma LeastIsGreatestIff(xs: seq<int>)
    requires xs != []
    ensures Least(xs) <= Greatest(xs) && (Least(xs) == Greatest(xs) <==> AllAlike(xs))
  {
    var i :| 0 <= i < |xs| && xs[i] == Least(xs);
    var j :| 0 <= j < |xs| && xs[j] == Greatest(xs);
  }

  /** The counts of a group's members on which its worth depends. */
  function Tiers(sel: Selection, m: seq<nat>): seq<int>
    requires forall k :: 0 <= k < |m| ==> m[k] in sel
  {
    seq(|m|, k requires 0 <= k < |m| => Tier(sel[m[k]].layer))
  }

  function Priorities(sel: Selection, m: seq<nat>): seq<int>
    requires forall k :: 0 <= k < |m| ==> m[k] in sel
  {
    seq(|m|, k requires 0 <= k < |m| => sel[m[k]].priority)
  }

  function Freshnesses(sel: Selection, m: seq<nat>): seq<int>
    requires forall k :: 0 <= k < |m| ==> m[k] in sel
  {
    seq(|m|, k requires 0 <= k < |m| => FreshnessOrder(sel[m[k]].freshness))
  }

  /** The lowest rank goes first. A group's rank is that of its least valuable member on each count, and so
      that of its most valuable one exactly where its members agree. */
  lemma RankIsLeastWorth(sel: Selection, m: seq<nat>)
    requires m != [] && forall k :: 0 <= k < |m| ==> m[k] in sel
    ensures var r := RankOf(sel, m);
            && (forall k :: 0 <= k < |m| ==> && r.tier <= Tier(sel[m[k]].layer) && r.priority <= sel[m[k]].priority
                                              && r.freshness <= FreshnessOrder(sel[m[k]].freshness))
            && (r.tier == Greatest(Tiers(sel, m)) <==> AllAlike(Tiers(sel, m)))
            && (r.priority == Greatest(Priorities(sel, m)) <==> AllAlike(Priorities(sel, m)))
            && (r.freshness == Greatest(Freshnesses(sel, m)) <==> AllAlike(Freshnesses(sel, m)))
  {
    hide AllAlike, Least, Greatest;
    LeastIsGreatestIff(Tiers(sel, m));
    LeastIsGreatestIff(Priorities(sel, m));
    LeastIsGreatestIff(Freshnesses(sel, m));
    RankIsLeast(sel, m);
    forall k | 0 <= k < |m|
      ensures && RankOf(sel, m).tier <= Tier(sel[m[k]].layer) && RankOf(sel, m).priority <= sel[m[k]].priority
              && RankOf(sel, m).freshness <= FreshnessOrder(sel[m[k]].freshness)
    {
      assert Tiers(sel, m)[k] == Tier(sel[m[k]].layer);
      assert Priorities(sel, m)[k] == sel[m[k]].priority;
      assert Freshnesses(sel, m)[k] == FreshnessOrder(sel[m[k]].freshness);
    }
  }

  lemma RankIsLeast(sel: Selection, m: seq<nat>)
    requires m != [] && forall k :: 0 <= k < |m| ==> m[k] in sel
    ensures RankOf(sel, m).tier == Least(Tiers(sel, m)) && RankOf(sel, m).priority == Least(Priorities(sel, m))
    ensures RankOf(sel, m).freshness == Least(Freshnesses(sel, m))
  {
  }

  /** So one member of a lower tier takes its group, however valuable the rest of it, before every group of
      higher tiers. */
  lemma LeastMemberDecides(sel: Selection, n: nat, g: string, h: string, i: nat)
    requires i in Members(sel, n, g) && Members(sel, n, h) != []
    requires forall j :: j in Members(sel, n, h) ==> Tier(sel[i].layer) < Tier(sel[j].layer)
    ensures Sooner(sel, n, g, h)
  {
    var m, o := Members(sel, n, g), Members(sel, n, h);
    hide Members, RankOf, Least;
    RankIsLeastWorth(sel, m);
    RankIsLeast(sel, o);
    var t := Tiers(sel, o);
    var k :| 0 <= k < |t| && t[k] == Least(t);
    assert o[k] in o;
  }

  /** Of two items on their own in one tier the lower priority goes first; of equals the staler, then the earlier. */
  lemma SinglesGo(sel: Selection, n: nat, g: string, h: string, i: nat, j: nat)
    requires Members(sel, n, g) == [i] && Members(sel, n, h) == [j] && Tier(sel[i].layer) == Tier(sel[j].layer)
    ensures var x, y := sel[i], sel[j]; var sooner := Sooner(sel, n, g, h);
            && (x.priority < y.priority ==> sooner) && (x.priority > y.priority ==> !sooner)
            && (x.priority == y.priority && x.freshness.StaleItem? && !y.freshness.StaleItem? ==> sooner)
            && (x.priority == y.priority && x.freshness.RecentItem? && y.freshness.CurrentItem? ==> sooner)
            && (x.priority == y.priority && x.freshness == y.freshness ==> (sooner <==> i < j))
  {
    hide Members;
    OneRank(sel, i);
    OneRank(sel, j);
  }

  lemma OneRank(sel: Selection, i: nat)
    requires i in sel
    ensures RankOf(sel, [i]) == Rank(Tier(sel[i].layer), sel[i].priority, FreshnessOrder(sel[i].freshness), i)
  {
  }

  /** Why an item is left out is told from its layer: old conversation, tool evidence, retrieval, or anything else. */
  lemma WhyLeftOut(sel: Selection, gone: set<string>, i: nat)
    requires i in Dropped(sel, gone)
    ensures var left, layer := Dropped(sel, gone)[i], sel[i].layer;
            && left.item == sel[i]
            && (left.reason.ObsoleteConversation? <==> layer.RecentConversation? || layer.ConversationSummary?)
            && (left.reason.RedundantToolEvidence? <==> layer.ToolEvidence?)
            && (left.reason.LowValueRetrieval? <==> layer.RetrievedContext?)
  {
  }

  method FirstToGo(sel: Selection, n: nat, groups: seq<Candidate>) returns (first: Candidate)
    requires groups != [] && forall k :: 0 <= k < |groups| ==> IsCandidate(sel, n, groups[k])
    ensures first in groups
    ensures forall k :: 0 <= k < |groups| && groups[k].group != first.group ==> Sooner(sel, n, first.group, groups[k].group)
  {
    hide IsCandidate, Evictable;
    first := groups[0];
    var i := 1;
    while i < |groups|
      invariant 1 <= i <= |groups| && first in groups
      invariant forall k :: 0 <= k < i ==> !groups[k].rank.Before(first.rank)
    {
      if groups[i].rank.Before(first.rank) {
        first := groups[i];
      }
      i := i + 1;
    }
    forall k | 0 <= k < |groups| && groups[k].group != first.group ensures Sooner(sel, n, first.group, groups[k].group) {
      NotBeforeIsSooner(sel, n, first, groups[k]);
    }
  }

  lemma NotBeforeIsSooner(sel: Selection, n: nat, c: Candidate, d: Candidate)
    requires IsCandidate(sel, n, c) && IsCandidate(sel, n, d) && c.group != d.group && !d.rank.Before(c.rank)
    ensures Sooner(sel, n, c.group, d.group)
  {
    EvictablesAre(sel, n, c.group);
    EvictablesAre(sel, n, d.group);
    hide RankOf;
    RanksDiffer(sel, n, c.group, d.group);
  }

  datatype Reason = ObsoleteConversation | RedundantToolEvidence | LowValueRetrieval | LowerPriority

  function ExclusionReason(layer: Layer): Reason {
    match layer
    case RecentConversation => ObsoleteConversation
    case ConversationSummary => ObsoleteConversation
    case ToolEvidence => RedundantToolEvidence
    case RetrievedContext => LowValueRetrieval
    case _ => LowerPriority
  }

  datatype Excluded = Excluded(item: Item, reason: Reason)

  /** The items of the groups that are gone, each with why. */
  function Dropped(sel: Selection, gone: set<string>): map<nat, Excluded> {
    map i | i in sel && GroupOf(i, sel[i]) in gone :: Excluded(sel[i], ExclusionReason(sel[i].layer))
  }

  lemma GoneByMembers(sel: Selection, n: nat, gone: set<string>, g: string, m: seq<nat>)
    requires g !in gone && m == Members(sel, n, g) && forall i :: i in sel ==> i < n
    ensures Without(sel, gone + {g}) == Without(sel, gone) - Positions(m)
    ensures Dropped(sel, gone + {g}) == Dropped(sel, gone) + Reasons(Without(sel, gone), m)
    ensures forall k :: 0 <= k < |m| ==> m[k] in Without(sel, gone)
  {
    hide Members, GroupOf;
    GoneSets(sel, gone, g, m);
    GoneReasons(sel, gone, g, m);
  }

  lemma GoneSets(sel: Selection, gone: set<string>, g: string, m: seq<nat>)
    requires g !in gone && forall i :: i in m <==> i in sel && GroupOf(i, sel[i]) == g
    ensures Without(sel, gone + {g}) == Without(sel, gone) - Positions(m)
    ensures forall i :: i in m ==> i in Without(sel, gone)
  {
    hide GroupOf;
  }

  lemma GoneReasons(sel: Selection, gone: set<string>, g: string, m: seq<nat>)
    requires g !in gone && forall i :: i in m <==> i in sel && GroupOf(i, sel[i]) == g
    ensures Dropped(sel, gone + {g}) == Dropped(sel, gone) + Reasons(Without(sel, gone), m)
  {
    hide GroupOf, ExclusionReason;
  }

  function Positions(m: seq<nat>): set<nat> {
    set i | i in m
  }

  function Reasons(sel: Selection, m: seq<nat>): map<nat, Excluded> {
    map i | i in m && i in sel :: Excluded(sel[i], ExclusionReason(sel[i].layer))
  }

  lemma OnePopped(sel: Selection, m: seq<nat>, k: nat)
    requires k < |m| && forall j :: 0 <= j < |m| ==> m[j] in sel
    requires forall i, j :: 0 <= i < j < |m| ==> m[i] < m[j]
    ensures m[k] !in Positions(m[..k])
    ensures Positions(m[..k + 1]) == Positions(m[..k]) + {m[k]}
    ensures Reasons(sel, m[..k + 1]) == Reasons(sel, m[..k])[m[k] := Excluded(sel[m[k]], ExclusionReason(sel[m[k]].layer))]
  {
    assert m[..k + 1] == m[..k] + [m[k]];
  }

  lemma NonePopped(sel: Selection)
    ensures Positions([]) == {} && Reasons(sel, []) == map[]
  {
  }

  /** Pop one group's items, in order. */
  method PopGroup(sel: Selection, out: map<nat, Excluded>, m: seq<nat>)
      returns (rest: Selection, excluded: map<nat, Excluded>)
    requires forall k :: 0 <= k < |m| ==> m[k] in sel
    requires forall j, k :: 0 <= j < k < |m| ==> m[j] < m[k]
    ensures rest == sel - Positions(m)
    ensures excluded == out + Reasons(sel, m)
  {
    hide Positions, Reasons;
    NonePopped(sel);
    assert m[..0] == [];
    rest, excluded := sel, out;
    var k := 0;
    while k < |m|
      invariant 0 <= k <= |m|
      invariant rest == sel - Positions(m[..k])
      invariant excluded == out + Reasons(sel, m[..k])
    {
      OnePopped(sel, m, k);
      var item := rest[m[k]];
      rest := rest - {m[k]};
      excluded := excluded[m[k] := Excluded(item, ExclusionReason(item.layer))];
      k := k + 1;
    }
    assert m[..k] == m;
  }

  /** The first pass: drop whole groups, cheapest first, ranking again each time. */
  method Evict(sel: Selection, n: nat, fixed: nat, available: nat)
      returns (rest: Selection, excluded: map<nat, Excluded>, gone: set<string>)
    requires forall i :: i in sel ==> i < n
    ensures IsEviction(sel, n, gone, fixed, available)
    ensures rest == Without(sel, gone) && excluded == Dropped(sel, gone)
  {
    hide IsPrefix, Total, Evictable, Evictables, Sooner, Members, Without, Dropped, GroupOf, Lists, IsCandidate, Needed;
    NothingGone(sel, n, fixed, available);
    rest, excluded, gone := sel, map[], {};
    while fixed + Total(rest, n) > available
      invariant rest == Without(sel, gone) && excluded == Dropped(sel, gone)
      invariant IsPrefix(sel, n, gone) && Needed(sel, n, gone, fixed, available)
      decreases rest.Keys
    {
      var groups := EvictableGroups(rest, n);
      if groups == [] {
        NoneLeft(sel, n, gone, groups);
        break;
      }
      var first := FirstToGo(rest, n, groups);
      ghost var before := rest;
      NextToGo(sel, n, gone, groups, first);
      OneMoreIsNeeded(sel, n, gone, first.group, fixed, available);
      GoneByMembers(sel, n, gone, first.group, first.members);
      rest, excluded := PopGroup(rest, excluded, first.members);
      assert first.members[0] in before.Keys && first.members[0] !in rest.Keys;
      gone := gone + {first.group};
    }
  }

  lemma NothingGone(sel: Selection, n: nat, fixed: nat, available: nat)
    ensures Without(sel, {}) == sel && Dropped(sel, {}) == map[]
    ensures IsPrefix(sel, n, {}) && Needed(sel, n, {}, fixed, available)
  {
  }

  lemma NoneLeft(sel: Selection, n: nat, gone: set<string>, groups: seq<Candidate>)
    requires IsPrefix(sel, n, gone) && groups == []
    requires forall g :: Evictable(Without(sel, gone), n, g) ==> Lists(groups, g)
    ensures gone == Evictables(sel, n)
  {
    forall g | g in Evictables(sel, n) ensures g in gone {
      EvictablesAre(sel, n, g);
      OthersRankAsBefore(sel, n, gone, g, g);
    }
  }

  lemma NextToGo(sel: Selection, n: nat, gone: set<string>, groups: seq<Candidate>, first: Candidate)
    requires IsPrefix(sel, n, gone) && first in groups
    requires forall k :: 0 <= k < |groups| ==> IsCandidate(Without(sel, gone), n, groups[k])
    requires forall g :: Evictable(Without(sel, gone), n, g) ==> Lists(groups, g)
    requires forall k :: 0 <= k < |groups| && groups[k].group != first.group
                         ==> Sooner(Without(sel, gone), n, first.group, groups[k].group)
    ensures first.group !in gone && first.members == Members(sel, n, first.group) && first.members != []
    ensures IsPrefix(sel, n, gone + {first.group})
  {
    hide Sooner, Members, RankOf;
    var g := first.group;
    assert IsCandidate(Without(sel, gone), n, first);
    OthersRankAsBefore(sel, n, gone, g, g);
    MembersWithout(sel, n, gone, g);
    EvictablesAre(sel, n, g);
    forall h | h in Evictables(sel, n) && h !in gone + {g} ensures Sooner(sel, n, g, h) {
      EvictablesAre(sel, n, h);
      OthersRankAsBefore(sel, n, gone, g, h);
      OthersRankAsBefore(sel, n, gone, h, h);
      assert Lists(groups, h);
    }
  }

  /** Groups go whole, and one protected member keeps its whole group. */
  lemma GroupsGoWhole(sel: Selection, n: nat, fixed: nat, available: nat, gone: set<string>, i: nat, j: nat)
    requires forall k :: k in sel ==> k < n
    requires IsEviction(sel, n, gone, fixed, available) && i in sel && j in sel
    requires GroupOf(i, sel[i]) == GroupOf(j, sel[j])
    ensures i in Without(sel, gone) <==> j in Without(sel, gone)
    ensures sel[i].protected ==> j in Without(sel, gone)
  {
    var g := GroupOf(i, sel[i]);
    assert i in Members(sel, n, g);
    if g in gone {
      PrefixIsEvictable(sel, n, gone);
      EvictablesAre(sel, n, g);
    }
  }

  /** So items that name one group share their fate, and one that is protected keeps them all. */
  lemma GroupmatesStayTogether(sel: Selection, n: nat, fixed: nat, available: nat, gone: set<string>, i: nat, j: nat)
    requires forall k :: k in sel ==> k < n
    requires IsEviction(sel, n, gone, fixed, available) && i in sel && j in sel
    requires sel[i].group.Some? && sel[i].group.value != "" && sel[i].group == sel[j].group
    ensures i in Without(sel, gone) <==> j in Without(sel, gone)
    ensures sel[i].protected ==> j in Without(sel, gone)
  {
    SameGroupIff(i, sel[i], j, sel[j]);
    GroupsGoWhole(sel, n, fixed, available, gone, i, j);
  }

  /** An item that names no group is a group by itself, as long as nobody's group is named after a place. */
  lemma AloneWithoutAGroup(sel: Selection, n: nat, i: nat)
    requires i in sel && i < n && (sel[i].group.Some? ==> sel[i].group.value == "")
    requires forall j :: j in sel && sel[j].group.Some? ==> !("item:" <= sel[j].group.value)
    ensures Members(sel, n, GroupOf(i, sel[i])) == [i]
    ensures Evictable(sel, n, GroupOf(i, sel[i])) <==> !sel[i].protected
  {
    forall j | j in sel ensures GroupOf(j, sel[j]) == GroupOf(i, sel[i]) <==> j == i {
      NobodyElse(i, sel[i], j, sel[j]);
    }
    MembersWhenAlone(sel, n, GroupOf(i, sel[i]), i);
  }

  predicate IsOnlyMember(sel: Selection, g: string, i: nat) {
    forall j :: j in sel ==> (GroupOf(j, sel[j]) == g <==> j == i)
  }

  lemma {:induction false} MembersWhenAlone(sel: Selection, n: nat, g: string, i: nat)
    requires i in sel && IsOnlyMember(sel, g, i)
    ensures Members(sel, n, g) == if i < n then [i] else []
  {
    hide *;
    if n == 0 {
      NoneAtFirst(sel, g);
    } else {
      MembersWhenAlone(sel, n - 1, g, i);
      LastMember(sel, n, g, i);
    }
  }

  lemma NoneAtFirst(sel: Selection, g: string)
    ensures Members(sel, 0, g) == []
  {
  }

  lemma LastMember(sel: Selection, n: nat, g: string, i: nat)
    requires n > 0 && IsOnlyMember(sel, g, i) && i in sel
    ensures Members(sel, n, g) == Members(sel, n - 1, g) + if i == n - 1 then [n - 1] else []
  {
    assert n - 1 in sel ==> (GroupOf(n - 1, sel[n - 1]) == g <==> i == n - 1);
    hide GroupOf, IsOnlyMember;
  }

  lemma NobodyElse(i: nat, a: Item, j: nat, b: Item)
    requires (a.group.Some? ==> a.group.value == "") && (b.group.Some? ==> !("item:" <= b.group.value))
    requires i == j ==> a == b
    ensures GroupOf(i, a) == GroupOf(j, b) <==> i == j
  {
    SameGroupIff(i, a, j, b);
    assert "item:" <= "item:" + Digits(i);
  }
}
