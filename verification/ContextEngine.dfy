/**
  The context allocator: normalise, evict, shorten, account.
 */
module ContextEngine {
  import opened ContextEviction
  import opened ContextItems
  import opened ContextTruncation
  import opened Wrappers

  // ------------------------------------------------------------------- accounting

  /** The values of a position map, in position order. */
  function InOrder<T>(m: map<nat, T>, n: nat): seq<T> {
    if n == 0 then [] else InOrder(m, n - 1) + if n - 1 in m then [m[n - 1]] else []
  }

  datatype Stats = Stats(included: nat, excluded: nat, tokens: nat)

  function CountIn(items: seq<Item>, layer: Layer): nat {
    if items == [] then 0
    else var last := |items| - 1; CountIn(items[..last], layer) + if items[last].layer == layer then 1 else 0
  }

  function TokensIn(items: seq<Item>, layer: Layer): nat {
    if items == [] then 0
    else var last := |items| - 1; TokensIn(items[..last], layer) + if items[last].layer == layer then Tokens(items[last]) else 0
  }

  function ItemsOf(excluded: seq<Excluded>): seq<Item> {
    seq(|excluded|, i requires 0 <= i < |excluded| => excluded[i].item)
  }

  const LAYERS: set<Layer> := {
    SystemRules, ProjectRules, DurableMemory, TaskWorkingState,
    ConversationSummary, RecentConversation, RetrievedContext, ToolEvidence}

  lemma EveryLayer(layer: Layer)
    ensures layer in LAYERS
  {
  }

  /** Each layer's row after `selected` and `dropped` have been counted. */
  ghost predicate Counted(values: map<Layer, Stats>, selected: seq<Item>, dropped: seq<Item>) {
    && values.Keys == LAYERS
    && forall layer :: layer in values ==>
         values[layer] == Stats(CountIn(selected, layer), CountIn(dropped, layer), TokensIn(selected, layer))
  }

  lemma CountOneMore(values: map<Layer, Stats>, selected: seq<Item>, dropped: seq<Item>, item: Item)
    requires Counted(values, selected, dropped)
    ensures item.layer in values
    ensures var now := values[item.layer];
            && Counted(values[item.layer := Stats(now.included + 1, now.excluded, now.tokens + Tokens(item))],
                       selected + [item], dropped)
            && Counted(values[item.layer := Stats(now.included, now.excluded + 1, now.tokens)],
                       selected, dropped + [item])
  {
    EveryLayer(item.layer);
    hide CountIn, TokensIn;
    forall layer
      ensures CountIn(selected + [item], layer) == CountIn(selected, layer) + if item.layer == layer then 1 else 0
      ensures CountIn(dropped + [item], layer) == CountIn(dropped, layer) + if item.layer == layer then 1 else 0
      ensures TokensIn(selected + [item], layer)
              == TokensIn(selected, layer) + if item.layer == layer then Tokens(item) else 0
    {
      CountsGrow(selected, item, layer);
      CountsGrow(dropped, item, layer);
    }
  }

  lemma CountsGrow(items: seq<Item>, item: Item, layer: Layer)
    ensures CountIn(items + [item], layer) == CountIn(items, layer) + if item.layer == layer then 1 else 0
    ensures TokensIn(items + [item], layer) == TokensIn(items, layer) + if item.layer == layer then Tokens(item) else 0
  {
    assert (items + [item])[..|items|] == items;
  }

  /** Two passes, adding each item to its layer. */
  method LayerStatistics(selected: seq<Item>, excluded: seq<Excluded>) returns (values: map<Layer, Stats>)
    ensures Counted(values, selected, ItemsOf(excluded))
  {
    hide Counted;
    values := map layer | layer in LAYERS :: Stats(0, 0, 0);
    NothingCounted();
    var dropped := ItemsOf(excluded);
    var i := 0;
    assert selected[..0] == [] && dropped[..0] == [];
    while i < |selected|
      invariant 0 <= i <= |selected| && Counted(values, selected[..i], [])
    {
      var item := selected[i];
      CountOneMore(values, selected[..i], [], item);
      assert selected[..i + 1] == selected[..i] + [item];
      var now := values[item.layer];
      values := values[item.layer := Stats(now.included + 1, now.excluded, now.tokens + Tokens(item))];
      i := i + 1;
    }
    assert selected[..i] == selected;
    i := 0;
    while i < |excluded|
      invariant 0 <= i <= |excluded| && Counted(values, selected, dropped[..i])
    {
      var item := excluded[i].item;
      CountOneMore(values, selected, dropped[..i], item);
      assert dropped[..i + 1] == dropped[..i] + [item];
      var now := values[item.layer];
      values := values[item.layer := Stats(now.included, now.excluded + 1, now.tokens)];
      i := i + 1;
    }
    assert dropped[..i] == dropped;
  }

  lemma NothingCounted()
    ensures Counted(map layer | layer in LAYERS :: Stats(0, 0, 0), [], [])
  {
  }

  function SumTokens(items: seq<Item>): nat {
    if items == [] then 0 else SumTokens(items[..|items| - 1]) + Tokens(items[|items| - 1])
  }

  /** The layers' tokens add up to the total; no item is counted twice or left out. */
  lemma {:induction false} LayersAddUp(items: seq<Item>)
    ensures TokensIn(items, SystemRules) + TokensIn(items, ProjectRules) + TokensIn(items, DurableMemory)
            + TokensIn(items, TaskWorkingState) + TokensIn(items, ConversationSummary)
            + TokensIn(items, RecentConversation) + TokensIn(items, RetrievedContext)
            + TokensIn(items, ToolEvidence) == SumTokens(items)
  {
    if items != [] { LayersAddUp(items[..|items| - 1]); }
  }

  lemma {:induction false} InOrderSums(sel: Selection, n: nat)
    ensures SumTokens(InOrder(sel, n)) == Total(sel, n)
  {
    if n > 0 {
      InOrderSums(sel, n - 1);
      var before := InOrder(sel, n - 1);
      if n - 1 in sel {
        assert (before + [sel[n - 1]])[..|before|] == before;
      } else {
        assert before + [] == before;
      }
    }
  }

  // --------------------------------------------------------------------- compose

  datatype Request = Request(items: seq<Item>, contextLimit: nat, outputReserve: nat, safetyMargin: nat, fixed: nat)

  function Available(r: Request): nat {
    if r.contextLimit - r.outputReserve - r.safetyMargin >= 0
    then r.contextLimit - r.outputReserve - r.safetyMargin else 0
  }

  datatype Snapshot = Snapshot(
    selected: seq<Item>, excluded: seq<Excluded>, estimated: nat, available: nat, statistics: map<Layer, Stats>,
    decisions: seq<Decision>, overflow: nat)

  /** The normalised items by position. */
  function Base(ratio: nat, items: seq<Item>): Selection
    requires ratio >= 1
  {
    map i: nat | i < |items| :: Sized(ratio, items[i])
  }

  method Compose(ratio: nat, request: Request)
      returns (result: Option<Snapshot>, ghost gone: set<string>, ghost cut: seq<nat>, ghost sel: Selection)
    requires ratio >= 1
    ensures result.Some? <==> DistinctIds(request.items)
    ensures result.Some? ==>
              var n, available := |request.items|, Available(request);
              var base, snapshot := Base(ratio, request.items), result.value;
              && IsEviction(base, n, gone, request.fixed, available)
              && sel.Keys == Without(base, gone).Keys
              && (ratio >= 2 ==> IsShortening(ratio, Without(base, gone), n, request.fixed, available, cut, sel))
              && (ratio >= 2 ==> Decided(Without(base, gone), sel, cut, snapshot.decisions))
              && snapshot.selected == InOrder(sel, n)
              && snapshot.excluded == InOrder(Dropped(base, gone), n)
              && snapshot.estimated == request.fixed + SumTokens(snapshot.selected)
              && snapshot.available == available
              && snapshot.overflow == (if snapshot.estimated > available then snapshot.estimated - available else 0)
              && Counted(snapshot.statistics, snapshot.selected, ItemsOf(snapshot.excluded))
              && (ratio >= 2 && snapshot.overflow > 0 ==> forall i: nat :: !Cuttable(sel, i))
    ensures result.Some? ==>
              var snapshot, aside := result.value, request.outputReserve + request.safetyMargin;
              && (snapshot.overflow == 0 <==> snapshot.estimated == 0 || snapshot.estimated + aside <= request.contextLimit)
              && (snapshot.overflow > 0 && request.contextLimit >= aside ==>
                    snapshot.overflow == snapshot.estimated + aside - request.contextLimit)
              && (request.contextLimit <= aside ==> snapshot.overflow == snapshot.estimated)
  {
    hide IsEviction, IsShortening, Decided, Total, Cuttable, DistinctIds, Without, Dropped, InOrder, SumTokens, CountIn,
         TokensIn;
    result, gone, cut, sel := None, {}, [], map[];
    var normalized := Normalize(ratio, request.items);
    if normalized.None? {
      return;
    }
    var n := |request.items|;
    var available := Available(request);
    var items: Selection := map i: nat | i < |normalized.value| :: normalized.value[i];
    assert items == Base(ratio, request.items);
    var rest, excluded, chosen, decisions;
    rest, excluded, gone := Evict(items, n, request.fixed, available);
    RestIsBelow(items, n, gone);
    chosen, decisions, cut := Shorten(ratio, rest, n, request.fixed, available);
    sel := chosen;
    var selectedItems := InOrder(chosen, n);
    var excludedItems := InOrder(excluded, n);
    InOrderSums(chosen, n);
    var estimated := request.fixed + Total(chosen, n);
    var statistics := LayerStatistics(selectedItems, excludedItems);
    result := Some(Snapshot(selectedItems, excludedItems, estimated, available, statistics, decisions,
                            if estimated > available then estimated - available else 0));
  }

  lemma RestIsBelow(sel: Selection, n: nat, gone: set<string>)
    requires forall i :: i in sel ==> i < n
    ensures forall i :: i in Without(sel, gone) ==> i < n
  {
  }

  // ----------------------------------------------------- what a composition promises

  /** Shortening changes only texts and sizes. */
  lemma ShorteningKeepsGroups(ratio: nat, kept: Selection, n: nat, fixed: nat, available: nat, cut: seq<nat>,
                              sel: Selection, i: nat)
    requires ratio >= 2 && IsShortening(ratio, kept, n, fixed, available, cut, sel) && i in kept
    ensures i in sel && sel[i] == kept[i].(content := sel[i].content, estimate := sel[i].estimate)
    ensures i !in cut ==> sel[i] == kept[i]
  {
  }

  /** Alike but for texts and sizes. */
  ghost predicate SameShape(a: Selection, b: Selection) {
    a.Keys == b.Keys && forall i :: i in a ==> a[i].group == b[i].group && a[i].protected == b[i].protected
  }

  lemma {:induction false} SameShapeSameMembers(a: Selection, b: Selection, n: nat, g: string)
    requires SameShape(a, b)
    ensures Members(a, n, g) == Members(b, n, g)
  {
    hide GroupKey, Members;
    if n == 0 {
      NoMembers(a, g);
      NoMembers(b, g);
    } else {
      SameShapeSameMembers(a, b, n - 1, g);
      MembersNext(a, n - 1, g);
      MembersNext(b, n - 1, g);
    }
  }

  lemma SameShapeSameEvictable(a: Selection, b: Selection, n: nat, g: string)
    requires SameShape(a, b)
    ensures Evictable(a, n, g) <==> Evictable(b, n, g)
  {
    SameShapeSameMembers(a, b, n, g);
    hide GroupOf, Members;
  }

  lemma NothingLeftToEvict(base: Selection, n: nat, gone: set<string>, fixed: nat, available: nat, g: string)
    requires IsEviction(base, n, gone, fixed, available) && !Fits(base, n, gone, fixed, available)
    ensures !Evictable(Without(base, gone), n, g)
  {
    hide IsPrefix, Needed, Evictables, Without, Evictable;
    OthersRankAsBefore(base, n, gone, g, g);
    EvictablesAre(base, n, g);
  }

  /** Overflow is reported only when nothing more can be done: no group may still be evicted, and every
      text that may be shortened is at its floor. */
  lemma OverflowIsIrreducible(ratio: nat, base: Selection, n: nat, fixed: nat, available: nat, gone: set<string>,
                              cut: seq<nat>, sel: Selection)
    requires ratio >= 2 && IsEviction(base, n, gone, fixed, available)
    requires IsShortening(ratio, Without(base, gone), n, fixed, available, cut, sel)
    requires fixed + Total(sel, n) > available && forall i: nat :: !Cuttable(sel, i)
    ensures forall g :: !Evictable(sel, n, g)
    ensures forall i :: i in sel && sel[i].truncatable && sel[i].content != "" ==> Tokens(sel[i]) <= sel[i].overhead + 1
    ensures forall i :: i in cut ==> i in sel && Tokens(sel[i]) == sel[i].overhead + 1
  {
    hide IsEviction, IsShortening, Evictable, Total, Without;
    var kept := Without(base, gone);
    ShorteningOnlyShrinks(ratio, kept, n, fixed, available, cut, sel);
    ShorteningKeepsShape(ratio, kept, n, fixed, available, cut, sel);
    CutIsAtItsFloor(ratio, kept, n, fixed, available, cut, sel);
    forall g ensures !Evictable(sel, n, g) {
      NothingLeftToEvict(base, n, gone, fixed, available, g);
      SameShapeSameEvictable(sel, kept, n, g);
    }
    forall i | i in sel && sel[i].truncatable && sel[i].content != ""
      ensures Tokens(sel[i]) <= sel[i].overhead + 1
    {
      assert !Cuttable(sel, i);
    }
  }

  lemma ShorteningKeepsShape(ratio: nat, kept: Selection, n: nat, fixed: nat, available: nat, cut: seq<nat>, sel: Selection)
    requires ratio >= 2 && IsShortening(ratio, kept, n, fixed, available, cut, sel)
    ensures SameShape(sel, kept)
  {
    if cut != [] {
      var last, start := cut[|cut| - 1], cut[..|cut| - 1];
      assert sel.Keys == Floored(ratio, kept, start).Keys;
    }
  }

  lemma CutIsAtItsFloor(ratio: nat, kept: Selection, n: nat, fixed: nat, available: nat, cut: seq<nat>, sel: Selection)
    requires ratio >= 2 && IsShortening(ratio, kept, n, fixed, available, cut, sel)
    requires fixed + Total(sel, n) > available
    ensures forall i :: i in cut ==> i in sel && Tokens(sel[i]) == sel[i].overhead + 1
  {
    hide Total, LastCut;
    forall i | i in cut ensures i in sel && Tokens(sel[i]) == sel[i].overhead + 1 {
      OneCut(ratio, kept, i, 1);
    }
  }

  lemma {:induction false} SmallerTotal(a: Selection, b: Selection, n: nat)
    requires a.Keys == b.Keys && forall i :: i in a ==> Tokens(a[i]) <= Tokens(b[i])
    ensures Total(a, n) <= Total(b, n)
  {
    if n > 0 { SmallerTotal(a, b, n - 1); }
  }

  lemma ShorteningOnlyShrinks(ratio: nat, kept: Selection, n: nat, fixed: nat, available: nat, cut: seq<nat>, sel: Selection)
    requires ratio >= 2 && IsShortening(ratio, kept, n, fixed, available, cut, sel)
    requires fixed + Total(sel, n) > available
    ensures Total(sel, n) <= Total(kept, n)
  {
    forall i | i in kept ensures Tokens(sel[i]) <= Tokens(kept[i]) {
      if i in cut { OneCut(ratio, kept, i, 1); }
    }
    SmallerTotal(sel, kept, n);
  }

  /** The caller's order survives: what is listed stands at rising positions, and all of it is listed. */
  lemma {:induction false} OrderSurvives<T>(m: map<nat, T>, n: nat) returns (at: seq<nat>)
    ensures |at| == |InOrder(m, n)|
    ensures forall k :: 0 <= k < |at| ==> at[k] < n && at[k] in m && InOrder(m, n)[k] == m[at[k]]
    ensures forall j, k :: 0 <= j < k < |at| ==> at[j] < at[k]
    ensures forall i :: i in m && i < n ==> i in at
  {
    if n == 0 {
      at := [];
    } else {
      at := OrderSurvives(m, n - 1);
      if n - 1 in m { at := at + [n - 1]; }
    }
  }

  /** Every item is either selected or excluded, and none is both. */
  lemma {:induction false} NoItemIsLost(base: Selection, gone: set<string>, n: nat)
    requires forall i: nat :: i < n ==> i in base
    ensures |InOrder(Without(base, gone), n)| + |InOrder(Dropped(base, gone), n)| == n
  {
    if n > 0 { NoItemIsLost(base, gone, n - 1); }
  }
}
