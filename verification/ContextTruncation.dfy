/**
  What may not be evicted is shortened, cheapest first, until it fits or
  nothing is left to take.
 */
module ContextTruncation {
  import opened ContextItems
  import opened Wrappers

  // ------------------------------------------------------------- shortening text

  /** There is text left to take from the item. */
  predicate Cuttable(sel: Selection, i: nat) {
    i in sel && sel[i].truncatable && sel[i].content != "" && Tokens(sel[i]) > sel[i].overhead + 1
  }

  datatype CutKey = CutKey(priority: int, freshness: int, size: int, index: int) {
    /** Lower priority first, then staler, then larger, then earlier. */
    predicate Before(other: CutKey) {
      priority < other.priority || (priority == other.priority && (freshness < other.freshness
      || (freshness == other.freshness && (size > other.size || (size == other.size && index < other.index)))))
    }
  }

  /** Of two items the one of lower priority is cut first; of equals the staler, the larger, the earlier. */
  lemma CutFirst(sel: Selection, i: nat, j: nat)
    requires i in sel && j in sel
    ensures var x, y := sel[i], sel[j]; var sooner := KeyOf(sel, i).Before(KeyOf(sel, j));
            && (x.priority < y.priority ==> sooner)
            && (x.priority == y.priority && x.freshness.StaleItem? && !y.freshness.StaleItem? ==> sooner)
            && (x.priority == y.priority && x.freshness.RecentItem? && y.freshness.CurrentItem? ==> sooner)
            && (x.priority == y.priority && x.freshness == y.freshness && Tokens(x) > Tokens(y) ==> sooner)
            && (x.priority == y.priority && x.freshness == y.freshness && Tokens(x) == Tokens(y) ==> (sooner <==> i < j))
            && (sooner ==> !KeyOf(sel, j).Before(KeyOf(sel, i)))
  {
  }

  function KeyOf(sel: Selection, i: nat): CutKey
    requires i in sel
  {
    CutKey(sel[i].priority, FreshnessOrder(sel[i].freshness), Tokens(sel[i]), i)
  }

  function CutTo(ratio: nat, item: Item, target: nat): Item
    requires ratio >= 1 && target >= 1
  {
    var text := Truncate(ratio, item.content, target);
    item.(content := text, estimate := Some(Estimate(ratio, text) + item.overhead))
  }

  /** What is left for the text of an item that must give up `excess` tokens. */
  function Target(item: Item, excess: nat): (target: nat)
    ensures target >= 1
  {
    var whole := if Tokens(item) - excess >= 1 then Tokens(item) - excess else 1;
    if whole - item.overhead >= 1 then whole - item.overhead else 1
  }

  /** One cut makes the rest fit, or leaves the item at its floor, never to be cut again. */
  lemma OneCut(ratio: nat, sel: Selection, i: nat, excess: nat)
    requires ratio >= 2 && Cuttable(sel, i) && excess >= 1
    ensures var after := CutTo(ratio, sel[i], Target(sel[i], excess));
            && after.content != "" && Tokens(after) < Tokens(sel[i])
            && (Tokens(after) <= Tokens(sel[i]) - excess
                || (Target(sel[i], excess) == 1 && Tokens(after) == sel[i].overhead + 1))
    ensures Tokens(CutTo(ratio, sel[i], 1)) == sel[i].overhead + 1 && CutTo(ratio, sel[i], 1).content != ""
    ensures Tokens(sel[i]) - excess >= sel[i].overhead + 1 ==>
              Target(sel[i], excess) + sel[i].overhead == Tokens(sel[i]) - excess
  {
    TruncateFits(ratio, sel[i].content, Target(sel[i], excess));
    TruncateFits(ratio, sel[i].content, 1);
    AtLeastOne(ratio, Truncate(ratio, sel[i].content, 1));
    AtLeastOne(ratio, Truncate(ratio, sel[i].content, Target(sel[i], excess)));
  }

  lemma AtLeastOne(ratio: nat, text: string)
    requires ratio >= 1 && text != ""
    ensures Estimate(ratio, text) >= 1
  {
  }

  lemma {:induction false} TotalUpdate(sel: Selection, n: nat, i: nat, item: Item)
    requires i in sel
    ensures Total(sel[i := item], n) == Total(sel, n) + if i < n then Tokens(item) - Tokens(sel[i]) else 0
  {
    if n > 0 { TotalUpdate(sel, n - 1, i, item); }
  }

  /** The items of `cut` brought down to their floor. */
  function Floored(ratio: nat, kept: Selection, cut: seq<nat>): Selection
    requires ratio >= 1
  {
    map i | i in kept :: if i in cut then CutTo(ratio, kept[i], 1) else kept[i]
  }

  /** `cut` is a start of the cuttable items, cheapest to cut first, each once. */
  ghost predicate CutOrder(kept: Selection, cut: seq<nat>) {
    && (forall k :: 0 <= k < |cut| ==> Cuttable(kept, cut[k]))
    && (forall j, k :: 0 <= j < k < |cut| ==> KeyOf(kept, cut[j]).Before(KeyOf(kept, cut[k])))
    && (forall k, i :: 0 <= k < |cut| && Cuttable(kept, i) && i !in cut ==> KeyOf(kept, cut[k]).Before(KeyOf(kept, i)))
  }

  /** All but the last cut went to the floor; the last gave up what was still in excess. */
  ghost predicate LastCut(ratio: nat, kept: Selection, n: nat, fixed: nat, available: nat, cut: seq<nat>, sel: Selection)
    requires ratio >= 1 && cut != []
  {
    var last, start := cut[|cut| - 1], cut[..|cut| - 1];
    var before := Floored(ratio, kept, start);
    && last in kept && fixed + Total(before, n) > available
    && sel == before[last := CutTo(ratio, kept[last], Target(kept[last], fixed + Total(before, n) - available))]
  }

  /** The shortening of `kept` to `sel`: the shortest start of the cuttable items, cheapest first, that
      makes the rest fit, or all of them. */
  ghost predicate IsShortening(ratio: nat, kept: Selection, n: nat, fixed: nat, available: nat, cut: seq<nat>, sel: Selection)
    requires ratio >= 1
  {
    && CutOrder(kept, cut)
    && (if cut == [] then sel == kept else LastCut(ratio, kept, n, fixed, available, cut, sel))
    && (fixed + Total(sel, n) > available ==> sel == Floored(ratio, kept, cut))
  }

  datatype Decision = Decision(id: string, original: nat, selected: nat)

  /** Of the first `n` items, `i` is the one to cut. */
  ghost predicate IsCheapest(sel: Selection, n: nat, i: nat) {
    && Cuttable(sel, i)
    && forall j: nat :: j < n && Cuttable(sel, j) && j != i ==> KeyOf(sel, i).Before(KeyOf(sel, j))
  }

  method CheapestToCut(sel: Selection, n: nat) returns (best: Option<nat>)
    requires forall i :: i in sel ==> i < n
    ensures best.None? ==> forall i: nat :: !Cuttable(sel, i)
    ensures best.Some? ==> IsCheapest(sel, n, best.value)
  {
    best := None;
    var i := 0;
    while i < n
      invariant 0 <= i <= n
      invariant best.None? ==> forall j: nat :: j < i ==> !Cuttable(sel, j)
      invariant best.Some? ==> IsCheapest(sel, i, best.value)
    {
      if Cuttable(sel, i) && (best.None? || KeyOf(sel, i).Before(KeyOf(sel, best.value))) {
        best := Some(i);
      }
      i := i + 1;
    }
  }

  lemma NextCut(ratio: nat, kept: Selection, n: nat, fixed: nat, available: nat, cut: seq<nat>, i: nat)
    requires ratio >= 2 && CutOrder(kept, cut) && forall j :: j in kept ==> j < n
    requires fixed + Total(Floored(ratio, kept, cut), n) > available && IsCheapest(Floored(ratio, kept, cut), n, i)
    ensures i in kept && i !in cut && Floored(ratio, kept, cut)[i] == kept[i]
    ensures var sel := Floored(ratio, kept, cut);
            var after := CutTo(ratio, kept[i], Target(kept[i], fixed + Total(sel, n) - available));
            && Tokens(after) < Tokens(kept[i])
            && IsShortening(ratio, kept, n, fixed, available, cut + [i], sel[i := after])
  {
    hide CutTo, Target, Total, KeyOf;
    var sel := Floored(ratio, kept, cut);
    var excess := fixed + Total(sel, n) - available;
    FlooredIsNotCuttable(ratio, kept, cut);
    OneCut(ratio, kept, i, excess);
    var after := CutTo(ratio, kept[i], Target(kept[i], excess));
    TotalUpdate(sel, n, i, after);
    assert (cut + [i])[..|cut|] == cut;
    assert Floored(ratio, kept, cut + [i]) == sel[i := CutTo(ratio, kept[i], 1)];
    CutOrderGrows(ratio, kept, n, cut, i);
  }

  lemma CutOrderGrows(ratio: nat, kept: Selection, n: nat, cut: seq<nat>, i: nat)
    requires ratio >= 2 && CutOrder(kept, cut) && forall j :: j in kept ==> j < n
    requires IsCheapest(Floored(ratio, kept, cut), n, i)
    ensures CutOrder(kept, cut + [i])
  {
    hide CutTo;
    FlooredIsNotCuttable(ratio, kept, cut);
    forall j: nat | Cuttable(kept, j) && j !in cut + [i] ensures KeyOf(kept, i).Before(KeyOf(kept, j)) {
      assert Cuttable(Floored(ratio, kept, cut), j);
    }
  }

  /** What was cut to the floor is done with; the rest is as cuttable as it was. */
  lemma FlooredIsNotCuttable(ratio: nat, kept: Selection, cut: seq<nat>)
    requires ratio >= 2 && forall k :: 0 <= k < |cut| ==> Cuttable(kept, cut[k])
    ensures forall i: nat :: Cuttable(Floored(ratio, kept, cut), i) <==> Cuttable(kept, i) && i !in cut
  {
    forall i | i in cut ensures !Cuttable(Floored(ratio, kept, cut), i) {
      OneCut(ratio, kept, i, 1);
    }
  }

  /** The second pass: shorten what may be shortened, cheapest first, until the rest fits. */
  method Shorten(ratio: nat, kept: Selection, n: nat, fixed: nat, available: nat)
      returns (sel: Selection, decisions: seq<Decision>, ghost cut: seq<nat>)
    requires ratio >= 1 && forall i :: i in kept ==> i < n
    ensures sel.Keys == kept.Keys
    ensures ratio >= 2 ==> IsShortening(ratio, kept, n, fixed, available, cut, sel)
    ensures ratio >= 2 ==> Decided(kept, sel, cut, decisions)
    ensures ratio >= 2 && fixed + Total(sel, n) > available ==> forall i: nat :: !Cuttable(sel, i)
  {
    hide IsShortening, IsCheapest, Cuttable, Total, CutTo, Target, Decided, Floored;
    NoCut(ratio, kept, n, fixed, available);
    sel, decisions, cut := kept, [], [];
    while fixed + Total(sel, n) > available
      invariant sel.Keys == kept.Keys
      invariant ratio >= 2 ==> IsShortening(ratio, kept, n, fixed, available, cut, sel)
      invariant ratio >= 2 ==> Decided(kept, sel, cut, decisions)
      decreases Total(sel, n)
    {
      var best := CheapestToCut(sel, n);
      if best.None? {
        break;
      }
      var i := best.value;
      CheapestIsThere(sel, n, i);
      var item := sel[i];
      var target := Target(item, fixed + Total(sel, n) - available);
      var shorter := CutTo(ratio, item, target);
      if ratio >= 2 {
        ShorteningIsFloored(ratio, kept, n, fixed, available, cut, sel);
        NextCut(ratio, kept, n, fixed, available, cut, i);
        DecidedMore(kept, sel, cut, decisions, i, shorter);
      }
      // A cut that saves nothing would go on for ever.
      if Tokens(shorter) >= Tokens(item) {
        break;
      }
      TotalUpdate(sel, n, i, shorter);
      decisions := decisions + [Decision(item.id, Tokens(item), Tokens(shorter))];
      sel := sel[i := shorter];
      cut := cut + [i];
    }
  }

  lemma NoCut(ratio: nat, kept: Selection, n: nat, fixed: nat, available: nat)
    requires ratio >= 1
    ensures IsShortening(ratio, kept, n, fixed, available, [], kept) && Decided(kept, kept, [], [])
  {
    assert Floored(ratio, kept, []) == kept;
  }

  lemma CheapestIsThere(sel: Selection, n: nat, i: nat)
    requires IsCheapest(sel, n, i) && forall j :: j in sel ==> j < n
    ensures i in sel && i < n
  {
  }

  lemma ShorteningIsFloored(ratio: nat, kept: Selection, n: nat, fixed: nat, available: nat, cut: seq<nat>, sel: Selection)
    requires ratio >= 1 && IsShortening(ratio, kept, n, fixed, available, cut, sel)
    ensures CutOrder(kept, cut)
    ensures fixed + Total(sel, n) > available ==> sel == Floored(ratio, kept, cut)
  {
  }

  /** One decision for each cut, with the sizes before and after. */
  ghost predicate Decided(kept: Selection, sel: Selection, cut: seq<nat>, decisions: seq<Decision>) {
    && |decisions| == |cut|
    && forall k :: 0 <= k < |cut| ==>
         && cut[k] in kept && cut[k] in sel
         && decisions[k] == Decision(kept[cut[k]].id, Tokens(kept[cut[k]]), Tokens(sel[cut[k]]))
  }

  lemma DecidedMore(kept: Selection, sel: Selection, cut: seq<nat>, decisions: seq<Decision>, i: nat, shorter: Item)
    requires Decided(kept, sel, cut, decisions) && i in kept && i in sel && i !in cut && sel[i] == kept[i]
    ensures Decided(kept, sel[i := shorter], cut + [i], decisions + [Decision(kept[i].id, Tokens(kept[i]), Tokens(shorter))])
  {
  }
}
