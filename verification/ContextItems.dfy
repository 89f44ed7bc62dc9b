/**
  What competes for room in the context: items with their token estimates,
  grouped, and the order in which evictable groups go.
 */
module ContextItems {
  import opened Wrappers

  datatype Layer =
    | SystemRules | ProjectRules | DurableMemory | TaskWorkingState
    | ConversationSummary | RecentConversation | RetrievedContext | ToolEvidence

  datatype Freshness = StaleItem | RecentItem | CurrentItem

  function FreshnessOrder(f: Freshness): int {
    match f case StaleItem => 0 case RecentItem => 1 case CurrentItem => 2
  }

  function Tier(layer: Layer): int {
    match layer
    case ConversationSummary => 0
    case RecentConversation => 0
    case ToolEvidence => 1
    case RetrievedContext => 2
    case DurableMemory => 3
    case TaskWorkingState => 4
    case ProjectRules => 5
    case SystemRules => 6
  }

  /** What goes first and what goes last. */
  const GOING: seq<set<Layer>> := [
    {ConversationSummary, RecentConversation}, {ToolEvidence}, {RetrievedContext}, {DurableMemory}, {TaskWorkingState},
    {ProjectRules}, {SystemRules}]

  const AGING: seq<Freshness> := [StaleItem, RecentItem, CurrentItem]

  /** The tiers are the places in which the layers go, and staler items go before fresher ones. */
  lemma TiersAreInOrder(layer: Layer, f: Freshness)
    ensures 0 <= Tier(layer) < |GOING| && layer in GOING[Tier(layer)]
    ensures 0 <= FreshnessOrder(f) < |AGING| && AGING[FreshnessOrder(f)] == f
  {
  }

  datatype Item = Item(
    id: string, layer: Layer, content: string, priority: int, freshness: Freshness, protected: bool,
    estimate: Option<nat>, overhead: nat, group: Option<string>, truncatable: bool)

  function Tokens(item: Item): nat {
    if item.estimate.Some? then item.estimate.value else 0
  }

  // ------------------------------------------------------------ the estimator

  /** Roughly `ratio` characters a token. */
  function Estimate(ratio: nat, content: string): nat
    requires ratio >= 1
  {
    if content == "" then 0 else |content| / ratio + 1
  }

  const MARKER := "\n…[context truncated to fit budget]"

  function Truncate(ratio: nat, content: string, target: nat): string
    requires ratio >= 1 && target >= 1
  {
    var chars := if target * ratio - 1 >= 1 then target * ratio - 1 else 1;
    if chars <= |MARKER| then MARKER[..chars]
    else Prefix(content, chars - |MARKER|) + MARKER
  }

  function Prefix(s: string, n: nat): string {
    if |s| <= n then s else s[..n]
  }

  lemma DivisionBelow(length: nat, target: nat, ratio: nat)
    requires ratio >= 1 && target >= 1 && length <= target * ratio - 1
    ensures length / ratio + 1 <= target
  {
    ProductsCompare(length / ratio, target, ratio);
  }

  lemma ProductsCompare(a: nat, b: nat, c: nat)
    ensures a >= b ==> a * c >= b * c
  {
  }

  /** A truncated text is never empty, and its estimate is within the target; with one character a
      token that fails at target 1, and only there. */
  lemma TruncateFits(ratio: nat, content: string, target: nat)
    requires ratio >= 1 && target >= 1
    ensures Truncate(ratio, content, target) != ""
    ensures Estimate(ratio, Truncate(ratio, content, target)) <= target <==> ratio >= 2 || target >= 2
  {
    assert target * ratio >= target && target * ratio >= ratio;
    if ratio >= 2 || target >= 2 {
      DivisionBelow(|Truncate(ratio, content, target)|, target, ratio);
    }
  }

  lemma MultipleDivides(target: nat, ratio: nat, length: nat)
    requires ratio >= 1 && length >= target * ratio
    ensures length / ratio >= target
  {
    ProductsCompare(target, length / ratio + 1, ratio);
  }

  /** Where there is room for the marker, what is kept is the longest start of the text, marked, that fits:
      no longer text estimates to the target. */
  lemma TruncateIsLongest(ratio: nat, content: string, target: nat, longer: string)
    requires ratio >= 1 && target >= 1 && |MARKER| <= target * ratio - 2
    requires |content| >= target * ratio - 1 - |MARKER|
    ensures var text := Truncate(ratio, content, target);
            && text == content[..|text| - |MARKER|] + MARKER
            && (|longer| > |text| ==> Estimate(ratio, longer) > target)
  {
    if |longer| > |Truncate(ratio, content, target)| {
      MultipleDivides(target, ratio, |longer|);
    }
  }

  // ---------------------------------------------------------------- normalise

  function Sized(ratio: nat, item: Item): Item
    requires ratio >= 1
  {
    if item.estimate.Some? then item
    else item.(estimate := Some(Estimate(ratio, item.content) + item.overhead))
  }

  predicate DistinctIds(items: seq<Item>) {
    forall i, j :: 0 <= i < j < |items| ==> items[i].id != items[j].id
  }

  method Normalize(ratio: nat, items: seq<Item>) returns (result: Option<seq<Item>>)
    requires ratio >= 1
    ensures result.Some? <==> DistinctIds(items)
    ensures result.None? <==> exists i, j :: 0 <= i < j < |items| && items[i].id == items[j].id
    ensures result.Some? ==> result.value == seq(|items|, i requires 0 <= i < |items| => Sized(ratio, items[i]))
    ensures result.Some? ==> forall i :: 0 <= i < |items| ==>
              result.value[i] == items[i].(estimate := Some(
                if items[i].estimate.Some? then items[i].estimate.value
                else items[i].overhead + if items[i].content == "" then 0 else |items[i].content| / ratio + 1))
  {
    var out, ids := [], {};
    var i := 0;
    while i < |items|
      invariant 0 <= i <= |items|
      invariant ids == set k | 0 <= k < i :: items[k].id
      invariant DistinctIds(items[..i])
      invariant out == seq(i, k requires 0 <= k < i => Sized(ratio, items[k]))
    {
      if items[i].id in ids {
        return None;
      }
      ids := ids + {items[i].id};
      out := out + [Sized(ratio, items[i])];
      i := i + 1;
    }
    assert items[..i] == items;
    result := Some(out);
  }

  // ---------------------------------------------------------------- selection

  /** Items by their original position. */
  type Selection = map<nat, Item>

  function Total(sel: Selection, n: nat): nat {
    if n == 0 then 0 else Total(sel, n - 1) + if n - 1 in sel then Tokens(sel[n - 1]) else 0
  }

  function Digits(n: nat): string {
    (if n < 10 then "" else Digits(n / 10)) + [('0' as int + n % 10) as char]
  }

  function GroupKey(i: nat, group: Option<string>): string {
    if group.Some? && group.value != "" then group.value else "item:" + Digits(i)
  }

  /** An item without a group is a group of its own. */
  function GroupOf(i: nat, item: Item): string {
    GroupKey(i, item.group)
  }

  /** The number a decimal reads as. */
  function NumberOf(s: string): int {
    if s == "" then 0 else 10 * NumberOf(s[..|s| - 1]) + (s[|s| - 1] as int - '0' as int)
  }

  lemma {:induction false} DigitsReadBack(n: nat)
    ensures NumberOf(Digits(n)) == n && forall k :: 0 <= k < |Digits(n)| ==> '0' <= Digits(n)[k] <= '9'
    ensures |Digits(n)| > 1 ==> Digits(n)[0] != '0'
  {
    if n >= 10 { DigitsReadBack(n / 10); }
    assert Digits(n)[..|Digits(n)| - 1] == if n < 10 then "" else Digits(n / 10);
  }

  /** Two items are of one group when they name the same one; one that names none is alone, unless another's group
      is named just as its place is. */
  lemma SameGroupIff(i: nat, a: Item, j: nat, b: Item)
    ensures var named, other := a.group.Some? && a.group.value != "", b.group.Some? && b.group.value != "";
            GroupOf(i, a) == GroupOf(j, b) <==>
            if named && other then a.group == b.group
            else if named then a.group.value == "item:" + Digits(j)
            else if other then b.group.value == "item:" + Digits(i)
            else i == j
  {
    DigitsReadBack(i);
    DigitsReadBack(j);
    var mine, yours := "item:" + Digits(i), "item:" + Digits(j);
    assert mine[5..] == Digits(i) && yours[5..] == Digits(j);
  }

  /** The members of a group, in position order. */
  function Members(sel: Selection, n: nat, g: string): (m: seq<nat>)
    ensures forall k :: 0 <= k < |m| ==> m[k] < n && m[k] in sel && GroupOf(m[k], sel[m[k]]) == g
    ensures forall j, k :: 0 <= j < k < |m| ==> m[j] < m[k]
    ensures forall i :: i in m <==> i < n && i in sel && GroupOf(i, sel[i]) == g
  {
    if n == 0 then []
    else Members(sel, n - 1, g) + if n - 1 in sel && GroupOf(n - 1, sel[n - 1]) == g then [n - 1] else []
  }

  predicate Evictable(sel: Selection, n: nat, g: string) {
    var m := Members(sel, n, g);
    m != [] && forall k :: 0 <= k < |m| ==> !sel[m[k]].protected
  }

  function Least(xs: seq<int>): (x: int)
    requires xs != []
    ensures x in xs && forall k :: 0 <= k < |xs| ==> x <= xs[k]
  {
    if |xs| == 1 then xs[0]
    else
      var y := Least(xs[1..]);
      if xs[0] <= y then xs[0] else y
  }

  datatype Rank = Rank(tier: int, priority: int, freshness: int, first: int) {
    predicate Before(other: Rank) {
      tier < other.tier || (tier == other.tier && (priority < other.priority || (priority == other.priority
      && (freshness < other.freshness || (freshness == other.freshness && first < other.first)))))
    }
  }

  /** A group is ranked by the least of its members on each count. */
  function RankOf(sel: Selection, m: seq<nat>): Rank
    requires m != [] && forall k :: 0 <= k < |m| ==> m[k] in sel
  {
    Rank(Least(seq(|m|, k requires 0 <= k < |m| => Tier(sel[m[k]].layer))),
         Least(seq(|m|, k requires 0 <= k < |m| => sel[m[k]].priority)),
         Least(seq(|m|, k requires 0 <= k < |m| => FreshnessOrder(sel[m[k]].freshness))),
         Least(seq(|m|, k requires 0 <= k < |m| => m[k] as int)))
  }

  ghost predicate Sooner(sel: Selection, n: nat, g: string, h: string) {
    && Members(sel, n, g) != [] && Members(sel, n, h) != []
    && RankOf(sel, Members(sel, n, g)).Before(RankOf(sel, Members(sel, n, h)))
  }

  ghost function Evictables(sel: Selection, n: nat): set<string> {
    set i | i in sel && i < n && Evictable(sel, n, GroupOf(i, sel[i])) :: GroupOf(i, sel[i])
  }

  function Without(sel: Selection, gone: set<string>): Selection {
    map i | i in sel && GroupOf(i, sel[i]) !in gone :: sel[i]
  }
}
