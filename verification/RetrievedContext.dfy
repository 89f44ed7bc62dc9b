/**
  The context retrieved for a question: what each corpus found, pooled; the
  rankings fused; the documents packed under a character budget.
 */
module RetrievedContext {
  import opened Wrappers
  import RankFusion

  const MAX_CONTEXT_CHARS := 12000
  const SEPARATOR := "\n\n---\n\n"

  /** A document as it goes into the prompt, and the path it is known by there. */
  datatype Document = Document(text: string, rooted: string)

  // -------------------------------------------------------------------- pooling

  /** What one corpus found: its documents by its own ids, and its rankings of them. */
  datatype Found = Found(name: string, pool: map<string, Document>, lists: seq<seq<string>>)

  /** A document's id among all corpora. */
  type Key = (string, string)

  function Keyed(name: string, list: seq<string>): seq<Key> {
    seq(|list|, i requires 0 <= i < |list| => (name, list[i]))
  }

  function PoolOf(f: Found): map<Key, Document> {
    map id | id in f.pool :: (f.name, id) := f.pool[id]
  }

  function ListsOf(f: Found): seq<seq<Key>> {
    seq(|f.lists|, i requires 0 <= i < |f.lists| => Keyed(f.name, f.lists[i]))
  }

  /** A corpus that failed counts for nothing. */
  function Pooled(fs: seq<Option<Found>>): map<Key, Document> {
    if fs == [] then map[]
    else
      match fs[|fs| - 1]
      case Some(f) => Pooled(fs[..|fs| - 1]) + PoolOf(f)
      case None => Pooled(fs[..|fs| - 1])
  }

  function Ranked(fs: seq<Option<Found>>): seq<seq<Key>> {
    if fs == [] then []
    else
      match fs[|fs| - 1]
      case Some(f) => Ranked(fs[..|fs| - 1]) + ListsOf(f)
      case None => Ranked(fs[..|fs| - 1])
  }

  predicate HoldsAll(pool: map<Key, Document>, lists: seq<seq<Key>>) {
    forall i, j :: 0 <= i < |lists| && 0 <= j < |lists[i]| ==> lists[i][j] in pool
  }

  /** Every ranking a corpus gives is of documents it found. */
  predicate Complete(f: Found) {
    forall i, j :: 0 <= i < |f.lists| && 0 <= j < |f.lists[i]| ==> f.lists[i][j] in f.pool
  }

  /** Whatever is ranked is in the pool. */
  lemma {:induction false} RankedIsPooled(fs: seq<Option<Found>>)
    requires forall i :: 0 <= i < |fs| && fs[i].Some? ==> Complete(fs[i].value)
    ensures HoldsAll(Pooled(fs), Ranked(fs))
  {
    if fs != [] {
      var before := fs[..|fs| - 1];
      RankedIsPooled(before);
      if fs[|fs| - 1].Some? {
        var f := fs[|fs| - 1].value;
        var lists := Ranked(fs);
        forall i, j | 0 <= i < |lists| && 0 <= j < |lists[i]| ensures lists[i][j] in Pooled(fs) {
          if i >= |Ranked(before)| {
            var k := i - |Ranked(before)|;
            assert lists[i] == Keyed(f.name, f.lists[k]) && f.lists[k][j] in f.pool;
          }
        }
      }
    }
  }

  /** Corpora of different names do not get in each other's way, whatever ids they share. */
  lemma {:induction false} PoolKeepsEachCorpus(fs: seq<Option<Found>>, p: nat, id: string)
    requires p < |fs| && fs[p].Some? && id in fs[p].value.pool
    requires forall q :: 0 <= q < |fs| && q != p && fs[q].Some? ==> fs[q].value.name != fs[p].value.name
    ensures (fs[p].value.name, id) in Pooled(fs) && Pooled(fs)[(fs[p].value.name, id)] == fs[p].value.pool[id]
  {
    if p < |fs| - 1 {
      PoolKeepsEachCorpus(fs[..|fs| - 1], p, id);
    }
  }

  /** Some corpus that did not fail ranks the document in one of its lists. */
  predicate IsRankedBy(f: Found, k: Key) {
    f.name == k.0 && exists l :: l in f.lists && k.1 in l
  }

  lemma ListsHold(f: Found, k: Key)
    ensures (exists l :: l in ListsOf(f) && k in l) <==> IsRankedBy(f, k)
  {
    if l :| l in ListsOf(f) && k in l {
      var i :| 0 <= i < |f.lists| && ListsOf(f)[i] == l;
      var j :| 0 <= j < |l| && l[j] == k;
      assert f.lists[i] in f.lists && f.lists[i][j] == k.1;
    }
    if IsRankedBy(f, k) {
      var l :| l in f.lists && k.1 in l;
      var i :| 0 <= i < |f.lists| && f.lists[i] == l;
      var j :| 0 <= j < |l| && l[j] == k.1;
      assert ListsOf(f)[i] == Keyed(f.name, l) && Keyed(f.name, l)[j] == k;
      assert ListsOf(f)[i] in ListsOf(f) && k in ListsOf(f)[i];
    }
  }

  /** Every list of every corpus that did not fail takes part in the fusion, and no other does. */
  lemma {:induction false} RankedByEveryCorpus(fs: seq<Option<Found>>, k: Key)
    ensures (exists l :: l in Ranked(fs) && k in l)
            <==> exists p :: 0 <= p < |fs| && fs[p].Some? && IsRankedBy(fs[p].value, k)
  {
    if fs != [] {
      hide IsRankedBy, ListsOf;
      var before, last := fs[..|fs| - 1], fs[|fs| - 1];
      RankedByEveryCorpus(before, k);
      assert forall p :: 0 <= p < |before| ==> fs[p] == before[p];
      if last.Some? {
        ListsHold(last.value, k);
        var mine := ListsOf(last.value);
        assert forall l :: l in Ranked(fs) <==> l in Ranked(before) || l in mine;
      }
      if p :| 0 <= p < |before| && before[p].Some? && IsRankedBy(before[p].value, k) {
        assert fs[p].Some? && IsRankedBy(fs[p].value, k);
      }
    }
  }

  // -------------------------------------------------------------------- packing

  /** The documents taken, by their places: each that still fits when its turn comes. */
  function Chosen(docs: seq<Document>): (places: seq<nat>)
    ensures forall k :: 0 <= k < |places| ==> places[k] < |docs|
  {
    if docs == [] then []
    else
      var before, i := docs[..|docs| - 1], |docs| - 1;
      var places := Chosen(before);
      if Total(before, places) + |docs[i].text| > MAX_CONTEXT_CHARS then places else places + [i]
  }

  function Total(docs: seq<Document>, places: seq<nat>): nat
    requires forall k :: 0 <= k < |places| ==> places[k] < |docs|
  {
    if places == [] then 0
    else Total(docs, places[..|places| - 1]) + |docs[places[|places| - 1]].text|
  }

  function Texts(docs: seq<Document>, places: seq<nat>): seq<string>
    requires forall k :: 0 <= k < |places| ==> places[k] < |docs|
  {
    seq(|places|, k requires 0 <= k < |places| => docs[places[k]].text)
  }

  function Roots(docs: seq<Document>, places: seq<nat>): set<string>
    requires forall k :: 0 <= k < |places| ==> places[k] < |docs|
  {
    set k | 0 <= k < |places| :: docs[places[k]].rooted
  }

  lemma RootsGrow(docs: seq<Document>, places: seq<nat>, d: Document)
    requires forall k :: 0 <= k < |places| ==> places[k] < |docs|
    ensures Roots(docs + [d], places) == Roots(docs, places)
    ensures Roots(docs + [d], places + [|docs|]) == Roots(docs, places) + {d.rooted}
  {
    var more, all := docs + [d], places + [|docs|];
    forall k | 0 <= k < |places| ensures more[places[k]] == docs[places[k]] && all[k] == places[k] {
    }
    assert more[all[|places|]] == d;
  }

  lemma TextsGrow(docs: seq<Document>, places: seq<nat>, d: Document)
    requires forall k :: 0 <= k < |places| ==> places[k] < |docs|
    ensures Texts(docs + [d], places) == Texts(docs, places)
    ensures Texts(docs + [d], places + [|docs|]) == Texts(docs, places) + [d.text]
  {
    assert (docs + [d])[|docs|] == d;
  }

  lemma NothingGrows()
    ensures Texts([], []) == [] && Roots([], []) == {}
  {
  }

  lemma {:induction false} TotalOfPrefix(docs: seq<Document>, d: Document, places: seq<nat>)
    requires forall k :: 0 <= k < |places| ==> places[k] < |docs|
    ensures Total(docs + [d], places) == Total(docs, places)
  {
    if places != [] { TotalOfPrefix(docs, d, places[..|places| - 1]); }
  }

  lemma ChosenOneMore(docs: seq<Document>, d: Document)
    ensures var places := Chosen(docs);
            Chosen(docs + [d])
            == if Total(docs, places) + |d.text| > MAX_CONTEXT_CHARS then places else places + [|docs|]
    ensures Total(docs + [d], Chosen(docs + [d]))
            == Total(docs, Chosen(docs))
               + if Total(docs, Chosen(docs)) + |d.text| > MAX_CONTEXT_CHARS then 0 else |d.text|
  {
    assert (docs + [d])[..|docs|] == docs;
    var places := Chosen(docs);
    TotalOfPrefix(docs, d, places);
    assert (places + [|docs|])[..|places|] == places;
  }

  /** What is taken keeps the order, fits, and leaves out nothing that could still be added. */
  lemma {:induction false} ChosenIsMaximal(docs: seq<Document>)
    ensures forall k, l :: 0 <= k < l < |Chosen(docs)| ==> Chosen(docs)[k] < Chosen(docs)[l]
    ensures Total(docs, Chosen(docs)) <= MAX_CONTEXT_CHARS
    ensures forall i :: 0 <= i < |docs| && i !in Chosen(docs)
              ==> Total(docs, Chosen(docs)) + |docs[i].text| > MAX_CONTEXT_CHARS
  {
    if docs != [] {
      hide Chosen, Total;
      var before, d := docs[..|docs| - 1], docs[|docs| - 1];
      assert docs == before + [d];
      ChosenIsMaximal(before);
      ChosenOneMore(before, d);
      var places, more := Chosen(before), Chosen(docs);
      MembersGrow(places, |before|);
    } else {
      NothingChosen();
      assert docs == [];
    }
  }

  /** The places taken of the first `i` documents. */
  function TakenBefore(places: seq<nat>, i: nat): seq<nat> {
    if places == [] then []
    else if places[|places| - 1] < i then places
    else TakenBefore(places[..|places| - 1], i)
  }

  /** A document is taken exactly when it fits with those taken before it. */
  lemma {:induction false} TakenIff(docs: seq<Document>, i: nat)
    requires i < |docs|
    ensures forall k :: 0 <= k < |TakenBefore(Chosen(docs), i)| ==> TakenBefore(Chosen(docs), i)[k] < i
    ensures i in Chosen(docs) <==> Total(docs, TakenBefore(Chosen(docs), i)) + |docs[i].text| <= MAX_CONTEXT_CHARS
    decreases |docs|
  {
    hide Total, Chosen;
    var before, d := docs[..|docs| - 1], docs[|docs| - 1];
    assert docs == before + [d];
    ChosenOneMore(before, d);
    ChosenIsMaximal(before);
    var places := Chosen(before);
    if i == |before| {
      AllBefore(places, i);
      AllBefore(places + [i], i);
      assert (places + [i])[..|places|] == places;
      TotalOfPrefix(before, d, places);
    } else {
      TakenIff(before, i);
      var mine := TakenBefore(places, i);
      assert (places + [|before|])[..|places|] == places;
      assert TakenBefore(Chosen(docs), i) == mine;
      TotalOfPrefix(before, d, mine);
      MembersGrow(places, |before|);
    }
  }

  lemma AllBefore(places: seq<nat>, i: nat)
    ensures (forall k :: 0 <= k < |places| ==> places[k] < i) ==> TakenBefore(places, i) == places
    ensures i !in places || exists k :: 0 <= k < |places| && places[k] == i
  {
  }

  lemma MembersGrow(xs: seq<nat>, x: nat)
    ensures forall y :: y in xs + [x] <==> y in xs || y == x
  {
  }

  lemma NothingChosen()
    ensures Chosen([]) == [] && Total([], []) == 0
  {
  }

  function Join(texts: seq<string>): string {
    if texts == [] then ""
    else if |texts| == 1 then texts[0]
    else Join(texts[..|texts| - 1]) + SEPARATOR + texts[|texts| - 1]
  }

  lemma {:induction false} JoinedLength(docs: seq<Document>, places: seq<nat>)
    requires forall k :: 0 <= k < |places| ==> places[k] < |docs|
    ensures |Join(Texts(docs, places))|
            == Total(docs, places) + if places == [] then 0 else |SEPARATOR| * (|places| - 1)
  {
    if places != [] {
      var before := places[..|places| - 1];
      assert Texts(docs, places)[..|places| - 1] == Texts(docs, before);
      JoinedLength(docs, before);
    }
  }

  // ------------------------------------------------------------------- retrieval

  function Order(lists: seq<seq<Key>>): seq<Key> {
    if |lists| > 1 then RankFusion.Fused(lists) else if lists == [] then [] else lists[0]
  }

  /** The documents looked at: the head of the order. */
  function Head(pool: map<Key, Document>, order: seq<Key>, topK: nat): seq<Document>
    requires forall k :: k in order ==> k in pool
  {
    var n := if 2 * topK < |order| then 2 * topK else |order|;
    seq(n, i requires 0 <= i < n => assert order[i] in order; pool[order[i]])
  }

  lemma OrderIsPooled(pool: map<Key, Document>, lists: seq<seq<Key>>)
    requires HoldsAll(pool, lists)
    ensures forall k :: k in Order(lists) ==> k in pool
  {
    forall k | k in Order(lists) ensures k in pool {
      if |lists| > 1 {
        RankFusion.FusedHoldsEachOnce(lists);
        var l :| l in lists && k in l;
        var i :| 0 <= i < |lists| && lists[i] == l;
        var j :| 0 <= j < |l| && l[j] == k;
        assert lists[i][j] in pool;
      }
    }
  }

  /** The order holds what some ranking holds, and nothing else. */
  lemma OrderHoldsAll(lists: seq<seq<Key>>, k: Key)
    ensures k in Order(lists) <==> exists l :: l in lists && k in l
  {
    if |lists| > 1 {
      RankFusion.FusedHoldsEachOnce(lists);
    } else if |lists| == 1 {
      assert lists[0] in lists && forall l :: l in lists ==> l == lists[0];
    }
  }

  /** So what is ordered is what some corpus ranks. */
  lemma OrderIsOfEveryCorpus(fs: seq<Option<Found>>, k: Key)
    ensures k in Order(Ranked(fs)) <==> exists p :: 0 <= p < |fs| && fs[p].Some? && IsRankedBy(fs[p].value, k)
  {
    hide Order, Ranked, IsRankedBy;
    OrderHoldsAll(Ranked(fs), k);
    RankedByEveryCorpus(fs, k);
  }

  /** What every ranking of `b` puts before it comes before it. */
  lemma OrderIsPareto(lists: seq<seq<Key>>, a: Key, b: Key)
    requires b in Order(lists) && forall i :: 0 <= i < |lists| ==> RankFusion.Prefers(lists[i], a, b)
    ensures RankFusion.Precedes(Order(lists), a, b)
  {
    if |lists| > 1 {
      RankFusion.FusionIsPareto(lists, a, b);
    } else {
      assert RankFusion.Prefers(lists[0], a, b);
    }
  }

  /** What two rankings put among their first sixty-one comes before what a single one ranks. */
  lemma OrderHasConsensus(lists: seq<seq<Key>>, a: Key, p: nat, q: nat, i: nat, j: nat, b: Key, s: nat, k: nat)
    requires p < q < |lists| && i < |lists[p]| && lists[p][i] == a && j < |lists[q]| && lists[q][j] == a
    requires i <= 60 && j <= 60
    requires s < |lists| && k < |lists[s]| && RankFusion.OnlyAt(lists[s], b, k)
    requires forall l :: 0 <= l < |lists| && l != s ==> b !in lists[l]
    ensures RankFusion.Precedes(Order(lists), a, b)
  {
    RankFusion.ConsensusWins(lists, a, p, q, i, j, b, s, k);
  }

  /** Twice as many documents as asked for are looked at, as long as there are any, in that order. */
  lemma HeadIs(pool: map<Key, Document>, order: seq<Key>, topK: nat)
    requires forall k :: k in order ==> k in pool
    ensures var docs := Head(pool, order, topK);
            && |docs| <= 2 * topK && |docs| <= |order| && (|docs| < |order| ==> |docs| == 2 * topK)
            && forall i :: 0 <= i < |docs| ==> order[i] in order && docs[i] == pool[order[i]]
  {
  }

  /** Pool, fuse, pack. */
  method Retrieve(fs: seq<Option<Found>>, topK: nat) returns (context: string, seen: set<string>)
    requires forall i :: 0 <= i < |fs| && fs[i].Some? ==> Complete(fs[i].value)
    ensures forall k :: k in Order(Ranked(fs)) ==> k in Pooled(fs)
    ensures var docs := Head(Pooled(fs), Order(Ranked(fs)), topK);
            context == Join(Texts(docs, Chosen(docs))) && seen == Roots(docs, Chosen(docs))
  {
    var pool: map<Key, Document>, lists: seq<seq<Key>> := map[], [];
    assert fs[..0] == [];
    for i := 0 to |fs|
      invariant pool == Pooled(fs[..i]) && lists == Ranked(fs[..i])
    {
      assert fs[..i + 1][..i] == fs[..i];
      if fs[i].Some? {
        pool := pool + PoolOf(fs[i].value);
        lists := lists + ListsOf(fs[i].value);
      }
    }
    assert fs[..|fs|] == fs;
    RankedIsPooled(fs);
    OrderIsPooled(pool, lists);
    var order := [];
    if |lists| > 1 {
      order := RankFusion.Fuse(lists);
    } else if lists != [] {
      order := lists[0];
    }
    context, seen := Pack(pool, order, topK);
  }

  method Pack(pool: map<Key, Document>, order: seq<Key>, topK: nat) returns (context: string, seen: set<string>)
    requires forall k :: k in order ==> k in pool
    ensures var docs := Head(pool, order, topK);
            context == Join(Texts(docs, Chosen(docs))) && seen == Roots(docs, Chosen(docs))
  {
    hide Chosen, Total, Texts, Roots;
    var parts, total := [], 0;
    seen := {};
    ghost var docs := Head(pool, order, topK);
    NothingChosen();
    assert docs[..0] == [];
    NothingGrows();
    for i := 0 to if 2 * topK < |order| then 2 * topK else |order|
      invariant parts == Texts(docs[..i], Chosen(docs[..i])) && seen == Roots(docs[..i], Chosen(docs[..i]))
      invariant total == Total(docs[..i], Chosen(docs[..i]))
    {
      assert order[i] in order;
      var d := pool[order[i]];
      assert docs[..i + 1] == docs[..i] + [d];
      ChosenOneMore(docs[..i], d);
      RootsGrow(docs[..i], Chosen(docs[..i]), d);
      TextsGrow(docs[..i], Chosen(docs[..i]), d);
      if total + |d.text| <= MAX_CONTEXT_CHARS {
        parts := parts + [d.text];
        total := total + |d.text|;
        seen := seen + {d.rooted};
      }
    }
    assert docs[..|docs|] == docs;
    context := Join(parts);
  }

  /** The documents are within the budget; the separators are not counted in it, so what is returned fits
      exactly when they fit too. */
  lemma ReturnedFitsIff(docs: seq<Document>)
    ensures var places := Chosen(docs); var total := Total(docs, places);
            && total <= MAX_CONTEXT_CHARS
            && (|Join(Texts(docs, places))| <= MAX_CONTEXT_CHARS
                <==> places == [] || total + 7 * (|places| - 1) <= MAX_CONTEXT_CHARS)
            && (places != [] ==> |Join(Texts(docs, places))| <= MAX_CONTEXT_CHARS + 7 * (|docs| - 1))
  {
    hide Chosen, Total, Texts, Join;
    ChosenIsMaximal(docs);
    JoinedLength(docs, Chosen(docs));
    ChosenIsShort(docs);
  }

  lemma {:induction false} ChosenIsShort(docs: seq<Document>)
    ensures |Chosen(docs)| <= |docs|
  {
    if docs != [] { ChosenIsShort(docs[..|docs| - 1]); }
  }

  function Sum(docs: seq<Document>): nat {
    if docs == [] then 0 else Sum(docs[..|docs| - 1]) + |docs[|docs| - 1].text|
  }

  function Places(n: nat): seq<nat> {
    seq(n, i => i)
  }

  lemma {:induction false} AllChosen(docs: seq<Document>)
    ensures Sum(docs) <= MAX_CONTEXT_CHARS ==> Chosen(docs) == Places(|docs|) && Total(docs, Chosen(docs)) == Sum(docs)
    ensures Sum(docs) > MAX_CONTEXT_CHARS ==> |Chosen(docs)| < |docs|
  {
    hide Chosen, Total;
    if docs == [] {
      NothingChosen();
      assert docs == [];
    } else {
      var before, d := docs[..|docs| - 1], docs[|docs| - 1];
      assert docs == before + [d];
      AllChosen(before);
      ChosenOneMore(before, d);
      ChosenIsShort(before);
      assert Places(|docs|) == Places(|before|) + [|before|];
    }
  }

  /** From the documents looked at alone: they are all returned exactly when they are within the budget together,
      and then what is returned is within it exactly when there is room for what separates them. */
  lemma AllReturnedFitIff(docs: seq<Document>)
    ensures Chosen(docs) == Places(|docs|) <==> Sum(docs) <= MAX_CONTEXT_CHARS
    ensures docs != [] && Sum(docs) <= MAX_CONTEXT_CHARS ==>
              (|Join(Texts(docs, Chosen(docs)))| <= MAX_CONTEXT_CHARS
               <==> Sum(docs) + 7 * (|docs| - 1) <= MAX_CONTEXT_CHARS)
  {
    hide Chosen, Total, Texts, Join, Sum;
    AllChosen(docs);
    JoinedLength(docs, Chosen(docs));
  }

  /** Two documents that fill the budget are both taken, and what is returned does not fit it. */
  lemma BudgetCanBeOverrun(docs: seq<Document>)
    requires |docs| == 2 && |docs[0].text| == 6000 && |docs[1].text| == 6000
    ensures |Join(Texts(docs, Chosen(docs)))| == MAX_CONTEXT_CHARS + 7
  {
    hide Chosen, Total, Texts, Join;
    NothingChosen();
    ChosenOneMore([], docs[0]);
    ChosenOneMore([docs[0]], docs[1]);
    assert [] + [docs[0]] == [docs[0]] && [docs[0]] + [docs[1]] == docs;
    JoinedLength(docs, Chosen(docs));
  }
}
