/** Retrieval metrics at k: hit rate, recall, mean reciprocal rank and nDCG, for any discount. */
module RagEvaluation {
  import opened Reals

  datatype EvalCase = EvalCase(query: string, relevant: set<string>)

  datatype Metrics = Metrics(k: int, caseCount: nat, hitRate: real, recall: real, mrr: real, ndcg: real) {
    /** The bounds that the metrics record checks when it is built. */
    predicate InRange() {
      && k >= 1
      && 0.0 <= hitRate <= 1.0 && 0.0 <= recall <= 1.0 && 0.0 <= mrr <= 1.0 && 0.0 <= ndcg <= 1.0
    }
  }

  datatype EvalResult = KTooSmall | OutOfRange | Evaluated(metrics: Metrics)

  /** The gain of a relevant item by its rank; the source uses 1 / log2(rank + 1). */
  type Discount = nat -> real

  ghost predicate Decreasing(d: Discount) {
    (forall r: nat :: d(r) > 0.0) && forall r: nat, s: nat :: 0 < r < s ==> d(r) > d(s)
  }

  function TopK(results: map<string, seq<string>>, query: string, k: nat): (ids: seq<string>)
    ensures |ids| <= k
    ensures query in results ==> ids <= results[query] && (|ids| == k || ids == results[query])
    ensures query !in results ==> ids == []
  {
    var ids := if query in results then results[query] else [];
    if |ids| <= k then ids else ids[..k]
  }

  /** The ranks, counted from 1, that hold a relevant item. */
  function RelevantRanks(ids: seq<string>, relevant: set<string>): (ranks: seq<nat>)
    ensures |ranks| <= |ids|
    ensures forall r :: r in ranks <==> 1 <= r <= |ids| && ids[r - 1] in relevant
  {
    if ids == [] then [] else
    var n := |ids| - 1;
    RelevantRanks(ids[..n], relevant) + if ids[n] in relevant then [|ids|] else []
  }

  function Gain(ranks: seq<nat>, d: Discount): real {
    if ranks == [] then 0.0 else Gain(ranks[..|ranks| - 1], d) + d(ranks[|ranks| - 1])
  }

  function IdealGain(n: nat, d: Discount): real {
    if n == 0 then 0.0 else IdealGain(n - 1, d) + d(n)
  }

  function Min(a: nat, b: nat): nat {
    if a < b then a else b
  }

  function Found(ids: seq<string>, relevant: set<string>): set<string> {
    set id | id in ids && id in relevant
  }

  function Hit(ids: seq<string>, relevant: set<string>): real {
    if RelevantRanks(ids, relevant) != [] then 1.0 else 0.0
  }

  function ReciprocalRank(ids: seq<string>, relevant: set<string>): real {
    var ranks := RelevantRanks(ids, relevant);
    if ranks != [] && ranks[0] != 0 then 1.0 / ranks[0] as real else 0.0
  }

  function Recall(ids: seq<string>, relevant: set<string>): real
    requires relevant != {}
  {
    |Found(ids, relevant)| as real / |relevant| as real
  }

  function Ndcg(ids: seq<string>, relevant: set<string>, k: nat, d: Discount): real {
    var ideal := IdealGain(Min(|relevant|, k), d);
    if ideal != 0.0 then Gain(RelevantRanks(ids, relevant), d) / ideal else 0.0
  }

  /** How many places hold a relevant item. */
  function Occurrences(ids: seq<string>, relevant: set<string>): nat {
    |RelevantRanks(ids, relevant)|
  }

  predicate NoRelevantRepeat(ids: seq<string>, relevant: set<string>) {
    forall i, j :: 0 <= i < j < |ids| && ids[i] in relevant ==> ids[i] != ids[j]
  }

  /** The relevant items fill the first `n` places. */
  predicate FirstPlacesRelevant(ids: seq<string>, relevant: set<string>, n: nat) {
    n <= |ids| && forall i :: 0 <= i < n ==> ids[i] in relevant
  }

  // ---------- Laws of one case ----------

  lemma {:induction false} IdealGrows(m: nat, n: nat, d: Discount)
    requires Decreasing(d) && m <= n
    ensures 0.0 <= IdealGain(m, d) <= IdealGain(n, d)
    ensures m < n ==> IdealGain(m, d) < IdealGain(n, d)
  {
    if n == 0 {
    } else {
      if m < n {
        IdealGrows(m, n - 1, d);
      } else {
        IdealGrows(m - 1, n - 1, d);
      }
    }
  }

  lemma RanksOfPrefix(ids: seq<string>, relevant: set<string>, d: Discount)
    requires ids != []
    ensures var n := |ids| - 1; var before := RelevantRanks(ids[..n], relevant);
            Gain(RelevantRanks(ids, relevant), d) == Gain(before, d) + if ids[n] in relevant then d(|ids|) else 0.0
  {
    var n := |ids| - 1;
    var before := RelevantRanks(ids[..n], relevant);
    if ids[n] in relevant {
      assert (before + [|ids|])[..|before|] == before;
    } else {
      assert before + [] == before;
    }
  }

  /** The gain never exceeds that of as many leading places, and reaches it only if those are the places. */
  lemma {:induction false} GainIsAtMostIdeal(ids: seq<string>, relevant: set<string>, d: Discount)
    requires Decreasing(d)
    ensures var c := Occurrences(ids, relevant);
            && 0.0 <= Gain(RelevantRanks(ids, relevant), d) <= IdealGain(c, d)
            && (Gain(RelevantRanks(ids, relevant), d) == IdealGain(c, d) <==> FirstPlacesRelevant(ids, relevant, c))
  {
    if ids == [] {
    } else {
      var n := |ids| - 1;
      var init := ids[..n];
      GainIsAtMostIdeal(init, relevant, d);
      RanksOfPrefix(ids, relevant, d);
      var c := Occurrences(init, relevant);
      if ids[n] in relevant {
        OneMorePlace(Gain(RelevantRanks(init, relevant), d), c, n, d);
        LastPlaceRelevant(ids, relevant);
      } else {
        SameFirstPlaces(ids, relevant, c);
      }
    }
  }

  lemma SameFirstPlaces(ids: seq<string>, relevant: set<string>, c: nat)
    requires c < |ids|
    ensures FirstPlacesRelevant(ids, relevant, c) <==> FirstPlacesRelevant(ids[..|ids| - 1], relevant, c)
  {
    assert forall i :: 0 <= i < c ==> ids[..|ids| - 1][i] == ids[i];
  }

  lemma OneMorePlace(gain: real, c: nat, n: nat, d: Discount)
    requires Decreasing(d) && c <= n && 0.0 <= gain <= IdealGain(c, d)
    ensures 0.0 <= gain + d(n + 1) <= IdealGain(c + 1, d)
    ensures gain + d(n + 1) == IdealGain(c + 1, d) <==> gain == IdealGain(c, d) && c == n
  {
    assert d(n + 1) > 0.0;
    assert c < n ==> d(c + 1) > d(n + 1);
  }

  lemma LastPlaceRelevant(ids: seq<string>, relevant: set<string>)
    requires ids != [] && ids[|ids| - 1] in relevant
    ensures var c := Occurrences(ids, relevant); var init := ids[..|ids| - 1];
            FirstPlacesRelevant(ids, relevant, c) <==> c == |ids| && FirstPlacesRelevant(init, relevant, c - 1)
  {
    var n, c := |ids| - 1, Occurrences(ids, relevant);
    assert forall i :: 0 <= i < n ==> ids[..n][i] == ids[i];
    if c < |ids| {
      NotAllAtTheFront(ids, relevant);
    }
  }

  /** If the last place is relevant but some place is not, the relevant places are not the first ones. */
  lemma NotAllAtTheFront(ids: seq<string>, relevant: set<string>)
    requires ids != [] && ids[|ids| - 1] in relevant && Occurrences(ids, relevant) < |ids|
    ensures !FirstPlacesRelevant(ids, relevant, Occurrences(ids, relevant))
  {
    var n, c := |ids| - 1, Occurrences(ids, relevant);
    if FirstPlacesRelevant(ids, relevant, c) {
      assert forall i :: 0 <= i < c ==> ids[..n][i] in relevant;
      FrontCounts(ids[..n], relevant, c);
    }
  }

  lemma {:induction false} FrontCounts(ids: seq<string>, relevant: set<string>, c: nat)
    requires FirstPlacesRelevant(ids, relevant, c)
    ensures Occurrences(ids, relevant) >= c
  {
    if c == 0 {
    } else {
      var n := |ids| - 1;
      assert forall i :: 0 <= i < n ==> ids[..n][i] == ids[i];
      FrontCounts(ids[..n], relevant, if c <= n then c else n);
    }
  }

  /** Without repeats, each relevant item found takes one place; with repeats, at least one. */
  lemma {:induction false} FoundCounts(ids: seq<string>, relevant: set<string>)
    ensures |Found(ids, relevant)| <= Occurrences(ids, relevant)
    ensures NoRelevantRepeat(ids, relevant) ==> |Found(ids, relevant)| == Occurrences(ids, relevant)
  {
    if ids == [] {
      assert Found(ids, relevant) == {};
    } else {
      var n := |ids| - 1;
      var init, last := ids[..n], ids[n];
      FoundCounts(init, relevant);
      assert ids == init + [last];
      if last in relevant {
        assert Found(ids, relevant) == Found(init, relevant) + {last};
        assert NoRelevantRepeat(ids, relevant) ==> NoRelevantRepeat(init, relevant) && last !in init;
      } else {
        assert Found(ids, relevant) == Found(init, relevant);
        assert NoRelevantRepeat(ids, relevant) ==> NoRelevantRepeat(init, relevant);
      }
    }
  }

  lemma SubsetIsSmaller(a: set<string>, b: set<string>)
    requires a <= b
    ensures |a| <= |b|
  {
    assert b == a + (b - a);
  }

  lemma RecallAndRankAreAtMostHit(ids: seq<string>, relevant: set<string>)
    requires relevant != {}
    ensures 0.0 <= Recall(ids, relevant) <= Hit(ids, relevant) <= 1.0
    ensures 0.0 <= ReciprocalRank(ids, relevant) <= Hit(ids, relevant)
  {
    FoundCounts(ids, relevant);
    SubsetIsSmaller(Found(ids, relevant), relevant);
    assert |relevant| > 0;
    Ratio(|Found(ids, relevant)| as real, |relevant| as real);
    var ranks := RelevantRanks(ids, relevant);
    if ranks != [] {
      assert ranks[0] in ranks;
      Ratio(1.0, ranks[0] as real);
    }
  }

  lemma NdcgBounds(ids: seq<string>, relevant: set<string>, k: nat, d: Discount)
    requires Decreasing(d) && relevant != {} && k >= 1 && |ids| <= k
    ensures Ndcg(ids, relevant, k, d) >= 0.0
    ensures Occurrences(ids, relevant) == 0 ==> Ndcg(ids, relevant, k, d) == 0.0
    ensures Occurrences(ids, relevant) <= |relevant| ==> Ndcg(ids, relevant, k, d) <= 1.0
    ensures Occurrences(ids, relevant) <= |relevant| ==>
              (Ndcg(ids, relevant, k, d) == 1.0 <==> FirstPlacesRelevant(ids, relevant, Min(|relevant|, k)))
  {
    var c, m := Occurrences(ids, relevant), Min(|relevant|, k);
    var gain, ideal := Gain(RelevantRanks(ids, relevant), d), IdealGain(m, d);
    GainIsAtMostIdeal(ids, relevant, d);
    IdealGrows(0, m, d);
    Ratio(gain, ideal);
    if c <= |relevant| {
      IdealGrows(c, m, d);
      if FirstPlacesRelevant(ids, relevant, m) {
        FrontCounts(ids, relevant, m);
      }
    }
  }

  /** When no relevant item repeats: every metric is at most the hit rate, and nDCG is 1 exactly for ideal rankings. */
  lemma MetricBounds(ids: seq<string>, relevant: set<string>, k: nat, d: Discount)
    requires Decreasing(d) && relevant != {} && k >= 1 && |ids| <= k && NoRelevantRepeat(ids, relevant)
    ensures Recall(ids, relevant) <= Hit(ids, relevant) <= 1.0
    ensures ReciprocalRank(ids, relevant) <= Hit(ids, relevant)
    ensures Ndcg(ids, relevant, k, d) <= Hit(ids, relevant)
    ensures Ndcg(ids, relevant, k, d) == 1.0 <==> FirstPlacesRelevant(ids, relevant, Min(|relevant|, k))
  {
    FoundCounts(ids, relevant);
    SubsetIsSmaller(Found(ids, relevant), relevant);
    RecallAndRankAreAtMostHit(ids, relevant);
    NdcgBounds(ids, relevant, k, d);
  }

  // ---------- Exactly when nDCG stays within 1 ----------

  /** A nearly flat discount: positive, strictly decreasing, and close to 1. */
  function Flat(m: nat): Discount {
    (r: nat) => 1.0 + 1.0 / (m + r + 1) as real
  }

  lemma FlatIsDecreasing(m: nat)
    ensures Decreasing(Flat(m))
  {
    var d := Flat(m);
    forall r: nat ensures d(r) > 1.0 {
    }
    forall r: nat, s: nat | 0 < r < s ensures d(r) > d(s) {
      ReciprocalLess((m + r + 1) as real, (m + s + 1) as real);
    }
  }

  lemma {:induction false} FlatIdeal(m: nat, n: nat)
    ensures IdealGain(n, Flat(m)) <= n as real * (1.0 + 1.0 / (m + 1) as real)
  {
    if n == 0 {
    } else {
      FlatIdeal(m, n - 1);
      ReciprocalLess((m + 1) as real, (m + n + 1) as real);
      var x := 1.0 + 1.0 / (m + 1) as real;
      assert Flat(m)(n) <= x;
      assert (n - 1) as real * x + x == n as real * x;
    }
  }

  lemma {:induction false} FlatGain(ranks: seq<nat>, m: nat)
    ensures Gain(ranks, Flat(m)) >= |ranks| as real
  {
    if ranks == [] {
    } else {
      FlatGain(ranks[..|ranks| - 1], m);
    }
  }

  lemma AlmostOneMore(m: nat)
    ensures m as real * (1.0 + 1.0 / (m + 1) as real) < (m + 1) as real
  {
    var a, x := m as real, (m + 1) as real;
    var y := 1.0 / x;
    assert y > 0.0 && x * y == 1.0 && x == a + 1.0;
    assert (a + 1.0) * y == a * y + y;
    assert a * (1.0 + y) == a + a * y;
  }

  /** More relevant places than relevant items: under some discount the nDCG exceeds 1. */
  lemma RepeatsCanExceedOne(ids: seq<string>, relevant: set<string>, k: nat)
    requires relevant != {} && k >= 1 && |ids| <= k && Occurrences(ids, relevant) > |relevant|
    ensures Decreasing(Flat(|relevant|)) && Ndcg(ids, relevant, k, Flat(|relevant|)) > 1.0
  {
    var m := |relevant|;
    var d := Flat(m);
    FlatIsDecreasing(m);
    FlatGain(RelevantRanks(ids, relevant), m);
    FlatIdeal(m, m);
    IdealGrows(0, m, d);
    assert Min(|relevant|, k) == m;
    AlmostOneMore(m);
    Ratio(Gain(RelevantRanks(ids, relevant), d), IdealGain(m, d));
  }

  /** nDCG is at most 1 for every discount exactly when the relevant places are no more than the relevant items. */
  lemma NdcgWithinOneExactlyWhen(ids: seq<string>, relevant: set<string>, k: nat)
    requires relevant != {} && k >= 1 && |ids| <= k
    ensures (forall d: Discount :: Decreasing(d) ==> Ndcg(ids, relevant, k, d) <= 1.0)
            <==> Occurrences(ids, relevant) <= |relevant|
  {
    if Occurrences(ids, relevant) <= |relevant| {
      forall d: Discount | Decreasing(d) ensures Ndcg(ids, relevant, k, d) <= 1.0 {
        NdcgBounds(ids, relevant, k, d);
      }
    } else {
      RepeatsCanExceedOne(ids, relevant, k);
    }
  }

  // ---------- The operation ----------

  datatype Totals = Totals(hits: real, recalls: real, reciprocalRanks: real, ndcgs: real)

  predicate CaseOk(c: EvalCase) {
    c.relevant != {}
  }

  function Plus(t: Totals, ids: seq<string>, relevant: set<string>, k: nat, d: Discount): Totals
    requires relevant != {}
  {
    Totals(t.hits + Hit(ids, relevant), t.recalls + Recall(ids, relevant),
           t.reciprocalRanks + ReciprocalRank(ids, relevant), t.ndcgs + Ndcg(ids, relevant, k, d))
  }

  function Sum(cases: seq<EvalCase>, results: map<string, seq<string>>, k: nat, d: Discount): Totals
    requires forall c :: c in cases ==> CaseOk(c)
  {
    if cases == [] then Totals(0.0, 0.0, 0.0, 0.0) else
    var c := cases[|cases| - 1];
    assert CaseOk(c);
    Plus(Sum(cases[..|cases| - 1], results, k, d), TopK(results, c.query, k), c.relevant, k, d)
  }

  function Average(t: Totals, k: int, n: nat): Metrics
    requires n > 0
  {
    Metrics(k, n, t.hits / n as real, t.recalls / n as real, t.reciprocalRanks / n as real, t.ndcgs / n as real)
  }

  method FindRanks(ids: seq<string>, relevant: set<string>) returns (ranks: seq<nat>)
    ensures ranks == RelevantRanks(ids, relevant)
  {
    ranks := [];
    for i := 0 to |ids|
      invariant ranks == RelevantRanks(ids[..i], relevant)
    {
      assert ids[..i + 1][..i] == ids[..i];
      if ids[i] in relevant {
        ranks := ranks + [i + 1];
      }
    }
    assert ids[..|ids|] == ids;
  }

  method SumGains(ranks: seq<nat>, d: Discount) returns (gain: real)
    ensures gain == Gain(ranks, d)
  {
    gain := 0.0;
    for i := 0 to |ranks|
      invariant gain == Gain(ranks[..i], d)
    {
      assert ranks[..i + 1][..i] == ranks[..i];
      gain := gain + d(ranks[i]);
    }
    assert ranks[..|ranks|] == ranks;
  }

  method SumIdeal(count: nat, d: Discount) returns (gain: real)
    ensures gain == IdealGain(count, d)
  {
    gain := 0.0;
    for rank := 1 to count + 1
      invariant gain == IdealGain(rank - 1, d)
    {
      gain := gain + d(rank);
    }
  }

  method AddCase(t: Totals, ids: seq<string>, relevant: set<string>, k: nat, d: Discount) returns (next: Totals)
    requires relevant != {}
    ensures next == Plus(t, ids, relevant, k, d)
  {
    next := t;
    var ranks := FindRanks(ids, relevant);
    if ranks != [] {
      assert ranks[0] in ranks;
      next := next.(hits := t.hits + 1.0, reciprocalRanks := t.reciprocalRanks + 1.0 / ranks[0] as real);
    }
    next := next.(recalls := t.recalls + |Found(ids, relevant)| as real / |relevant| as real);
    var dcg := SumGains(ranks, d);
    var idcg := SumIdeal(Min(|relevant|, k), d);
    next := next.(ndcgs := t.ndcgs + if idcg != 0.0 then dcg / idcg else 0.0);
  }

  method EvaluateRankedResults(cases: seq<EvalCase>, results: map<string, seq<string>>, k: int,
                               d: Discount) returns (r: EvalResult)
    requires forall c :: c in cases ==> CaseOk(c)
    ensures k < 1 ==> r == KTooSmall
    ensures k >= 1 && cases == [] ==> r == Evaluated(Metrics(k, 0, 0.0, 0.0, 0.0, 0.0))
    ensures k >= 1 && cases != [] ==>
              var m := Average(Sum(cases, results, k, d), k, |cases|);
              r == if m.InRange() then Evaluated(m) else OutOfRange
  {
    if k < 1 {
      return KTooSmall;
    }
    if cases == [] {
      return Evaluated(Metrics(k, 0, 0.0, 0.0, 0.0, 0.0));
    }
    var t := Totals(0.0, 0.0, 0.0, 0.0);
    for i := 0 to |cases|
      invariant t == Sum(cases[..i], results, k, d)
    {
      var c := cases[i];
      assert CaseOk(c) && cases[..i + 1][..i] == cases[..i];
      t := AddCase(t, TopK(results, c.query, k), c.relevant, k, d);
    }
    assert cases[..|cases|] == cases;
    var m := Average(t, k, |cases|);
    return if m.InRange() then Evaluated(m) else OutOfRange;
  }

  // ---------- What the metrics are ----------

  /** The first place that holds a relevant item, or the number of places if none does. */
  function FirstHit(ids: seq<string>, relevant: set<string>): (n: nat)
    ensures n <= |ids| && (n < |ids| ==> ids[n] in relevant)
    ensures forall i :: 0 <= i < n ==> ids[i] !in relevant
  {
    if ids == [] || ids[0] in relevant then 0 else 1 + FirstHit(ids[1..], relevant)
  }

  /** The discounts of the places that hold a relevant item, counted from 1. */
  function PlaceGain(ids: seq<string>, relevant: set<string>, d: Discount, n: nat): real
    requires n <= |ids|
  {
    if n == 0 then 0.0 else PlaceGain(ids, relevant, d, n - 1) + if ids[n - 1] in relevant then d(n) else 0.0
  }

  lemma {:induction false} RanksAscend(ids: seq<string>, relevant: set<string>)
    ensures forall i, j :: 0 <= i < j < |RelevantRanks(ids, relevant)| ==>
              RelevantRanks(ids, relevant)[i] < RelevantRanks(ids, relevant)[j]
  {
    if ids == [] {
    } else {
      var before := RelevantRanks(ids[..|ids| - 1], relevant);
      RanksAscend(ids[..|ids| - 1], relevant);
      forall i | 0 <= i < |before| ensures before[i] < |ids| {
        assert before[i] in before;
      }
    }
  }

  lemma {:induction false} GainIsPlaceGain(ids: seq<string>, relevant: set<string>, d: Discount)
    ensures Gain(RelevantRanks(ids, relevant), d) == PlaceGain(ids, relevant, d, |ids|)
  {
    if ids == [] {
    } else {
      var n := |ids| - 1;
      GainIsPlaceGain(ids[..n], relevant, d);
      RanksOfPrefix(ids, relevant, d);
      PlaceGainOfPrefix(ids, relevant, d, n, n);
    }
  }

  lemma {:induction false} PlaceGainOfPrefix(ids: seq<string>, relevant: set<string>, d: Discount, m: nat, n: nat)
    requires n <= m <= |ids|
    ensures PlaceGain(ids[..m], relevant, d, n) == PlaceGain(ids, relevant, d, n)
  {
    if n == 0 {
    } else {
      PlaceGainOfPrefix(ids, relevant, d, m, n - 1);
    }
  }

  /**
    The four metrics of one case: whether a relevant item is found, which part of them is found, the reciprocal of the
    first place that holds one, and the gain of all such places by that of as many leading ones as could hold one.
   */
  lemma CaseMetrics(ids: seq<string>, relevant: set<string>, k: nat, d: Discount)
    requires Decreasing(d) && relevant != {} && k >= 1
    ensures var first := FirstHit(ids, relevant);
            && Hit(ids, relevant) == (if first < |ids| then 1.0 else 0.0)
            && ReciprocalRank(ids, relevant) == (if first < |ids| then 1.0 / (first + 1) as real else 0.0)
    ensures Recall(ids, relevant) == |set id | id in relevant && id in ids| as real / |relevant| as real
    ensures var best := IdealGain(if |relevant| < k then |relevant| else k, d);
            best > 0.0 && Ndcg(ids, relevant, k, d) == PlaceGain(ids, relevant, d, |ids|) / best
  {
    FirstRank(ids, relevant);
    assert Found(ids, relevant) == set id | id in relevant && id in ids;
    GainIsPlaceGain(ids, relevant, d);
    assert |relevant| > 0;
    IdealGrows(0, Min(|relevant|, k), d);
  }

  /** The ideal gain is that of a list of relevant items only. */
  lemma {:induction false} IdealIsPlaceGain(ids: seq<string>, d: Discount)
    ensures IdealGain(|ids|, d) == PlaceGain(ids, (set id | id in ids), d, |ids|)
  {
    if ids == [] {
    } else {
      var n := |ids| - 1;
      IdealIsPlaceGain(ids[..n], d);
      PlaceGainOfPrefix(ids, (set id | id in ids), d, n, n);
      SameGain(ids[..n], (set id | id in ids[..n]), (set id | id in ids), d, n);
    }
  }

  lemma {:induction false} SameGain(ids: seq<string>, a: set<string>, b: set<string>, d: Discount, n: nat)
    requires n <= |ids| && forall id :: id in ids ==> (id in a <==> id in b)
    ensures PlaceGain(ids, a, d, n) == PlaceGain(ids, b, d, n)
  {
    if n == 0 {
    } else {
      SameGain(ids, a, b, d, n - 1);
    }
  }

  lemma FirstRank(ids: seq<string>, relevant: set<string>)
    ensures var ranks, first := RelevantRanks(ids, relevant), FirstHit(ids, relevant);
            if first < |ids| then ranks != [] && ranks[0] == first + 1 else ranks == []
  {
    var ranks, first := RelevantRanks(ids, relevant), FirstHit(ids, relevant);
    if first < |ids| {
      assert first + 1 in ranks;
      SmallestIsFirst(ids, relevant, first + 1);
    }
    assert ranks != [] ==> ranks[0] in ranks;
  }

  lemma SmallestIsFirst(ids: seq<string>, relevant: set<string>, r: nat)
    requires r in RelevantRanks(ids, relevant)
    ensures RelevantRanks(ids, relevant)[0] <= r
  {
    var ranks := RelevantRanks(ids, relevant);
    RanksAscend(ids, relevant);
    var i :| 0 <= i < |ranks| && ranks[i] == r;
    assert ranks[0] <= ranks[i];
  }

  /** The sum of a quantity over all cases. */
  function Total(f: EvalCase -> real, cases: seq<EvalCase>): real {
    if cases == [] then 0.0 else Total(f, cases[..|cases| - 1]) + f(cases[|cases| - 1])
  }

  /** Each average is the sum of its own metric, taken at the top k of each case, by the number of cases. */
  lemma {:induction false} SumsAreTotals(cases: seq<EvalCase>, results: map<string, seq<string>>, k: nat, d: Discount)
    requires forall c :: c in cases ==> CaseOk(c)
    ensures var t := Sum(cases, results, k, d);
            var top := (c: EvalCase) => TopK(results, c.query, k);
            && t.hits == Total(c => Hit(top(c), c.relevant), cases)
            && t.recalls == Total((c: EvalCase) => if c.relevant == {} then 0.0 else Recall(top(c), c.relevant), cases)
            && t.reciprocalRanks == Total(c => ReciprocalRank(top(c), c.relevant), cases)
            && t.ndcgs == Total(c => Ndcg(top(c), c.relevant, k, d), cases)
  {
    if cases == [] {
    } else {
      var c := cases[|cases| - 1];
      assert CaseOk(c);
      assert forall x :: x in cases[..|cases| - 1] ==> x in cases;
      SumsAreTotals(cases[..|cases| - 1], results, k, d);
    }
  }

  lemma MetricsAreAverages(cases: seq<EvalCase>, results: map<string, seq<string>>, k: nat, d: Discount)
    requires cases != [] && forall c :: c in cases ==> CaseOk(c)
    ensures var m, n := Average(Sum(cases, results, k, d), k, |cases|), |cases| as real;
            var top := (c: EvalCase) => TopK(results, c.query, k);
            && m.k == k && m.caseCount == |cases|
            && m.hitRate == Total(c => Hit(top(c), c.relevant), cases) / n
            && m.recall == Total((c: EvalCase) => if c.relevant == {} then 0.0 else Recall(top(c), c.relevant), cases) / n
            && m.mrr == Total(c => ReciprocalRank(top(c), c.relevant), cases) / n
            && m.ndcg == Total(c => Ndcg(top(c), c.relevant, k, d), cases) / n
  {
    SumsAreTotals(cases, results, k, d);
  }

  // ---------- Laws of the averages ----------

  ghost predicate NoRepeats(cases: seq<EvalCase>, results: map<string, seq<string>>, k: nat) {
    forall c :: c in cases ==> NoRelevantRepeat(TopK(results, c.query, k), c.relevant)
  }

  lemma {:induction false} SumBounds(cases: seq<EvalCase>, results: map<string, seq<string>>, k: nat, d: Discount)
    requires Decreasing(d) && k >= 1 && forall c :: c in cases ==> CaseOk(c)
    ensures var t := Sum(cases, results, k, d);
            && 0.0 <= t.recalls <= t.hits <= |cases| as real
            && 0.0 <= t.reciprocalRanks <= t.hits
            && 0.0 <= t.ndcgs && (NoRepeats(cases, results, k) ==> t.ndcgs <= t.hits)
  {
    if cases == [] {
    } else {
      var n := |cases| - 1;
      var c := cases[n];
      var ids := TopK(results, c.query, k);
      assert CaseOk(c) && forall x :: x in cases[..n] ==> x in cases;
      SumBounds(cases[..n], results, k, d);
      RecallAndRankAreAtMostHit(ids, c.relevant);
      NdcgBounds(ids, c.relevant, k, d);
      if NoRepeats(cases, results, k) {
        MetricBounds(ids, c.relevant, k, d);
      }
    }
  }

  /** Only nDCG can leave its range, and only when a relevant item repeats; otherwise all are at most the hit rate. */
  lemma AverageBounds(cases: seq<EvalCase>, results: map<string, seq<string>>, k: nat, d: Discount)
    requires Decreasing(d) && k >= 1 && cases != [] && forall c :: c in cases ==> CaseOk(c)
    ensures var m := Average(Sum(cases, results, k, d), k, |cases|);
            && (m.InRange() <==> m.ndcg <= 1.0)
            && m.recall <= m.hitRate <= 1.0 && m.mrr <= m.hitRate
            && (NoRepeats(cases, results, k) ==> m.ndcg <= m.hitRate && m.InRange())
  {
    SumBounds(cases, results, k, d);
    AverageKeepsOrder(Sum(cases, results, k, d), k, |cases|);
  }

  lemma AverageKeepsOrder(t: Totals, k: nat, n: nat)
    requires k >= 1 && n > 0 && 0.0 <= t.ndcgs
    requires 0.0 <= t.recalls <= t.hits <= n as real && 0.0 <= t.reciprocalRanks <= t.hits
    ensures var m := Average(t, k, n);
            && (m.InRange() <==> m.ndcg <= 1.0)
            && m.recall <= m.hitRate <= 1.0 && m.mrr <= m.hitRate
            && (t.ndcgs <= t.hits ==> m.ndcg <= m.hitRate)
  {
    Ratio(t.recalls, n as real);
    Ratio(t.reciprocalRanks, n as real);
    Ratio(t.ndcgs, n as real);
    Ratio(t.hits, n as real);
    Divided(t.recalls, t.hits, n as real);
    Divided(t.reciprocalRanks, t.hits, n as real);
    if t.ndcgs <= t.hits {
      Divided(t.ndcgs, t.hits, n as real);
    }
  }

  /** One relevant item listed twice is enough: the evaluation raises, whatever the discount. */
  lemma RepeatedItemRaises(d: Discount)
    requires Decreasing(d)
    ensures var cases := [EvalCase("q", {"a"})];
            !Average(Sum(cases, map["q" := ["a", "a"]], 2, d), 2, 1).InRange()
  {
    var cases, results := [EvalCase("q", {"a"})], map["q" := ["a", "a"]];
    var ids, relevant := ["a", "a"], {"a"};
    TwiceRanks();
    TwiceGain(d);
    Ratio(d(1) + d(2), d(1));
    assert |relevant| == 1 && Min(1, 2) == 1;
    assert cases[..0] == [];
    assert Sum(cases, results, 2, d) == Plus(Totals(0.0, 0.0, 0.0, 0.0), ids, relevant, 2, d);
  }

  lemma TwiceRanks()
    ensures RelevantRanks(["a", "a"], {"a"}) == [1, 2]
  {
    assert ["a", "a"][..1] == ["a"] && ["a"][..0] == [];
    assert RelevantRanks(["a"], {"a"}) == [1];
  }

  lemma TwiceGain(d: Discount)
    ensures Gain([1, 2], d) == d(1) + d(2) && IdealGain(1, d) == d(1)
  {
    var two: seq<nat> := [1, 2];
    assert two[..1] == [1] && [1][..0] == [];
    assert Gain([1], d) == 0.0 + d(1);
  }
}
