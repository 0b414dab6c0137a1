/** Reciprocal rank fusion of the vector channel and the lexical channel. Scores are real numbers. */
module Rrf {
  import opened Reals

  const RRF_K := 60

  datatype Value = Text(text: string) | Number(number: real) | Record(entries: map<string, Value>)

  /** An item's fields, apart from `source_id` and `rrf_score`, which the fusion sets itself. */
  type Fields = map<string, Value>

  datatype Fused = Fused(sourceId: string, fields: Fields, score: real)

  function Keys(key: Fields -> string, items: seq<Fields>): (keys: seq<string>)
    ensures |keys| == |items| && forall i :: 0 <= i < |items| ==> keys[i] == key(items[i])
  {
    if items == [] then [] else Keys(key, items[..|items| - 1]) + [key(items[|items| - 1])]
  }

  function Share(rank: nat): (r: real)
    ensures r > 0.0
  {
    1.0 / (RRF_K + rank + 1) as real
  }

  /** The sum of the shares of all ranks at which `id` stands. */
  function RankSum(keys: seq<string>, id: string): (r: real)
    ensures r >= 0.0
    ensures id in keys <==> r > 0.0
  {
    if keys == [] then 0.0 else
    var n := |keys| - 1;
    assert keys == keys[..n] + [keys[n]];
    RankSum(keys[..n], id) + if keys[n] == id then Share(n) else 0.0
  }

  function ScoreOf(vec: seq<string>, bm25: seq<string>, id: string): (r: real)
    ensures id in vec + bm25 <==> r > 0.0
  {
    RankSum(vec, id) + RankSum(bm25, id)
  }

  /** The first place of a key. */
  function FirstAt(keys: seq<string>, id: string): (n: nat)
    requires id in keys
    ensures n < |keys| && keys[n] == id && id !in keys[..n]
  {
    if keys[0] == id then 0 else 1 + FirstAt(keys[1..], id)
  }

  /** All fields of the items with this key; of a field that several of them have, the last value. */
  function Merged(key: Fields -> string, items: seq<Fields>, id: string): Fields {
    if items == [] then map[] else
    var n := |items| - 1;
    if key(items[n]) == id then Merged(key, items[..n], id) + items[n] else Merged(key, items[..n], id)
  }

  // ---------- What a fusion is ----------

  predicate Before(keys: seq<string>, a: Fused, b: Fused)
    requires a.sourceId in keys && b.sourceId in keys
  {
    a.score > b.score || (a.score == b.score && FirstAt(keys, a.sourceId) < FirstAt(keys, b.sourceId))
  }

  /** Each entry belongs to a source of the input, with that source's score and fields. */
  predicate EntryOk(key: Fields -> string, vec: seq<Fields>, bm25: seq<Fields>, e: Fused) {
    && e.sourceId in Keys(key, vec + bm25)
    && e.score == ScoreOf(Keys(key, vec), Keys(key, bm25), e.sourceId)
    && e.fields == Merged(key, vec + bm25, e.sourceId)
  }

  predicate Ordered(keys: seq<string>, out: seq<Fused>)
    requires forall e :: e in out ==> e.sourceId in keys
  {
    forall i, j :: 0 <= i < j < |out| ==> Before(keys, out[i], out[j])
  }

  /** The fusion: an entry for each source, by descending score, equal scores in the order of first appearance. */
  ghost predicate IsFusion(key: Fields -> string, vec: seq<Fields>, bm25: seq<Fields>, out: seq<Fused>) {
    && (forall e :: e in out ==> EntryOk(key, vec, bm25, e))
    && (forall id :: id in Keys(key, vec + bm25) ==> exists e :: e in out && e.sourceId == id)
    && Ordered(Keys(key, vec + bm25), out)
  }

  /** Each source occurs exactly once. */
  lemma PlaceOf(key: Fields -> string, vec: seq<Fields>, bm25: seq<Fields>, out: seq<Fused>,
                id: string) returns (m: nat)
    requires IsFusion(key, vec, bm25, out) && id in Keys(key, vec + bm25)
    ensures m < |out| && out[m].sourceId == id
    ensures forall i :: 0 <= i < |out| && i != m ==> out[i].sourceId != id
  {
    var x :| x in out && x.sourceId == id;
    m :| 0 <= m < |out| && out[m] == x;
    forall i | 0 <= i < |out| && i != m ensures out[i].sourceId != id {
      assert EntryOk(key, vec, bm25, out[i]) && EntryOk(key, vec, bm25, out[m]);
      assert Before(Keys(key, vec + bm25), out[if i < m then i else m], out[if i < m then m else i]);
    }
  }

  lemma FirstEntryAgrees(key: Fields -> string, vec: seq<Fields>, bm25: seq<Fields>, a: seq<Fused>, b: seq<Fused>,
                         i: nat)
    requires IsFusion(key, vec, bm25, a) && IsFusion(key, vec, bm25, b)
    requires i < |a| && i < |b| && forall j :: 0 <= j < i ==> a[j] == b[j]
    ensures a[i] == b[i]
  {
    assert EntryOk(key, vec, bm25, a[i]) && EntryOk(key, vec, bm25, b[i]);
    var m := PlaceOf(key, vec, bm25, b, a[i].sourceId);
    var n := PlaceOf(key, vec, bm25, a, b[i].sourceId);
    var _ := PlaceOf(key, vec, bm25, a, a[i].sourceId);
    var _ := PlaceOf(key, vec, bm25, b, b[i].sourceId);
    assert EntryOk(key, vec, bm25, b[m]) && EntryOk(key, vec, bm25, a[n]);
    assert b[m] == a[i] && a[n] == b[i];
  }

  lemma {:induction false} PrefixAgrees(key: Fields -> string, vec: seq<Fields>, bm25: seq<Fields>, a: seq<Fused>,
                                        b: seq<Fused>, i: nat)
    requires IsFusion(key, vec, bm25, a) && IsFusion(key, vec, bm25, b) && i <= |a| && i <= |b|
    ensures forall j :: 0 <= j < i ==> a[j] == b[j]
  {
    if i == 0 {
    } else {
      PrefixAgrees(key, vec, bm25, a, b, i - 1);
      FirstEntryAgrees(key, vec, bm25, a, b, i - 1);
    }
  }

  lemma NotShorter(key: Fields -> string, vec: seq<Fields>, bm25: seq<Fields>, a: seq<Fused>, b: seq<Fused>)
    requires IsFusion(key, vec, bm25, a) && IsFusion(key, vec, bm25, b)
    ensures |a| <= |b|
  {
    if |b| < |a| {
      PrefixAgrees(key, vec, bm25, a, b, |b|);
      assert EntryOk(key, vec, bm25, a[|b|]);
      var n := PlaceOf(key, vec, bm25, a, a[|b|].sourceId);
      var m := PlaceOf(key, vec, bm25, b, a[|b|].sourceId);
      assert false;
    }
  }

  /** The description fixes the result: any two fusions of the same channels are equal. */
  lemma FusionIsUnique(key: Fields -> string, vec: seq<Fields>, bm25: seq<Fields>, a: seq<Fused>, b: seq<Fused>)
    requires IsFusion(key, vec, bm25, a) && IsFusion(key, vec, bm25, b)
    ensures a == b
  {
    NotShorter(key, vec, bm25, a, b);
    NotShorter(key, vec, bm25, b, a);
    PrefixAgrees(key, vec, bm25, a, b, |a|);
  }

  // ---------- Ranking laws ----------

  predicate DuplicateFree(keys: seq<string>) {
    forall i, j :: 0 <= i < j < |keys| ==> keys[i] != keys[j]
  }

  lemma {:induction false} RankSumOfUnique(keys: seq<string>, r: nat)
    requires DuplicateFree(keys) && r < |keys|
    ensures RankSum(keys, keys[r]) == Share(r)
  {
    var n := |keys| - 1;
    if r == n {
      assert keys[n] !in keys[..n];
    } else {
      RankSumOfUnique(keys[..n], r);
    }
  }

  /** The share of place `r`, or nothing. */
  function ShareAt(r: int): real {
    if r >= 0 then 1.0 / (61 + r) as real else 0.0
  }

  /**
    Without duplicates, a source at place `r` of the first channel and place `s` of the second scores the sum of
    1 / (61 + r) and 1 / (61 + s); a channel that does not hold it adds nothing.
   */
  lemma ScoreAtPlaces(vec: seq<string>, bm25: seq<string>, id: string, r: int, s: int)
    requires DuplicateFree(vec) && DuplicateFree(bm25)
    requires if id in vec then 0 <= r < |vec| && vec[r] == id else r < 0
    requires if id in bm25 then 0 <= s < |bm25| && bm25[s] == id else s < 0
    ensures ScoreOf(vec, bm25, id) == ShareAt(r) + ShareAt(s)
  {
    if r >= 0 {
      RankSumOfUnique(vec, r);
    }
    if s >= 0 {
      RankSumOfUnique(bm25, s);
    }
  }

  /** With duplicates, one more place of a source adds one more share. */
  lemma OneMorePlace(keys: seq<string>, k: string, id: string)
    ensures RankSum(keys + [k], id) == RankSum(keys, id) + if k == id then 1.0 / (61 + |keys|) as real else 0.0
    ensures RankSum([], id) == 0.0
  {
    assert (keys + [k])[..|keys|] == keys;
  }

  /** Place `r` of the channel holds the source; a negative `r` says that no place does. */
  ghost predicate StandsAt(key: Fields -> string, items: seq<Fields>, id: string, r: int) {
    if r < 0 then forall v :: v in items ==> key(v) != id else r < |items| && key(items[r]) == id
  }

  lemma PlaceOfKey(key: Fields -> string, items: seq<Fields>, id: string, r: int)
    requires StandsAt(key, items, id, r)
    ensures var keys := Keys(key, items); if id in keys then 0 <= r < |keys| && keys[r] == id else r < 0
  {
    var keys := Keys(key, items);
    if id in keys {
      var i :| 0 <= i < |keys| && keys[i] == id;
      assert items[i] in items;
    }
    if r >= 0 {
      assert keys[r] in keys;
    }
  }

  /** The scores of the result, for two channels without duplicates. */
  lemma FusedScore(key: Fields -> string, vec: seq<Fields>, bm25: seq<Fields>, out: seq<Fused>, i: nat, r: int, s: int)
    requires IsFusion(key, vec, bm25, out) && i < |out|
    requires DuplicateFree(Keys(key, vec)) && DuplicateFree(Keys(key, bm25))
    requires StandsAt(key, vec, out[i].sourceId, r) && StandsAt(key, bm25, out[i].sourceId, s)
    ensures out[i].score == ShareAt(r) + ShareAt(s)
  {
    var x, y, id := Keys(key, vec), Keys(key, bm25), out[i].sourceId;
    PlaceOfKey(key, vec, id, r);
    PlaceOfKey(key, bm25, id, s);
    ScoreAtPlaces(x, y, id, r, s);
    assert out[i] in out;
  }

  /** The scores descend. */
  lemma ScoresDescend(key: Fields -> string, vec: seq<Fields>, bm25: seq<Fields>, out: seq<Fused>, i: nat, j: nat)
    requires IsFusion(key, vec, bm25, out) && i < j < |out|
    ensures out[i].score >= out[j].score
  {
    assert EntryOk(key, vec, bm25, out[i]) && EntryOk(key, vec, bm25, out[j]);
    assert Before(Keys(key, vec + bm25), out[i], out[j]);
  }

  lemma BetterRankBetterShare(r: nat, s: nat)
    requires r < s
    ensures Share(r) > Share(s)
  {
    ReciprocalLess((RRF_K + r + 1) as real, (RRF_K + s + 1) as real);
  }

  /** The channel holds `x` wherever it holds `y`, and at a better rank. */
  ghost predicate Beats(keys: seq<string>, x: string, y: string) {
    forall s :: 0 <= s < |keys| && keys[s] == y ==> exists r :: 0 <= r < s && keys[r] == x
  }

  lemma BeatsScores(keys: seq<string>, x: string, y: string)
    requires DuplicateFree(keys) && Beats(keys, x, y)
    ensures RankSum(keys, x) >= RankSum(keys, y)
    ensures y in keys ==> RankSum(keys, x) > RankSum(keys, y)
  {
    if y in keys {
      var s :| 0 <= s < |keys| && keys[s] == y;
      var r :| 0 <= r < s && keys[r] == x;
      RankSumOfUnique(keys, r);
      RankSumOfUnique(keys, s);
      BetterRankBetterShare(r, s);
    }
  }

  lemma {:induction false} KeysJoin(key: Fields -> string, a: seq<Fields>, b: seq<Fields>)
    ensures Keys(key, a + b) == Keys(key, a) + Keys(key, b)
  {
    if b == [] {
      assert a + b == a;
    } else {
      var n := |b| - 1;
      KeysJoin(key, a, b[..n]);
      assert (a + b)[..|a| + n] == a + b[..n];
    }
  }

  /** A source that every channel with `y` ranks better than `y` comes before `y`. */
  lemma BetterRanksComeFirst(key: Fields -> string, vec: seq<Fields>, bm25: seq<Fields>, out: seq<Fused>, i: nat,
                             j: nat)
    requires IsFusion(key, vec, bm25, out) && i < |out| && j < |out|
    requires DuplicateFree(Keys(key, vec)) && DuplicateFree(Keys(key, bm25))
    requires Beats(Keys(key, vec), out[i].sourceId, out[j].sourceId)
    requires Beats(Keys(key, bm25), out[i].sourceId, out[j].sourceId)
    ensures i < j
  {
    var x, y := out[i].sourceId, out[j].sourceId;
    assert out[i] in out && out[j] in out;
    BeatsScores(Keys(key, vec), x, y);
    BeatsScores(Keys(key, bm25), x, y);
    KeysJoin(key, vec, bm25);
    assert out[i].score > out[j].score;
  }

  lemma {:induction false} FieldsAreTheLastOnes(key: Fields -> string, items: seq<Fields>, id: string, f: string)
    ensures f in Merged(key, items, id) <==> exists i :: 0 <= i < |items| && key(items[i]) == id && f in items[i]
    ensures f in Merged(key, items, id) ==>
              exists i :: 0 <= i < |items| && key(items[i]) == id && f in items[i] && Merged(key, items, id)[f] == items[i][f]
                          && forall j :: i < j < |items| && key(items[j]) == id ==> f !in items[j]
  {
    if items == [] {
    } else {
      var n := |items| - 1;
      var init := items[..n];
      FieldsAreTheLastOnes(key, init, id, f);
      if key(items[n]) == id && f in items[n] {
        assert f in Merged(key, items, id);
      } else if f in Merged(key, init, id) {
        var i :| 0 <= i < n && key(init[i]) == id && f in init[i] && Merged(key, init, id)[f] == init[i][f]
                 && forall j :: i < j < n && key(init[j]) == id ==> f !in init[j];
        assert items[i] == init[i];
        forall j | i < j < |items| && key(items[j]) == id ensures f !in items[j] {
          if j < n {
            assert items[j] == init[j];
          }
        }
        assert Merged(key, items, id)[f] == items[i][f];
      }
    }
  }

  // ---------- The operation ----------

  lemma RankSumStep(keys: seq<string>, rank: nat, id: string)
    requires rank < |keys|
    ensures RankSum(keys[..rank + 1], id) == RankSum(keys[..rank], id) + if keys[rank] == id then Share(rank) else 0.0
  {
    assert keys[..rank + 1][..rank] == keys[..rank];
  }

  /** Adds one channel's shares to the map from source to score. */
  method AddChannel(keys: seq<string>, start: map<string, real>) returns (rankMap: map<string, real>)
    ensures forall id :: id in rankMap <==> id in start || id in keys
    ensures forall id :: id in rankMap ==> rankMap[id] == (if id in start then start[id] else 0.0) + RankSum(keys, id)
  {
    rankMap := start;
    for rank := 0 to |keys|
      invariant forall id :: id in rankMap <==> id in start || id in keys[..rank]
      invariant forall id :: id in rankMap ==>
                               rankMap[id] == (if id in start then start[id] else 0.0) + RankSum(keys[..rank], id)
    {
      var key := keys[rank];
      assert keys[..rank + 1] == keys[..rank] + [key];
      forall id {
        RankSumStep(keys, rank, id);
      }
      rankMap := rankMap[key := (if key in rankMap then rankMap[key] else 0.0) + Share(rank)];
    }
    assert keys[..|keys|] == keys;
  }

  /** The sources in the order of their first appearance: the insertion order of the dictionary. */
  ghost predicate InFirstOrder(keys: seq<string>, order: seq<string>) {
    && (forall id :: id in order <==> id in keys)
    && forall i, j :: 0 <= i < j < |order| ==>
                        order[i] in keys && order[j] in keys && FirstAt(keys, order[i]) < FirstAt(keys, order[j])
  }

  lemma {:induction false} FirstAtPrefix(keys: seq<string>, k: string, id: string)
    requires id in keys
    ensures FirstAt(keys + [k], id) == FirstAt(keys, id)
  {
    if keys[0] != id {
      assert (keys + [k])[1..] == keys[1..] + [k];
      FirstAtPrefix(keys[1..], k, id);
    }
  }

  lemma OrderGrows(keys: seq<string>, order: seq<string>, k: string)
    requires InFirstOrder(keys, order)
    ensures InFirstOrder(keys + [k], if k in order then order else order + [k])
  {
    var next := if k in order then order else order + [k];
    forall i, j | 0 <= i < j < |next|
      ensures next[i] in keys + [k] && next[j] in keys + [k] && FirstAt(keys + [k], next[i]) < FirstAt(keys + [k], next[j])
    {
      assert next[i] in order;
      FirstAtPrefix(keys, k, next[i]);
      if j < |order| {
        assert next[j] in order;
        FirstAtPrefix(keys, k, next[j]);
      }
    }
  }

  lemma {:induction false} NothingMerged(key: Fields -> string, items: seq<Fields>, id: string)
    requires id !in Keys(key, items)
    ensures Merged(key, items, id) == map[]
  {
    if items == [] {
    } else {
      NothingMerged(key, items[..|items| - 1], id);
    }
  }

  lemma MergedStep(key: Fields -> string, items: seq<Fields>, n: nat, id: string)
    requires n < |items|
    ensures Merged(key, items[..n + 1], id) ==
            if key(items[n]) == id then Merged(key, items[..n], id) + items[n] else Merged(key, items[..n], id)
  {
    assert items[..n + 1][..n] == items[..n];
  }

  lemma KeysStep(key: Fields -> string, items: seq<Fields>, n: nat)
    requires n < |items|
    ensures Keys(key, items[..n + 1]) == Keys(key, items[..n]) + [key(items[n])]
  {
    assert items[..n + 1][..n] == items[..n];
  }

  /** The dictionary of merged items, with its insertion order. */
  method MergeItems(key: Fields -> string, items: seq<Fields>) returns (order: seq<string>, unique: map<string, Fields>)
    ensures InFirstOrder(Keys(key, items), order)
    ensures forall id :: id in unique <==> id in order
    ensures forall id :: id in unique ==> unique[id] == Merged(key, items, id)
  {
    order, unique := [], map[];
    for n := 0 to |items|
      invariant InFirstOrder(Keys(key, items[..n]), order)
      invariant forall id :: id in unique <==> id in order
      invariant forall id :: id in unique ==> unique[id] == Merged(key, items[..n], id)
    {
      order, unique := MergeItem(key, items, n, order, unique);
    }
    assert items[..|items|] == items;
  }

  method MergeItem(key: Fields -> string, items: seq<Fields>, n: nat, order: seq<string>, unique: map<string, Fields>)
    returns (order': seq<string>, unique': map<string, Fields>)
    requires n < |items| && InFirstOrder(Keys(key, items[..n]), order)
    requires forall id :: id in unique <==> id in order
    requires forall id :: id in unique ==> unique[id] == Merged(key, items[..n], id)
    ensures InFirstOrder(Keys(key, items[..n + 1]), order')
    ensures forall id :: id in unique' <==> id in order'
    ensures forall id :: id in unique' ==> unique'[id] == Merged(key, items[..n + 1], id)
  {
    var id := key(items[n]);
    KeysStep(key, items, n);
    OrderGrows(Keys(key, items[..n]), order, id);
    unique' := unique[id := (if id in unique then unique[id] else map[]) + items[n]];
    order' := if id in order then order else order + [id];
    MergedGrows(key, items, n, unique, unique');
  }

  lemma MergedGrows(key: Fields -> string, items: seq<Fields>, n: nat, unique: map<string, Fields>,
                    unique': map<string, Fields>)
    requires n < |items| && forall id :: id in unique ==> unique[id] == Merged(key, items[..n], id)
    requires forall id :: id in unique <==> id in Keys(key, items[..n])
    requires var id := key(items[n]);
             unique' == unique[id := (if id in unique then unique[id] else map[]) + items[n]]
    ensures forall id :: id in unique' ==> unique'[id] == Merged(key, items[..n + 1], id)
  {
    forall k | k in unique' ensures unique'[k] == Merged(key, items[..n + 1], k) {
      MergedStep(key, items, n, k);
      if k !in unique {
        NothingMerged(key, items[..n], k);
      }
    }
  }

  /** A stable sort by descending score: each entry goes behind those that score at least as much. */
  function Insert(sorted: seq<Fused>, e: Fused): (r: seq<Fused>)
    ensures forall x :: x in r <==> x in sorted || x == e
  {
    if sorted == [] || sorted[0].score < e.score then [e] + sorted else [sorted[0]] + Insert(sorted[1..], e)
  }

  lemma OrderedInFront(keys: seq<string>, e: Fused, rest: seq<Fused>)
    requires e.sourceId in keys && (forall x :: x in rest ==> x.sourceId in keys) && Ordered(keys, rest)
    requires forall x :: x in rest ==> Before(keys, e, x)
    ensures Ordered(keys, [e] + rest)
  {
    var r := [e] + rest;
    forall i, j | 0 <= i < j < |r| ensures Before(keys, r[i], r[j]) {
      assert r[j] == rest[j - 1];
      assert i > 0 ==> r[i] == rest[i - 1];
    }
  }

  lemma {:induction false} InsertKeepsOrder(keys: seq<string>, sorted: seq<Fused>, e: Fused)
    requires e.sourceId in keys && (forall x :: x in sorted ==> x.sourceId in keys) && Ordered(keys, sorted)
    requires forall x :: x in sorted ==> FirstAt(keys, x.sourceId) < FirstAt(keys, e.sourceId)
    ensures Ordered(keys, Insert(sorted, e))
  {
    if sorted == [] {
    } else {
      var head, tail := sorted[0], sorted[1..];
      assert forall x :: x in tail ==> Before(keys, head, x);
      if head.score < e.score {
        OrderedInFront(keys, e, sorted);
      } else {
        InsertKeepsOrder(keys, tail, e);
        OrderedInFront(keys, head, Insert(tail, e));
      }
    }
  }

  /** Attaches the scores and sorts. */
  method ScoreAndSort(ghost keys: seq<string>, order: seq<string>, unique: map<string, Fields>, rankMap: map<string,
                      real>) returns (out: seq<Fused>)
    requires InFirstOrder(keys, order) && forall id :: id in order ==> id in unique && id in rankMap
    ensures forall e :: e in out <==> e.sourceId in order && e == Fused(e.sourceId, unique[e.sourceId], rankMap[e.sourceId])
    ensures Ordered(keys, out)
  {
    out := [];
    for n := 0 to |order|
      invariant forall e :: e in out <==>
                              e.sourceId in order[..n] && e == Fused(e.sourceId, unique[e.sourceId], rankMap[e.sourceId])
      invariant Ordered(keys, out)
    {
      var id := order[n];
      var e := Fused(id, unique[id], rankMap[id]);
      assert order[..n + 1] == order[..n] + [id];
      forall x | x in out ensures FirstAt(keys, x.sourceId) < FirstAt(keys, id) {
        var m :| 0 <= m < n && order[m] == x.sourceId;
      }
      InsertKeepsOrder(keys, out, e);
      out := Insert(out, e);
    }
    assert order[..|order|] == order;
  }

  method RrfFuse(key: Fields -> string, vec: seq<Fields>, bm25: seq<Fields>) returns (out: seq<Fused>)
    ensures IsFusion(key, vec, bm25, out)
  {
    var vecMap := AddChannel(Keys(key, vec), map[]);
    var rankMap := AddChannel(Keys(key, bm25), vecMap);
    var order, unique := MergeItems(key, vec + bm25);
    KeysJoin(key, vec, bm25);
    ghost var keys := Keys(key, vec + bm25);
    assert forall id :: id in order <==> id in keys;
    forall id | id in keys ensures rankMap[id] == ScoreOf(Keys(key, vec), Keys(key, bm25), id) {
      assert id in rankMap;
    }
    out := ScoreAndSort(keys, order, unique, rankMap);
    AllSourcesHaveEntries(keys, order, unique, rankMap, out);
  }

  lemma AllSourcesHaveEntries(keys: seq<string>, order: seq<string>, unique: map<string, Fields>,
                              rankMap: map<string, real>, out: seq<Fused>)
    requires InFirstOrder(keys, order) && forall id :: id in order ==> id in unique && id in rankMap
    requires forall e :: e in out <==> e.sourceId in order && e == Fused(e.sourceId, unique[e.sourceId], rankMap[e.sourceId])
    ensures forall id :: id in keys ==> exists e :: e in out && e.sourceId == id
  {
    forall id | id in keys ensures exists e :: e in out && e.sourceId == id {
      assert id in order;
      assert Fused(id, unique[id], rankMap[id]) in out;
    }
  }
}
