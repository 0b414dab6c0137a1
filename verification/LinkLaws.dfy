/** How tables are ranked, selected and joined, written out on scores, names and reasons. */
module LinkLaws {
  import opened RankedOrder
  import opened Sequences
  import opened Wrappers
  import opened SchemaLinker

  // ---------- Ranking ----------

  /** Higher score first; of equal scores, the name that is a prefix of the other or smaller where they first differ. */
  ghost predicate RanksBefore(a: Candidate, b: Candidate) {
    a.score > b.score || (a.score == b.score && Alphabetic(a.name, b.name))
  }

  ghost predicate Alphabetic(a: string, b: string) {
    a <= b || exists n :: SmallerAt(a, b, n)
  }

  /** The strings agree before place `n` and differ there. */
  ghost predicate SmallerAt(a: string, b: string, n: int) {
    0 <= n < |a| && n < |b| && a[..n] == b[..n] && a[n] < b[n]
  }

  lemma SmallerInTail(a: string, b: string, n: int)
    requires a != "" && b != "" && a[0] == b[0]
    ensures SmallerAt(a, b, n + 1) <==> SmallerAt(a[1..], b[1..], n) || (n == -1 && a[0] < b[0])
  {
    if 0 <= n < |a| - 1 && n < |b| - 1 {
      assert a[..n + 1] == [a[0]] + a[1..][..n] && b[..n + 1] == [b[0]] + b[1..][..n];
      assert a[1..][..n] == a[..n + 1][1..] && b[1..][..n] == b[..n + 1][1..];
    }
  }

  lemma AlphabeticTail(a: string, b: string)
    requires a != "" && b != "" && a[0] == b[0]
    ensures Alphabetic(a, b) <==> Alphabetic(a[1..], b[1..])
  {
    assert a == [a[0]] + a[1..] && b == [b[0]] + b[1..];
    assert a <= b <==> a[1..] <= b[1..];
    if n :| SmallerAt(a, b, n) {
      SmallerInTail(a, b, n - 1);
    }
    if n :| SmallerAt(a[1..], b[1..], n) {
      SmallerInTail(a, b, n);
    }
  }

  lemma SamePrefixSameStart(a: string, b: string, n: nat)
    requires 0 < n <= |a| && n <= |b| && a[..n] == b[..n]
    ensures a[0] == b[0]
  {
    assert a[..n][0] == a[0] && b[..n][0] == b[0];
  }

  lemma AlphabeticHead(a: string, b: string)
    requires a != "" && b != "" && a[0] != b[0]
    ensures Alphabetic(a, b) <==> a[0] < b[0]
  {
    assert a[..0] == b[..0] && (SmallerAt(a, b, 0) <==> a[0] < b[0]);
    forall n | SmallerAt(a, b, n) ensures n == 0 {
      if n > 0 {
        SamePrefixSameStart(a, b, n);
      }
    }
  }

  lemma {:induction false} NameLeqIsAlphabetic(a: string, b: string)
    ensures NameLeq(a, b) <==> Alphabetic(a, b)
  {
    if a == "" || b == "" {
    } else if a[0] == b[0] {
      AlphabeticTail(a, b);
      NameLeqIsAlphabetic(a[1..], b[1..]);
    } else {
      AlphabeticHead(a, b);
    }
  }

  /** `ranked` lists the tables with a positive score, each as often as the catalogue does, best first. */
  lemma RankedExactly(tables: seq<Table>)
    ensures var ranked := Ranked(tables);
            && (forall c :: c in ranked <==> exists t :: t in tables && c == CandidateOf(t) && c.score > 0.0)
            && |ranked| == |Scoring(tables)|
            && forall i, j :: 0 <= i < j < |ranked| ==> RanksBefore(ranked[i], ranked[j])
  {
    var ranked := Ranked(tables);
    SortOrders(Scored(tables), RankOf);
    ScoredExactly(tables);
    ScoredCounts(tables);
    forall c ensures c in ranked <==> exists t :: t in tables && c == CandidateOf(t) && c.score > 0.0 {
      SameElements(ranked, Scored(tables), c);
    }
    forall i, j | 0 <= i < j < |ranked| ensures RanksBefore(ranked[i], ranked[j]) {
      NameLeqIsAlphabetic(ranked[i].name, ranked[j].name);
      assert RankLeq(RankOf(ranked[i]), RankOf(ranked[j]));
    }
  }

  function Scoring(tables: seq<Table>): set<nat> {
    set i: nat | i < |tables| && CandidateOf(tables[i]).score > 0.0
  }

  lemma {:induction false} ScoredExactly(tables: seq<Table>)
    ensures forall c :: c in Scored(tables) <==> exists t :: t in tables && c == CandidateOf(t) && c.score > 0.0
  {
    if tables == [] {
    } else {
      var init, last := tables[..|tables| - 1], tables[|tables| - 1];
      ScoredExactly(init);
      assert tables == init + [last];
    }
  }

  lemma {:induction false} ScoredCounts(tables: seq<Table>)
    ensures |Scored(tables)| == |Scoring(tables)|
  {
    if tables == [] {
      assert Scoring(tables) == {};
    } else {
      var n := |tables| - 1;
      ScoredCounts(tables[..n]);
      OneMoreScoring(tables, n);
    }
  }

  lemma OneMoreScoring(tables: seq<Table>, n: nat)
    requires |tables| == n + 1
    ensures var scores := CandidateOf(tables[n]).score > 0.0;
            |Scoring(tables)| == |Scoring(tables[..n])| + if scores then 1 else 0
  {
    var before, more := Scoring(tables[..n]), if CandidateOf(tables[n]).score > 0.0 then {n} else {};
    forall i: nat ensures i in Scoring(tables) <==> i in before || i in more {
      assert i < n ==> tables[..n][i] == tables[i];
    }
    assert Scoring(tables) == before + more && before !! more;
  }

  // ---------- Selection ----------

  /** Above the absolute threshold, and close to the best score or named by the question. */
  predicate Passes(p: Params, best: real, c: Candidate) {
    p.absolute <= c.score && (ExactAlias in c.reasons || best * p.relative <= c.score)
  }

  /**
    The selection is made of the tables that pass, the best ones first and as many as fit; a table that passes is left
    out only for lack of room. If no table passes, the best one is selected.
   */
  lemma SelectedExactly(p: Params, tables: seq<Table>)
    ensures var ranked, s := Ranked(tables), Selected(p, Ranked(tables));
            var room := if p.topK >= 1 then p.topK else 1;
            && |s| <= room && s <= Passing(p, ranked)
            && (s == [] <==> ranked == [])
            && (forall c :: c in ranked ==> c.score <= ranked[0].score)
            && (forall c :: c in s ==>
                  Passes(p, ranked[0].score, c)
                  || (s == [ranked[0]] && forall x :: x in ranked ==> !Passes(p, ranked[0].score, x)))
            && (forall c, x :: c in s && x in ranked && x !in s && Passes(p, ranked[0].score, x) ==>
                  |s| == room && RanksBefore(c, x))
  {
    var ranked := Ranked(tables);
    RankedExactly(tables);
    SortOrders(Scored(tables), RankOf);
    BestIsFirst(ranked);
    SelectedPass(p, ranked);
    NoneIsPassedOver(p, ranked);
    SelectedIsPassing(p, ranked);
  }

  lemma BestIsFirst(ranked: seq<Candidate>)
    requires Ordered(ranked, RankOf)
    ensures forall c :: c in ranked ==> c.score <= ranked[0].score
  {
    forall c | c in ranked ensures c.score <= ranked[0].score {
      var i :| 0 <= i < |ranked| && ranked[i] == c;
      assert i > 0 ==> RankLeq(RankOf(ranked[0]), RankOf(ranked[i]));
    }
  }

  lemma SelectedPass(p: Params, ranked: seq<Candidate>)
    ensures var s := Selected(p, ranked);
            forall c :: c in s ==>
              || Passes(p, ranked[0].score, c)
              || (s == [ranked[0]] && forall x :: x in ranked ==> !Passes(p, ranked[0].score, x))
  {
    if ranked != [] {
      var q := Qualifying(p, ranked[0].score, ranked);
      forall x | x in ranked ensures x in q <==> Passes(p, ranked[0].score, x) {
      }
    }
  }

  lemma NoneIsPassedOver(p: Params, ranked: seq<Candidate>)
    requires Ordered(ranked, RankOf)
    ensures var s := Selected(p, ranked);
            forall c, x :: c in s && x in ranked && x !in s && Passes(p, ranked[0].score, x) ==>
              |s| == (if p.topK >= 1 then p.topK else 1) && RanksBefore(c, x)
  {
    var s := Selected(p, ranked);
    forall c, x | c in s && x in ranked && x !in s && Passes(p, ranked[0].score, x)
      ensures |s| == (if p.topK >= 1 then p.topK else 1) && RanksBefore(c, x)
    {
      PassingIsKept(p, ranked, x, c);
    }
  }

  /** The tables that pass, or the best one if there are none. */
  function Passing(p: Params, ranked: seq<Candidate>): seq<Candidate> {
    if ranked == [] then []
    else if exists c :: c in ranked && Passes(p, ranked[0].score, c) then Keep(p, ranked[0].score, ranked)
    else [ranked[0]]
  }

  /** The passing ones, in their order. */
  function Keep(p: Params, best: real, ranked: seq<Candidate>): seq<Candidate> {
    if ranked == [] then []
    else
      var init, last := ranked[..|ranked| - 1], ranked[|ranked| - 1];
      if Passes(p, best, last) then Keep(p, best, init) + [last] else Keep(p, best, init)
  }

  lemma {:induction false} QualifyingIsKeep(p: Params, best: real, a: seq<Candidate>, b: seq<Candidate>)
    ensures Keep(p, best, a + b) == Keep(p, best, a) + Qualifying(p, best, b)
    decreases b
  {
    if b == [] {
      assert a + b == a;
    } else {
      var c := b[0];
      assert a + b == (a + [c]) + b[1..];
      QualifyingIsKeep(p, best, a + [c], b[1..]);
      assert (a + [c])[..|a|] == a;
      assert Passes(p, best, c) <==> Qualifies(p, best, c);
    }
  }

  lemma AllKept(p: Params, best: real, ranked: seq<Candidate>)
    ensures Keep(p, best, ranked) == Qualifying(p, best, ranked)
    ensures Qualifying(p, best, ranked) == [] <==> forall c :: c in ranked ==> !Passes(p, best, c)
  {
    var q := Qualifying(p, best, ranked);
    QualifyingIsKeep(p, best, [], ranked);
    assert [] + ranked == ranked && Keep(p, best, []) + q == q;
    assert forall c :: c in q <==> c in ranked && Passes(p, best, c);
    assert q != [] ==> q[0] in q;
  }

  lemma SelectedIsPassing(p: Params, ranked: seq<Candidate>)
    ensures Selected(p, ranked) <= Passing(p, ranked)
  {
    if ranked != [] {
      AllKept(p, ranked[0].score, ranked);
    }
  }

  lemma PassingIsKept(p: Params, ranked: seq<Candidate>, x: Candidate, c: Candidate)
    requires ranked != [] && Ordered(ranked, RankOf)
    requires x in ranked && Passes(p, ranked[0].score, x) && x !in Selected(p, ranked) && c in Selected(p, ranked)
    ensures RanksBefore(c, x) && |Selected(p, ranked)| == if p.topK >= 1 then p.topK else 1
  {
    var q := Qualifying(p, ranked[0].score, ranked);
    assert x in q;
    QualifyingKeeps(p, ranked[0].score, ranked);
    PrefixIsBest(q, |Selected(p, ranked)|, x, c);
    RankLeqIsBefore(c, x);
  }

  lemma RankLeqIsBefore(a: Candidate, b: Candidate)
    ensures RankLeq(RankOf(a), RankOf(b)) <==> RanksBefore(a, b)
  {
    NameLeqIsAlphabetic(a.name, b.name);
  }

  // ---------- Expansion ----------

  /** The question asks for a join, the neighbour is ranked, and its columns or its score are strong. */
  ghost predicate IsStrongNeighbor(p: Params, ranked: seq<Candidate>, c: Candidate) {
    && p.joinIntent && c in ranked
    && (c.strongest >= 0.75 || (c.score >= p.absolute && c.score >= ranked[0].score * 0.7))
  }

  /**
    One relation adds a strong neighbour of a selected table, marked with its reason: the target if the source is
    selected and the target is not, otherwise the source if it is the other way round.
   */
  lemma OneRelation(p: Params, ranked: seq<Candidate>, s: seq<Candidate>, r: Relation)
    requires DistinctNames(ranked)
    ensures var next := ExpandOne(p, ranked, s, r);
            var from, to := (exists c :: c in s && c.name == r.fromTable), (exists c :: c in s && c.name == r.toTable);
            && (next == s
                || exists c ::
                     && IsStrongNeighbor(p, ranked, c) && next == s + [c.(reasons := c.reasons + {FkExpansion})]
                     && ((from && !to && c.name == r.toTable) || (to && !from && c.name == r.fromTable)))
            && (forall c :: from && !to && IsStrongNeighbor(p, ranked, c) && c.name == r.toTable ==>
                  next == s + [c.(reasons := c.reasons + {FkExpansion})])
            && (forall c :: to && !from && IsStrongNeighbor(p, ranked, c) && c.name == r.fromTable ==>
                  next == s + [c.(reasons := c.reasons + {FkExpansion})])
  {
    StrongExactlyWhen(p, ranked, r.toTable);
    StrongExactlyWhen(p, ranked, r.fromTable);
  }

  lemma StrongExactlyWhen(p: Params, ranked: seq<Candidate>, name: string)
    requires DistinctNames(ranked)
    ensures var found := ByName(ranked, name);
            && (p.joinIntent && found.Some? && Strong(p, TopScore(ranked), found.value) <==>
                exists c :: IsStrongNeighbor(p, ranked, c) && c.name == name)
            && forall c :: c in ranked && c.name == name ==> found == Some(c)
  {
    var found := ByName(ranked, name);
    forall c | c in ranked && c.name == name ensures found == Some(c) {
      var i :| 0 <= i < |ranked| && ranked[i] == c;
      var j :| 0 <= j < |ranked| && ranked[j] == found.value;
    }
    if found.Some? {
      assert ranked != [];
      assert Strong(p, TopScore(ranked), found.value) && p.joinIntent <==> IsStrongNeighbor(p, ranked, found.value);
    }
  }

  /** The walk goes on exactly until the limit is reached: its parts compose, and past the limit nothing is added. */
  lemma {:induction false} WalkComposes(p: Params, ranked: seq<Candidate>, s: seq<Candidate>, relations: seq<Relation>,
                                        k: nat)
    requires 1 <= k <= |relations|
    ensures var room := if p.topK >= 1 then p.topK else 1;
            var before := Expand(p, ranked, s, relations[..k]);
            Expand(p, ranked, s, relations) ==
            if |before| >= room then before else Expand(p, ranked, before, relations[k..])
    decreases k
  {
    var next := ExpandOne(p, ranked, s, relations[0]);
    assert relations[..k][0] == relations[0] && relations[..k][1..] == relations[1..][..k - 1];
    if |next| < p.Limit() {
      if k == 1 {
        assert relations[..k][1..] == [];
        assert Expand(p, ranked, next, []) == next;
      } else {
        WalkComposes(p, ranked, next, relations[1..], k - 1);
        assert relations[1..][k - 1..] == relations[k..];
      }
    }
  }

  lemma NoRelationLeft(p: Params, ranked: seq<Candidate>, s: seq<Candidate>)
    ensures Expand(p, ranked, s, []) == s
  {
  }

  /** With nothing ranked, the first table of the catalogue; otherwise the expanded selection. */
  lemma FallbackExactlyWhen(p: Params, catalog: Catalog)
    ensures var ranked := Ranked(catalog.tables);
            Selection(p, catalog) ==
            if (forall t :: t in catalog.tables ==> CandidateOf(t).score <= 0.0) && catalog.tables != []
            then [Candidate(0.0, catalog.tables[0].name, {Fallback}, [], 0.0)]
            else Expand(p, ranked, Selected(p, ranked), catalog.relations)
  {
    var ranked := Ranked(catalog.tables);
    RankedExactly(catalog.tables);
    ExpandLaws(p, ranked, Selected(p, ranked), catalog.relations);
    assert ranked != [] ==> ranked[0] in ranked;
    if t :| t in catalog.tables && CandidateOf(t).score > 0.0 {
      assert CandidateOf(t) in ranked;
    } else {
      NothingToExpand(p, catalog.relations);
    }
  }

  lemma {:induction false} NothingToExpand(p: Params, relations: seq<Relation>)
    ensures Expand(p, [], [], relations) == []
  {
    if relations == [] {
    } else {
      NothingToExpand(p, relations[1..]);
    }
  }
}
