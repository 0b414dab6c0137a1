/**
  Linking a question to tables: selection by score, expansion along foreign keys, and join columns. The lexical,
  semantic and term-match signals of tables and columns are inputs.
 */
module SchemaLinker {
  import opened RankedOrder
  import opened Sequences
  import opened Wrappers

  datatype Column = Column(name: string, overlap: nat, exact: bool)

  datatype Table = Table(name: string, lexical: real, semantic: real, exact: bool, columns: seq<Column>)

  datatype Relation = Relation(fromTable: string, fromColumn: string, toTable: string, toColumn: string)

  datatype Catalog = Catalog(tables: seq<Table>, relations: seq<Relation>)

  datatype Params = Params(absolute: real, relative: real, topK: int, joinIntent: bool) {
    function Limit(): (n: nat)
      ensures n >= 1
    {
      if topK > 1 then topK else 1
    }
  }

  datatype Reason = ExactAlias | LexicalMatch | SemanticMatch | ColumnMetadata | FkExpansion | Fallback

  datatype ColumnReason = ColumnExact | ColumnLexical | RequiredJoinKey

  datatype LinkedColumn = LinkedColumn(name: string, score: real, reason: ColumnReason)

  datatype Candidate = Candidate(score: real, name: string, reasons: set<Reason>, columns: seq<LinkedColumn>,
      strongest: real)

  datatype LinkResult = LinkResult(tables: seq<Candidate>, relations: seq<Relation>)

  function Least(a: real, b: real): real {
    if a < b then a else b
  }

  function Greatest(a: real, b: real): real {
    if a < b then b else a
  }

  // ---------- Scoring ----------

  function ColumnScore(c: Column): real {
    Least(1.0, (if c.exact then 0.75 else 0.0) + Least(c.overlap as real * 0.25, 0.75))
  }

  /** The columns that score at least one half. */
  function LinkedColumns(columns: seq<Column>): seq<LinkedColumn> {
    if columns == [] then [] else
    var c := columns[|columns| - 1];
    LinkedColumns(columns[..|columns| - 1]) +
    if ColumnScore(c) < 0.5 then [] else [LinkedColumn(c.name, ColumnScore(c),
        if c.exact then ColumnExact else ColumnLexical)]
  }

  function Strongest(columns: seq<Column>): real {
    if columns == [] then 0.0 else
    var c := columns[|columns| - 1];
    var before := Strongest(columns[..|columns| - 1]);
    if ColumnScore(c) < 0.5 then before else Greatest(before, ColumnScore(c))
  }

  function CandidateOf(t: Table): Candidate {
    var columns, strongest := LinkedColumns(t.columns), Strongest(t.columns);
    var reasons := (if t.exact then {ExactAlias} else {}) + (if t.lexical > 0.0 then {LexicalMatch} else {})
                   + (if t.semantic > 0.0 then {SemanticMatch} else {}) + (if columns != [] then {ColumnMetadata} else {});
    Candidate(t.lexical * 0.45 + t.semantic * 0.25 + strongest * 0.45 + (if t.exact then 0.55 else 0.0), t.name,
        reasons, columns, strongest)
  }

  // ---------- What a score means ----------

  /** Named outright, or sharing at least two words with the question. */
  predicate Matches(c: Column) {
    c.exact || c.overlap >= 2
  }

  /** The five grades of a column; it is linked exactly if it matches, and an exact one never scores below another. */
  lemma ColumnGrades(c: Column, d: Column)
    ensures ColumnScore(c) in {0.0, 0.25, 0.5, 0.75, 1.0}
    ensures ColumnScore(c) >= 0.5 <==> Matches(c)
    ensures ColumnScore(c) == 1.0 <==> c.exact && c.overlap >= 1
    ensures ColumnScore(c) == 0.75 <==> if c.exact then c.overlap == 0 else c.overlap >= 3
    ensures c.exact ==> ColumnScore(c) >= ColumnScore(d) || (d.exact && c.overlap == 0 < d.overlap)
  {
    if c.overlap >= 3 {
      assert c.overlap as real * 0.25 >= 0.75;
    }
    if d.overlap >= 3 {
      assert d.overlap as real * 0.25 >= 0.75;
    }
  }

  function LinkOf(c: Column): LinkedColumn {
    LinkedColumn(c.name, ColumnScore(c), if c.exact then ColumnExact else ColumnLexical)
  }

  /** The greatest score of the columns, zero if there are none. */
  ghost predicate IsStrongest(columns: seq<LinkedColumn>, strongest: real) {
    && (forall x :: x in columns ==> x.score <= strongest)
    && if columns == [] then strongest == 0.0 else exists x :: x in columns && x.score == strongest
  }

  /** Each reason stands for its signal, and a candidate starts with no other. */
  predicate ReasonsExplain(t: Table, c: Candidate) {
    && (ExactAlias in c.reasons <==> t.exact)
    && (LexicalMatch in c.reasons <==> t.lexical > 0.0)
    && (SemanticMatch in c.reasons <==> t.semantic > 0.0)
    && (ColumnMetadata in c.reasons <==> exists k :: k in t.columns && Matches(k))
    && FkExpansion !in c.reasons && Fallback !in c.reasons
  }

  lemma {:induction false} LinkedColumnsLaws(columns: seq<Column>)
    ensures forall x :: x in LinkedColumns(columns) <==> exists k :: k in columns && Matches(k) && x == LinkOf(k)
    ensures IsStrongest(LinkedColumns(columns), Strongest(columns))
  {
    if columns == [] {
    } else {
      var c, before := columns[|columns| - 1], columns[..|columns| - 1];
      assert columns == before + [c];
      LinkedColumnsLaws(before);
      ColumnGrades(c, c);
      var links := LinkedColumns(before);
      if Matches(c) {
        assert LinkedColumns(columns) == links + [LinkOf(c)];
        assert LinkOf(c) in LinkedColumns(columns);
        if links != [] {
          var x :| x in links && x.score == Strongest(before);
          assert x in LinkedColumns(columns);
        }
      } else {
        assert LinkedColumns(columns) == links;
      }
    }
  }

  lemma CandidateLaws(t: Table)
    ensures var c := CandidateOf(t);
            && (forall x :: x in c.columns <==> exists k :: k in t.columns && Matches(k) && x == LinkOf(k))
            && IsStrongest(c.columns, c.strongest) && ReasonsExplain(t, c)
  {
    LinkedColumnsLaws(t.columns);
    var c := CandidateOf(t);
    if c.columns != [] {
      assert c.columns[0] in c.columns;
    }
    forall k | k in t.columns && Matches(k) ensures c.columns != [] {
      assert LinkOf(k) in c.columns;
    }
  }

  /** A table is ranked exactly if there is a reason for it; signals are never negative. */
  lemma RankedExactlyWithReason(t: Table)
    requires t.lexical >= 0.0 && t.semantic >= 0.0
    ensures CandidateOf(t).score > 0.0 <==> CandidateOf(t).reasons != {}
  {
    LinkedColumnsLaws(t.columns);
    var c := CandidateOf(t);
    if c.columns != [] {
      var x :| x in c.columns && x.score == c.strongest;
      assert exists k :: k in t.columns && Matches(k) && x == LinkOf(k);
      var k :| k in t.columns && Matches(k) && x == LinkOf(k);
      ColumnGrades(k, k);
    }
    if c.reasons != {} {
      var reason :| reason in c.reasons;
    }
  }

  /** No evidence counts against a table: one with at least the signals of another scores at least as much. */
  lemma MoreEvidenceScoresMore(t: Table, u: Table)
    requires t.lexical <= u.lexical && t.semantic <= u.semantic && (t.exact ==> u.exact)
    requires forall k :: k in t.columns ==> exists m :: m in u.columns && ColumnScore(k) <= ColumnScore(m)
    ensures CandidateOf(t).score <= CandidateOf(u).score
    ensures CandidateOf(t).score == CandidateOf(u).score ==>
              t.lexical == u.lexical && t.semantic == u.semantic && t.exact == u.exact
  {
    LinkedColumnsLaws(t.columns);
    LinkedColumnsLaws(u.columns);
    var c, d := CandidateOf(t), CandidateOf(u);
    if c.columns != [] {
      var x :| x in c.columns && x.score == c.strongest;
      var k :| k in t.columns && Matches(k) && x == LinkOf(k);
      var m :| m in u.columns && ColumnScore(k) <= ColumnScore(m);
      ColumnGrades(k, k);
      ColumnGrades(m, m);
      assert LinkOf(m) in d.columns;
    } else if d.columns != [] {
      var x :| x in d.columns && x.score == d.strongest;
      var k :| k in u.columns && Matches(k) && x == LinkOf(k);
      ColumnGrades(k, k);
    }
  }

  /** The tables with a positive score, in the catalogue's order. */
  function Scored(tables: seq<Table>): (s: seq<Candidate>)
    ensures forall c :: c in s ==> c.score > 0.0 && exists t :: t in tables && c == CandidateOf(t)
  {
    if tables == [] then [] else
    var t := tables[|tables| - 1];
    assert tables == tables[..|tables| - 1] + [t];
    Scored(tables[..|tables| - 1]) + if CandidateOf(t).score > 0.0 then [CandidateOf(t)] else []
  }

  function RankOf(c: Candidate): Rank {
    Rank(c.score, c.name)
  }

  function Ranked(tables: seq<Table>): (r: seq<Candidate>)
    ensures multiset(r) == multiset(Scored(tables))
  {
    Sort(Scored(tables), RankOf)
  }

  // ---------- Selection ----------

  function TopScore(ranked: seq<Candidate>): real {
    if ranked != [] then ranked[0].score else 0.0
  }

  predicate Qualifies(p: Params, top: real, c: Candidate) {
    c.score >= p.absolute && (c.score >= top * p.relative || ExactAlias in c.reasons)
  }

  function Qualifying(p: Params, top: real, ranked: seq<Candidate>): (q: seq<Candidate>)
    ensures forall c :: c in q <==> c in ranked && Qualifies(p, top, c)
  {
    if ranked == [] then []
    else (if Qualifies(p, top, ranked[0]) then [ranked[0]] else []) + Qualifying(p, top, ranked[1..])
  }

  /** The first qualifying tables, or the best one if none qualifies. */
  function Selected(p: Params, ranked: seq<Candidate>): (s: seq<Candidate>)
    ensures |s| <= p.Limit()
    ensures s == [] <==> ranked == []
    ensures forall c :: c in s ==> c in ranked
  {
    var q := Qualifying(p, TopScore(ranked), ranked);
    if q != [] then q[..if |q| < p.Limit() then |q| else p.Limit()] else if ranked != [] then ranked[..1] else []
  }

  // ---------- Expansion ----------

  function Names(s: seq<Candidate>): (names: set<string>)
    ensures forall n :: n in names <==> exists c :: c in s && c.name == n
  {
    set c | c in s :: c.name
  }

  /** The last ranked candidate of a name. */
  function ByName(ranked: seq<Candidate>, name: string): (c: Option<Candidate>)
    ensures c.Some? ==> c.value in ranked && c.value.name == name
    ensures c.None? ==> forall x :: x in ranked ==> x.name != name
  {
    if ranked == [] then None
    else
      var n := |ranked| - 1;
      assert ranked == ranked[..n] + [ranked[n]];
      if ranked[n].name == name then Some(ranked[n]) else ByName(ranked[..n], name)
  }

  predicate Strong(p: Params, top: real, c: Candidate) {
    c.strongest >= 0.75 || c.score >= Greatest(p.absolute, top * 0.7)
  }

  /** A neighbour may join the selection: it is ranked, not selected, next to a selected table, and strong. */
  predicate MayJoin(p: Params, ranked: seq<Candidate>, names: set<string>, origin: string, neighbor: string) {
    && origin in names && neighbor !in names && p.joinIntent
    && ByName(ranked, neighbor).Some? && Strong(p, TopScore(ranked), ByName(ranked, neighbor).value)
  }

  function Joined(ranked: seq<Candidate>, neighbor: string): Candidate
    requires ByName(ranked, neighbor).Some?
  {
    var c := ByName(ranked, neighbor).value;
    c.(reasons := c.reasons + {FkExpansion})
  }

  /** One relation adds at most one table: the target if the source is selected, else the source if the target is. */
  function ExpandOne(p: Params, ranked: seq<Candidate>, s: seq<Candidate>, r: Relation): seq<Candidate> {
    if MayJoin(p, ranked, Names(s), r.fromTable, r.toTable) then s + [Joined(ranked, r.toTable)]
    else if MayJoin(p, ranked, Names(s), r.toTable, r.fromTable) then s + [Joined(ranked, r.fromTable)]
    else s
  }

  /** The relations in order, until the limit is reached. */
  function Expand(p: Params, ranked: seq<Candidate>, s: seq<Candidate>, relations: seq<Relation>): seq<Candidate>
    decreases relations
  {
    if relations == [] then s else
    var next := ExpandOne(p, ranked, s, relations[0]);
    if |next| >= p.Limit() then next else Expand(p, ranked, next, relations[1..])
  }

  /** The linked tables before columns are completed; with nothing ranked, the first table of the catalogue. */
  function Selection(p: Params, catalog: Catalog): seq<Candidate> {
    var ranked := Ranked(catalog.tables);
    var s := Expand(p, ranked, Selected(p, ranked), catalog.relations);
    if s == [] && catalog.tables != [] then [Candidate(0.0, catalog.tables[0].name, {Fallback}, [], 0.0)] else s
  }

  // ---------- Join columns ----------

  function Linked(names: set<string>, relations: seq<Relation>): (linked: seq<Relation>)
    ensures forall r :: r in linked <==> r in relations && r.fromTable in names && r.toTable in names
  {
    if relations == [] then [] else
    var n := |relations| - 1;
    assert relations == relations[..n] + [relations[n]];
    var before := Linked(names, relations[..n]);
    if relations[n].fromTable in names && relations[n].toTable in names then before + [relations[n]] else before
  }

  predicate JoinsOn(r: Relation, table: string, column: string) {
    (r.fromTable == table && r.fromColumn == column) || (r.toTable == table && r.toColumn == column)
  }

  predicate Touches(r: Relation, table: string, names: set<string>) {
    (r.toTable == table && r.fromTable in names) || (r.fromTable == table && r.toTable in names)
  }

  /** The columns of a table that the relations join on. */
  function JoinColumns(relations: seq<Relation>, table: string): (names: set<string>)
    ensures forall r :: r in relations && r.fromTable == table ==> r.fromColumn in names
    ensures forall r :: r in relations && r.toTable == table ==> r.toColumn in names
    ensures forall n :: n in names ==> exists r :: r in relations && JoinsOn(r, table, n)
  {
    (set r | r in relations && r.fromTable == table :: r.fromColumn)
    + (set r | r in relations && r.toTable == table :: r.toColumn)
  }

  function ColumnNames(columns: seq<LinkedColumn>): (names: set<string>)
    ensures forall n :: n in names <==> exists c :: c in columns && c.name == n
  {
    set c | c in columns :: c.name
  }

  function ColumnRank(c: LinkedColumn): Rank {
    Rank(c.score, c.name)
  }

  /** A linked table keeps its columns and gains the join columns it lacks, as weak columns. */
  ghost predicate Completed(c: Candidate, relations: seq<Relation>, t: Candidate) {
    && t == c.(columns := t.columns)
    && Ordered(t.columns, ColumnRank)
    && |t.columns| == |c.columns| + |JoinColumns(relations, c.name) - ColumnNames(c.columns)|
    && (forall x :: x in t.columns <==>
                      x in c.columns
                      || (&& x == LinkedColumn(x.name, 0.01, RequiredJoinKey)
                          && x.name in JoinColumns(relations, c.name) && x.name !in ColumnNames(c.columns)))
  }

  /** A link result: the sorted selection with completed columns, and the relations between linked tables. */
  ghost predicate IsLink(p: Params, catalog: Catalog, result: LinkResult) {
    var s := Sort(Selection(p, catalog), RankOf);
    && result.relations == Linked(Names(Selection(p, catalog)), catalog.relations)
    && |result.tables| == |s|
    && forall i :: 0 <= i < |s| ==> Completed(s[i], result.relations, result.tables[i])
  }

  // ---------- Laws ----------

  predicate DistinctNames(s: seq<Candidate>) {
    forall i, j :: 0 <= i < j < |s| ==> s[i].name != s[j].name
  }

  predicate DistinctTables(tables: seq<Table>) {
    forall i, j :: 0 <= i < j < |tables| ==> tables[i].name != tables[j].name
  }

  lemma {:induction false} ScoredIsDistinct(tables: seq<Table>)
    requires DistinctTables(tables)
    ensures DistinctNames(Scored(tables))
  {
    if tables == [] {
    } else {
      var n := |tables| - 1;
      ScoredIsDistinct(tables[..n]);
      forall c | c in Scored(tables[..n]) ensures c.name != tables[n].name {
        var t :| t in tables[..n] && c == CandidateOf(t);
      }
    }
  }

  lemma DistinctCounts(s: seq<Candidate>, t: seq<Candidate>)
    requires DistinctNames(s) && multiset(s) == multiset(t)
    ensures DistinctNames(t)
  {
    forall i, j | 0 <= i < j < |t| ensures t[i].name != t[j].name {
      SameElements(s, t, t[i]);
      SameElements(s, t, t[j]);
      if t[i].name == t[j].name {
        var m :| 0 <= m < |s| && s[m] == t[i];
        var n :| 0 <= n < |s| && s[n] == t[j];
        assert m == n;
        Twice(t, i, j);
        Once(s, m);
      }
    }
  }

  lemma Twice(t: seq<Candidate>, i: nat, j: nat)
    requires i < j < |t| && t[i] == t[j]
    ensures multiset(t)[t[i]] >= 2
  {
    assert t == t[..i] + [t[i]] + t[i + 1..j] + [t[j]] + t[j + 1..];
  }

  lemma Once(s: seq<Candidate>, m: nat)
    requires DistinctNames(s) && m < |s|
    ensures multiset(s)[s[m]] == 1
  {
    assert s == s[..m] + [s[m]] + s[m + 1..];
    assert s[m] !in s[..m] && s[m] !in s[m + 1..];
  }

  lemma {:induction false} QualifyingKeeps(p: Params, top: real, ranked: seq<Candidate>)
    ensures DistinctNames(ranked) ==> DistinctNames(Qualifying(p, top, ranked))
    ensures Ordered(ranked, RankOf) ==> Ordered(Qualifying(p, top, ranked), RankOf)
  {
    if ranked == [] {
    } else {
      QualifyingKeeps(p, top, ranked[1..]);
      var q := Qualifying(p, top, ranked[1..]);
      forall i | 0 <= i < |q|
        ensures DistinctNames(ranked) ==> q[i].name != ranked[0].name
        ensures Ordered(ranked, RankOf) ==> RankLeq(RankOf(ranked[0]), RankOf(q[i]))
      {
        assert q[i] in ranked[1..];
        var j :| 0 <= j < |ranked[1..]| && ranked[1..][j] == q[i];
        assert ranked[j + 1] == q[i];
      }
      if Ordered(ranked, RankOf) {
        OrderedInFront(ranked[0], q, RankOf);
      }
    }
  }

  /** No table that qualifies is passed over for one that ranks lower. */
  lemma SelectedAreTheBest(p: Params, catalog: Catalog, x: Candidate, c: Candidate)
    requires var ranked := Ranked(catalog.tables);
             x in ranked && Qualifies(p, TopScore(ranked), x) && x !in Selected(p, ranked) && c in Selected(p, ranked)
    ensures RankLeq(RankOf(c), RankOf(x)) && |Selected(p, Ranked(catalog.tables))| == p.Limit()
  {
    var ranked := Ranked(catalog.tables);
    SortOrders(Scored(catalog.tables), RankOf);
    var q := Qualifying(p, TopScore(ranked), ranked);
    QualifyingKeeps(p, TopScore(ranked), ranked);
    assert x in q;
    PrefixIsBest(q, if |q| < p.Limit() then |q| else p.Limit(), x, c);
  }

  lemma PrefixIsBest(q: seq<Candidate>, n: nat, x: Candidate, c: Candidate)
    requires Ordered(q, RankOf) && n <= |q| && x in q && x !in q[..n] && c in q[..n]
    ensures n < |q| && RankLeq(RankOf(c), RankOf(x))
  {
    var i :| 0 <= i < |q| && q[i] == x;
    var j :| 0 <= j < n && q[..n][j] == c;
    assert q[j] == c;
    assert forall k :: 0 <= k < n ==> q[k] in q[..n];
  }

  lemma SelectedIsDistinct(p: Params, catalog: Catalog)
    requires DistinctTables(catalog.tables)
    ensures DistinctNames(Selected(p, Ranked(catalog.tables)))
  {
    var ranked := Ranked(catalog.tables);
    ScoredIsDistinct(catalog.tables);
    DistinctCounts(Scored(catalog.tables), ranked);
    QualifyingKeeps(p, TopScore(ranked), ranked);
  }

  /** Why expansion added a table: the question wants a join, the table is strong, and a relation reaches it. */
  ghost predicate JoinJustified(p: Params, ranked: seq<Candidate>, relations: seq<Relation>, names: set<string>,
                                c: Candidate) {
    && p.joinIntent && ByName(ranked, c.name).Some? && c == Joined(ranked, c.name)
    && Strong(p, TopScore(ranked), ByName(ranked, c.name).value)
    && exists r :: r in relations && Touches(r, c.name, names)
  }

  lemma JoinedOnce(p: Params, ranked: seq<Candidate>, s: seq<Candidate>, r: Relation)
    ensures var next := ExpandOne(p, ranked, s, r);
            && s <= next && |next| <= |s| + 1 && Names(s) <= Names(next)
            && (DistinctNames(s) ==> DistinctNames(next))
            && (forall c :: c in next && c !in s ==> JoinJustified(p, ranked, [r], Names(next), c))
  {
    var next := ExpandOne(p, ranked, s, r);
    forall n | n in Names(s) ensures n in Names(next) {
      var c :| c in s && c.name == n;
      assert c in next;
    }
    if next != s {
      var last := next[|s|];
      assert next == s + [last] && r in [r];
      forall c | c in s ensures c.name != last.name {
        assert c.name in Names(s);
      }
    }
  }

  lemma {:induction false} ExpandLaws(p: Params, ranked: seq<Candidate>, s: seq<Candidate>, relations: seq<Relation>)
    requires |s| <= p.Limit()
    ensures var e := Expand(p, ranked, s, relations);
            && s <= e && |e| <= p.Limit() + 1 && Names(s) <= Names(e)
            && (DistinctNames(s) ==> DistinctNames(e))
            && (forall c :: c in e && c !in s ==> JoinJustified(p, ranked, relations, Names(e), c))
    decreases relations
  {
    if relations == [] {
    } else {
      var r := relations[0];
      var next := ExpandOne(p, ranked, s, r);
      JoinedOnce(p, ranked, s, r);
      var e := Expand(p, ranked, s, relations);
      if |next| < p.Limit() {
        ExpandLaws(p, ranked, next, relations[1..]);
        assert e == Expand(p, ranked, next, relations[1..]);
      }
      forall c | c in e && c !in s ensures JoinJustified(p, ranked, relations, Names(e), c) {
        if c in next {
          assert JoinJustified(p, ranked, [r], Names(next), c);
          assert r in relations;
        } else {
          assert JoinJustified(p, ranked, relations[1..], Names(e), c);
          var q :| q in relations[1..] && Touches(q, c.name, Names(e));
          assert q in relations;
        }
      }
    }
  }

  /**
    The limit is tested only after a relation: it is exceeded exactly if the selection was full and the first
    relation adds a table.
   */
  lemma {:induction false} LimitExceededExactlyWhen(p: Params, ranked: seq<Candidate>, s: seq<Candidate>,
                                                    relations: seq<Relation>)
    requires |s| <= p.Limit()
    ensures |Expand(p, ranked, s, relations)| > p.Limit() <==>
            && |s| == p.Limit() && relations != []
            && var r := relations[0];
               MayJoin(p, ranked, Names(s), r.fromTable, r.toTable) || MayJoin(p, ranked, Names(s), r.toTable, r.fromTable)
    decreases relations
  {
    if relations == [] {
    } else {
      var next := ExpandOne(p, ranked, s, relations[0]);
      assert |s| <= |next| <= |s| + 1;
      if |next| < p.Limit() {
        LimitExceededExactlyWhen(p, ranked, next, relations[1..]);
      }
    }
  }

  /** The selection: bounded, non-empty if the catalogue is, distinct tables of the catalogue, each with a reason. */
  lemma SelectionLaws(p: Params, catalog: Catalog)
    ensures var ranked := Ranked(catalog.tables); var s := Selection(p, catalog);
            && |s| <= p.Limit() + 1
            && (s == [] <==> catalog.tables == [])
            && (forall c :: c in s ==> exists t :: t in catalog.tables && t.name == c.name)
            && (DistinctTables(catalog.tables) ==> DistinctNames(s))
            && forall c :: c in s ==>
                             || c in Selected(p, ranked)
                             || JoinJustified(p, ranked, catalog.relations, Names(s), c)
                             || (ranked == [] && c.reasons == {Fallback})
  {
    var ranked := Ranked(catalog.tables);
    var s := Selected(p, ranked);
    ExpandLaws(p, ranked, s, catalog.relations);
    if DistinctTables(catalog.tables) {
      SelectedIsDistinct(p, catalog);
    }
    var e := Expand(p, ranked, s, catalog.relations);
    NamesFromCatalog(p, catalog, e);
    if e == [] && catalog.tables != [] {
      assert catalog.tables[0] in catalog.tables;
    } else if e != [] {
      EveryNameFromCatalog(p, catalog, e);
    }
  }

  lemma NamesFromCatalog(p: Params, catalog: Catalog, e: seq<Candidate>)
    requires var ranked := Ranked(catalog.tables);
             forall c :: c in e ==> c in ranked || ByName(ranked, c.name).Some?
    ensures forall c :: c in e ==> exists t :: t in catalog.tables && t.name == c.name
  {
    var ranked := Ranked(catalog.tables);
    forall c | c in e ensures exists t :: t in catalog.tables && t.name == c.name {
      var x := if c in ranked then c else ByName(ranked, c.name).value;
      SameElements(ranked, Scored(catalog.tables), x);
    }
  }

  lemma EveryNameFromCatalog(p: Params, catalog: Catalog, e: seq<Candidate>)
    requires e != [] && forall c :: c in e ==> exists t :: t in catalog.tables && t.name == c.name
    ensures catalog.tables != []
  {
    assert e[0] in e;
  }

  /** Linked tables are few, distinct tables of the catalogue, best first, and there is one if the catalogue has any. */
  lemma LinkedTablesLaws(p: Params, catalog: Catalog, result: LinkResult)
    requires IsLink(p, catalog, result)
    ensures |result.tables| <= p.Limit() + 1
    ensures result.tables == [] <==> catalog.tables == []
    ensures DistinctTables(catalog.tables) ==> DistinctNames(result.tables)
    ensures Names(result.tables) <= set t | t in catalog.tables :: t.name
    ensures Ordered(result.tables, RankOf)
  {
    var s := Selection(p, catalog);
    var sorted := Sort(s, RankOf);
    SelectionLaws(p, catalog);
    SortOrders(s, RankOf);
    if DistinctTables(catalog.tables) {
      DistinctCounts(s, sorted);
    }
    SameRanks(sorted, result.relations, result.tables);
    SameNames(s, sorted, result.tables);
  }

  lemma SameRanks(sorted: seq<Candidate>, relations: seq<Relation>, tables: seq<Candidate>)
    requires |tables| == |sorted| && forall i :: 0 <= i < |sorted| ==> Completed(sorted[i], relations, tables[i])
    ensures forall i :: 0 <= i < |sorted| ==> tables[i].name == sorted[i].name && RankOf(tables[i]) == RankOf(sorted[i])
  {
    forall i | 0 <= i < |sorted| ensures tables[i].name == sorted[i].name && RankOf(tables[i]) == RankOf(sorted[i]) {
      assert Completed(sorted[i], relations, tables[i]);
    }
  }

  /**
    Every returned relation joins two linked tables that list its join columns, and no relation between linked tables
    is missing.
   */
  lemma LinkedRelationsLaws(p: Params, catalog: Catalog, result: LinkResult)
    requires IsLink(p, catalog, result)
    ensures forall r :: r in result.relations <==>
                          r in catalog.relations && r.fromTable in Names(result.tables) && r.toTable in Names(result.tables)
    ensures forall r, t :: r in result.relations && t in result.tables && t.name == r.fromTable ==>
                             r.fromColumn in ColumnNames(t.columns)
    ensures forall r, t :: r in result.relations && t in result.tables && t.name == r.toTable ==>
                             r.toColumn in ColumnNames(t.columns)
  {
    var s := Selection(p, catalog);
    var sorted := Sort(s, RankOf);
    SameRanks(sorted, result.relations, result.tables);
    SameNames(s, sorted, result.tables);
    JoinColumnsAreListed(sorted, result.relations, result.tables);
  }

  lemma JoinColumnsAreListed(sorted: seq<Candidate>, relations: seq<Relation>, tables: seq<Candidate>)
    requires |tables| == |sorted| && forall i :: 0 <= i < |sorted| ==> Completed(sorted[i], relations, tables[i])
    ensures forall t, column :: t in tables && column in JoinColumns(relations, t.name) ==>
                                  column in ColumnNames(t.columns)
  {
    forall t, column | t in tables && column in JoinColumns(relations, t.name)
      ensures column in ColumnNames(t.columns)
    {
      var i :| 0 <= i < |tables| && tables[i] == t;
      JoinColumnIsListed(sorted[i], relations, t, column);
    }
  }

  lemma SameNames(s: seq<Candidate>, sorted: seq<Candidate>, tables: seq<Candidate>)
    requires multiset(s) == multiset(sorted) && |tables| == |sorted|
    requires forall i :: 0 <= i < |sorted| ==> tables[i].name == sorted[i].name
    ensures Names(s) == Names(tables)
  {
    forall n | n in Names(s) ensures n in Names(tables) {
      var c :| c in s && c.name == n;
      SameElements(s, sorted, c);
      var i :| 0 <= i < |sorted| && sorted[i] == c;
      assert tables[i] in tables;
    }
    forall n | n in Names(tables) ensures n in Names(s) {
      var c :| c in tables && c.name == n;
      var i :| 0 <= i < |tables| && tables[i] == c;
      SameElements(s, sorted, sorted[i]);
    }
  }

  lemma JoinColumnIsListed(c: Candidate, relations: seq<Relation>, t: Candidate, column: string)
    requires Completed(c, relations, t) && column in JoinColumns(relations, c.name)
    ensures column in ColumnNames(t.columns)
  {
    if column in ColumnNames(c.columns) {
      var x :| x in c.columns && x.name == column;
      assert x in t.columns;
    } else {
      assert LinkedColumn(column, 0.01, RequiredJoinKey) in t.columns;
    }
  }

  // ---------- The operation ----------

  lemma LinkStep(columns: seq<Column>, i: nat)
    requires i < |columns|
    ensures var c, before, after := columns[i], columns[..i], columns[..i + 1];
            var linked := ColumnScore(c) >= 0.5;
            && LinkedColumns(after) == LinkedColumns(before) + (if linked then [LinkOf(c)] else [])
            && Strongest(after) == if linked then Greatest(Strongest(before), ColumnScore(c)) else Strongest(before)
  {
    Snoc(columns, i);
  }

  method LinkColumns(columns: seq<Column>) returns (links: seq<LinkedColumn>, strongest: real)
    ensures links == LinkedColumns(columns) && strongest == Strongest(columns)
  {
    links, strongest := [], 0.0;
    for i := 0 to |columns|
      invariant links == LinkedColumns(columns[..i]) && strongest == Strongest(columns[..i])
    {
      LinkStep(columns, i);
      var column := columns[i];
      var score := ColumnScore(column);
      if score >= 0.5 {
        links := links + [LinkedColumn(column.name, score, if column.exact then ColumnExact else ColumnLexical)];
        strongest := Greatest(strongest, score);
      }
    }
    assert columns[..|columns|] == columns;
  }

  /** One table: its linked columns, its reasons and its score. */
  method ScoreTable(t: Table) returns (c: Candidate)
    ensures c == CandidateOf(t) && c.name == t.name
    ensures c.score == 0.45 * (t.lexical + c.strongest) + 0.25 * t.semantic + if t.exact then 0.55 else 0.0
    ensures forall x :: x in c.columns <==> exists k :: k in t.columns && Matches(k) && x == LinkOf(k)
    ensures IsStrongest(c.columns, c.strongest)
    ensures ReasonsExplain(t, c)
  {
    var reasons: set<Reason> := {};
    if t.exact {
      reasons := reasons + {ExactAlias};
    }
    if t.lexical > 0.0 {
      reasons := reasons + {LexicalMatch};
    }
    if t.semantic > 0.0 {
      reasons := reasons + {SemanticMatch};
    }
    var columns, strongest := LinkColumns(t.columns);
    var score := t.lexical * 0.45 + t.semantic * 0.25 + strongest * 0.45 + (if t.exact then 0.55 else 0.0);
    if columns != [] {
      reasons := reasons + {ColumnMetadata};
    }
    c := Candidate(score, t.name, reasons, columns, strongest);
    CandidateLaws(t);
  }

  lemma ScoredStep(tables: seq<Table>, i: nat)
    requires i < |tables|
    ensures var c := CandidateOf(tables[i]);
            Scored(tables[..i + 1]) == Scored(tables[..i]) + if c.score > 0.0 then [c] else []
  {
    Snoc(tables, i);
  }

  method RankTables(tables: seq<Table>) returns (ranked: seq<Candidate>)
    ensures ranked == Ranked(tables)
  {
    ranked := [];
    for i := 0 to |tables|
      invariant ranked == Scored(tables[..i])
    {
      ScoredStep(tables, i);
      var c := ScoreTable(tables[i]);
      if c.score > 0.0 {
        ranked := ranked + [c];
      }
    }
    assert tables[..|tables|] == tables;
    ranked := Sort(ranked, RankOf);
  }

  /** The walk over the relations; each tries both directions and leaves at the first that adds a table. */
  method ExpandSelection(p: Params, ranked: seq<Candidate>, start: seq<Candidate>,
                         relations: seq<Relation>) returns (selected: seq<Candidate>)
    ensures selected == Expand(p, ranked, start, relations)
  {
    selected := start;
    for i := 0 to |relations|
      invariant Expand(p, ranked, selected, relations[i..]) == Expand(p, ranked, start, relations)
    {
      var relation := relations[i];
      ghost var before := selected;
      var directions := [(relation.fromTable, relation.toTable), (relation.toTable, relation.fromTable)];
      for d := 0 to 2
        invariant selected == before
        invariant d == 0 || !MayJoin(p, ranked, Names(before), relation.fromTable, relation.toTable)
        invariant d < 2 || !MayJoin(p, ranked, Names(before), relation.toTable, relation.fromTable)
      {
        var (origin, neighbor) := directions[d];
        var candidate := ByName(ranked, neighbor);
        if origin !in Names(selected) || neighbor in Names(selected) || candidate.None? {
          continue;
        }
        if p.joinIntent && Strong(p, TopScore(ranked), candidate.value) {
          selected := selected + [candidate.value.(reasons := candidate.value.reasons + {FkExpansion})];
          break;
        }
      }
      assert selected == ExpandOne(p, ranked, before, relation);
      assert relations[i..][1..] == relations[i + 1..];
      if |selected| >= p.Limit() {
        return;
      }
    }
  }

  /** Appends the required columns as weak ones; the sort that follows makes their order here irrelevant. */
  method AppendRequired(columns: seq<LinkedColumn>, required: set<string>) returns (all: seq<LinkedColumn>)
    ensures |all| == |columns| + |required|
    ensures forall x :: x in all <==> x in columns || (x == LinkedColumn(x.name, 0.01, RequiredJoinKey) && x.name in required)
  {
    all := columns;
    var done: set<string> := {};
    while done != required
      invariant done <= required && |all| == |columns| + |done|
      invariant forall x :: x in all <==> x in columns || (x == LinkedColumn(x.name, 0.01, RequiredJoinKey) && x.name in done)
      decreases |required - done|
    {
      assert required - done != {};
      var name :| name in required - done;
      assert required - (done + {name}) < required - done;
      SmallerDifference(required, done, name);
      all := all + [LinkedColumn(name, 0.01, RequiredJoinKey)];
      done := done + {name};
    }
  }

  lemma SmallerDifference(required: set<string>, done: set<string>, name: string)
    requires name in required - done
    ensures |required - (done + {name})| < |required - done|
  {
    assert required - done == (required - (done + {name})) + {name};
  }

  method CompleteColumns(c: Candidate, relations: seq<Relation>) returns (t: Candidate)
    ensures Completed(c, relations, t)
  {
    var columns := AppendRequired(c.columns, JoinColumns(relations, c.name) - ColumnNames(c.columns));
    var sorted := Sort(columns, ColumnRank);
    SortOrders(columns, ColumnRank);
    forall x ensures x in sorted <==> x in columns {
      SameElements(sorted, columns, x);
    }
    t := c.(columns := sorted);
  }

  method FilterRelations(names: set<string>, relations: seq<Relation>) returns (linked: seq<Relation>)
    ensures linked == Linked(names, relations)
  {
    linked := [];
    for i := 0 to |relations|
      invariant linked == Linked(names, relations[..i])
    {
      Snoc(relations, i);
      if relations[i].fromTable in names && relations[i].toTable in names {
        linked := linked + [relations[i]];
      }
    }
    assert relations[..|relations|] == relations;
  }

  method CompleteAll(selected: seq<Candidate>, relations: seq<Relation>) returns (tables: seq<Candidate>)
    ensures |tables| == |selected| && forall i :: 0 <= i < |selected| ==> Completed(selected[i], relations, tables[i])
  {
    tables := [];
    for i := 0 to |selected|
      invariant |tables| == i && forall j :: 0 <= j < i ==> Completed(selected[j], relations, tables[j])
    {
      var t := CompleteColumns(selected[i], relations);
      tables := tables + [t];
    }
  }

  method Link(p: Params, catalog: Catalog) returns (result: LinkResult)
    ensures IsLink(p, catalog, result)
  {
    var ranked := RankTables(catalog.tables);
    var selected := ExpandSelection(p, ranked, Selected(p, ranked), catalog.relations);
    if selected == [] && catalog.tables != [] {
      selected := [Candidate(0.0, catalog.tables[0].name, {Fallback}, [], 0.0)];
    }
    var relations := FilterRelations(Names(selected), catalog.relations);
    var tables := CompleteAll(Sort(selected, RankOf), relations);
    result := LinkResult(tables, relations);
  }
}
