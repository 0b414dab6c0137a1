/** Building claims from the store's records, and when the grounding check accepts them. */
module EvidenceSynthesis {
  import opened Sequences
  import opened Wrappers
  import opened EvidenceStore
  import opened Grounding

  const DOCUMENT_LIMIT := 5
  const PREVIEW_LIMIT := 220
  const FIELD_LIMIT := 8
  const CO_OCCURRENCE_CONFIDENCE := 0.75

  /** The caveat that goes with each combination of evidence. */
  datatype Uncertainty = OnlyCoOccurrence | NoDocuments | NoMetrics

  datatype AnalysisResult = AnalysisResult(
    claims: seq<Claim>,
    uncertainties: seq<Uncertainty>,
    citations: seq<string>,
    suggestsDrillDown: bool,
    grounding: Report)

  function Take<T>(s: seq<T>, n: nat): (t: seq<T>)
    ensures t <= s && |t| == if |s| <= n then |s| else n
  {
    if |s| <= n then s else s[..n]
  }

  function SqlRecords(records: Records): (s: Records)
    ensures forall r :: r in s <==> r in records && r.sourceType == Sql && r.body.SqlBody?
  {
    Filter(OfType(records, Sql), (r: Record) => r.body.SqlBody?)
  }

  function DocumentRecords(records: Records): (s: Records)
    ensures forall r :: r in s <==> r in records && r.sourceType == Document && r.body.DocumentBody?
  {
    Filter(OfType(records, Document), (r: Record) => r.body.DocumentBody?)
  }

  function Filter(records: Records, p: Record -> bool): (s: Records)
    ensures forall r :: r in s <==> r in records && p(r)
  {
    if records == [] then [] else (if p(records[0]) then [records[0]] else []) + Filter(records[1..], p)
  }

  /** Filtering keeps the order: it goes through the records one by one. */
  lemma {:induction false} FilterGrows(records: Records, r: Record, p: Record -> bool)
    ensures Filter(records + [r], p) == Filter(records, p) + if p(r) then [r] else []
    ensures Filter([], p) == []
  {
    if records == [] {
      assert [r][1..] == [];
    } else {
      HeadTail(records, [r]);
      FilterGrows(records[1..], r, p);
      Rejoin(if p(records[0]) then [records[0]] else [], Filter(records[1..], p), if p(r) then [r] else []);
    }
  }

  /** The records of one type and class, in the store's order, read off the store. */
  predicate Picks(records: Records, picked: Records, wanted: Record -> bool)
  {
    if records == [] then picked == []
    else
      var init, last := records[..|records| - 1], records[|records| - 1];
      if wanted(last) then picked != [] && picked[|picked| - 1] == last && Picks(init, picked[..|picked| - 1], wanted)
      else Picks(init, picked, wanted)
  }

  lemma PicksGrows(records: Records, picked: Records, r: Record, wanted: Record -> bool)
    requires Picks(records, picked, wanted)
    ensures Picks(records + [r], picked + (if wanted(r) then [r] else []), wanted)
  {
    var all, more := records + [r], picked + [r];
    assert all[..|records|] == records && more[..|picked|] == picked && picked + [] == picked;
  }

  lemma SelectionGrows(records: Records, r: Record, t: EvidenceType, p: Record -> bool)
    ensures Filter(OfType(records + [r], t), p) ==
            Filter(OfType(records, t), p) + if r.sourceType == t && p(r) then [r] else []
  {
    OfTypeGrows(records, r, t);
    if r.sourceType == t {
      FilterGrows(OfType(records, t), r, p);
    } else {
      assert OfType(records, t) + [] == OfType(records, t);
      assert Filter(OfType(records, t), p) + [] == Filter(OfType(records, t), p);
    }
  }

  lemma {:induction false} FilterPicks(records: Records, t: EvidenceType, p: Record -> bool)
    ensures Picks(records, Filter(OfType(records, t), p), (r: Record) => r.sourceType == t && p(r))
  {
    if records == [] {
    } else {
      var init, last := records[..|records| - 1], records[|records| - 1];
      assert records == init + [last];
      FilterPicks(init, t, p);
      SelectionGrows(init, last, t, p);
      PicksGrows(init, Filter(OfType(init, t), p), last, (r: Record) => r.sourceType == t && p(r));
    }
  }

  /** The SQL records and the first five document records, each in the store's order. */
  lemma SelectionsKeepOrder(records: Records)
    ensures Picks(records, SqlRecords(records), (r: Record) => r.sourceType == Sql && r.body.SqlBody?)
    ensures Picks(records, DocumentRecords(records), (r: Record) => r.sourceType == Document && r.body.DocumentBody?)
    ensures var all := DocumentRecords(records); Cited(records) == if |all| <= 5 then all else all[..5]
  {
    FilterPicks(records, Sql, (r: Record) => r.body.SqlBody?);
    FilterPicks(records, Document, (r: Record) => r.body.DocumentBody?);
    SamePicks(records, SqlRecords(records), (r: Record) => r.sourceType == Sql && ((x: Record) => x.body.SqlBody?)(r),
              (r: Record) => r.sourceType == Sql && r.body.SqlBody?);
    SamePicks(records, DocumentRecords(records),
              (r: Record) => r.sourceType == Document && ((x: Record) => x.body.DocumentBody?)(r),
              (r: Record) => r.sourceType == Document && r.body.DocumentBody?);
  }

  lemma {:induction false} SamePicks(records: Records, picked: Records, p: Record -> bool, q: Record -> bool)
    requires Picks(records, picked, p) && forall r :: p(r) <==> q(r)
    ensures Picks(records, picked, q)
  {
    if records == [] {
    } else {
      var init, last := records[..|records| - 1], records[|records| - 1];
      SamePicks(init, if p(last) then picked[..|picked| - 1] else picked, p, q);
    }
  }

  // ---------- Claims ----------

  function Digits(n: nat): string {
    if n < 10 then ["0123456789"[n]] else Digits(n / 10) + ["0123456789"[n % 10]]
  }

  function JoinFields(fields: seq<(string, string)>): string {
    if fields == [] then ""
    else if |fields| == 1 then fields[0].0 + "=" + fields[0].1
    else fields[0].0 + "=" + fields[0].1 + "、" + JoinFields(fields[1..])
  }

  function SqlText(rowCount: nat, rows: seq<seq<(string, string)>>): string {
    var detail := JoinFields(Take(if rows != [] then rows[0] else [], FIELD_LIMIT));
    "数据库查询返回 " + Digits(rowCount) + " 行" + (if detail != "" then "：" + detail else "") + "。"
  }

  function DocumentText(preview: string): string {
    "内部文档提到：" + Take(preview, PREVIEW_LIMIT)
  }

  const CO_OCCURRENCE_TEXT := "结构化指标变化与文档记录出现在同一业务分析上下文中，但尚未建立定量关联或因果关系。"

  function SqlClaim(r: Record): Claim
    requires r.body.SqlBody?
  {
    Claim(SqlText(r.body.rowCount, r.body.rows), [r.id], [], r.confidence, Fact)
  }

  function DocumentClaim(r: Record): Claim
    requires r.body.DocumentBody?
  {
    Claim(DocumentText(r.body.preview), [r.id], [r.body.citationId], r.confidence, Fact)
  }

  function Least(a: real, b: real): real {
    if a < b then a else b
  }

  function CoOccurrenceClaim(s: Record, d: Record): Claim
    requires d.body.DocumentBody?
  {
    Claim(CO_OCCURRENCE_TEXT, [s.id, d.id], [d.body.citationId],
          Least(Least(s.confidence, d.confidence), CO_OCCURRENCE_CONFIDENCE), CoOccurrence)
  }

  predicate AreSql(sql: Records) {
    forall r :: r in sql ==> r.body.SqlBody?
  }

  predicate AreDocuments(documents: Records) {
    forall r :: r in documents ==> r.body.DocumentBody?
  }

  /** One claim per SQL record, one per document, and the co-occurrence if there are both. */
  ghost predicate Claims(sql: Records, documents: Records, claims: seq<Claim>)
    requires AreSql(sql) && AreDocuments(documents)
  {
    && |claims| == |sql| + |documents| + (if sql != [] && documents != [] then 1 else 0)
    && (forall i :: 0 <= i < |sql| ==> claims[i] == SqlClaim(sql[i]))
    && (forall i :: 0 <= i < |documents| ==> claims[|sql| + i] == DocumentClaim(documents[i]))
    && (sql != [] && documents != [] ==> claims[|sql| + |documents|] == CoOccurrenceClaim(sql[0], documents[0]))
  }

  function Cited(records: Records): (documents: Records)
    ensures AreDocuments(documents)
    ensures documents <= DocumentRecords(records)
    ensures forall r :: r in documents ==> r in DocumentRecords(records)
    ensures documents == [] <==> DocumentRecords(records) == []
  {
    Take(DocumentRecords(records), DOCUMENT_LIMIT)
  }

  // ---------- What the claims say ----------

  /** The number that a string of decimal digits denotes. */
  function ValueOf(s: string): nat {
    if s == "" then 0 else 10 * ValueOf(s[..|s| - 1]) + Numeral(s[|s| - 1])
  }

  function Numeral(c: char): nat {
    if '0' <= c <= '9' then c as nat - '0' as nat else 0
  }

  /** Digits are decimal, without leading zeros. */
  lemma {:induction false} DigitsDenote(n: nat)
    ensures forall c :: c in Digits(n) ==> '0' <= c <= '9'
    ensures ValueOf(Digits(n)) == n && Digits(n) != "" && (n > 0 ==> Digits(n)[0] != '0')
  {
    var last := "0123456789"[n % 10];
    assert last as int == '0' as int + n % 10;
    if n < 10 {
      assert [last][..0] == "";
    } else {
      DigitsDenote(n / 10);
      assert (Digits(n / 10) + [last])[..|Digits(n / 10)|] == Digits(n / 10);
    }
  }

  /** A row's fields are listed as name=value, with an enumeration comma between any two. */
  lemma {:induction false} FieldsAreListed(fields: seq<(string, string)>, f: (string, string))
    ensures JoinFields(fields + [f]) == JoinFields(fields) + (if fields == [] then "" else "、") + f.0 + "=" + f.1
    ensures JoinFields([]) == ""
  {
    if fields == [] {
      assert [] + [f] == [f];
    } else if |fields| == 1 {
      assert (fields + [f])[1..] == [f];
    } else {
      HeadTail(fields, [f]);
      FieldsAreListed(fields[1..], f);
    }
  }

  lemma FieldsAreBlank(fields: seq<(string, string)>)
    ensures JoinFields(fields) == "" <==> fields == []
  {
  }

  /** The fact of a query result: its row count and up to eight fields of its first row. */
  predicate StatesRows(c: Claim, r: Record)
    requires r.body.SqlBody?
  {
    var fields := if r.body.rows == [] then [] else r.body.rows[0];
    var shown := if |fields| > 8 then fields[..8] else fields;
    && c.evidenceIds == [r.id] && c.citationIds == [] && c.confidence == r.confidence && c.claimType == Fact
    && c.text == "数据库查询返回 " + Digits(r.body.rowCount) + " 行"
                 + (if shown == [] then "" else "：" + JoinFields(shown)) + "。"
  }

  /** The fact of a document: up to 220 characters of its preview, with its citation. */
  predicate StatesDocument(c: Claim, r: Record)
    requires r.body.DocumentBody?
  {
    var preview := r.body.preview;
    && c.evidenceIds == [r.id] && c.citationIds == [r.body.citationId]
    && c.confidence == r.confidence && c.claimType == Fact
    && c.text == "内部文档提到：" + if |preview| > 220 then preview[..220] else preview
  }

  /** Both kinds of evidence: a co-occurrence, at most as sure as either and never surer than three quarters. */
  predicate StatesBoth(c: Claim, s: Record, d: Record)
    requires d.body.DocumentBody?
  {
    && c.evidenceIds == [s.id, d.id] && c.citationIds == [d.body.citationId] && c.claimType == CoOccurrence
    && c.confidence <= s.confidence && c.confidence <= d.confidence && c.confidence <= 0.75
    && (c.confidence == s.confidence || c.confidence == d.confidence || c.confidence == 0.75)
  }

  lemma ClaimContents(sql: Records, documents: Records, claims: seq<Claim>)
    requires AreSql(sql) && AreDocuments(documents) && Claims(sql, documents, claims)
    ensures |claims| == |sql| + |documents| + if sql != [] && documents != [] then 1 else 0
    ensures forall i :: 0 <= i < |sql| ==> StatesRows(claims[i], sql[i])
    ensures forall i :: 0 <= i < |documents| ==> StatesDocument(claims[|sql| + i], documents[i])
    ensures sql != [] && documents != [] ==> StatesBoth(claims[|sql| + |documents|], sql[0], documents[0])
  {
    forall i | 0 <= i < |sql| ensures StatesRows(claims[i], sql[i]) {
      RowsAreStated(sql[i]);
    }
    forall i | 0 <= i < |documents| ensures StatesDocument(claims[|sql| + i], documents[i]) {
      assert claims[|sql| + i] == DocumentClaim(documents[i]);
    }
  }

  lemma RowsAreStated(r: Record)
    requires r.body.SqlBody?
    ensures StatesRows(SqlClaim(r), r)
  {
    FieldsAreBlank(Take(if r.body.rows != [] then r.body.rows[0] else [], FIELD_LIMIT));
  }

  /** What holds of all claims, in terms of the records. */
  lemma AllClaims(sql: Records, documents: Records, claims: seq<Claim>, p: Claim -> bool)
    requires AreSql(sql) && AreDocuments(documents) && Claims(sql, documents, claims)
    ensures (forall c :: c in claims ==> p(c)) <==>
            && (forall r :: r in sql ==> p(SqlClaim(r)))
            && (forall d :: d in documents ==> p(DocumentClaim(d)))
            && (sql != [] && documents != [] ==> p(CoOccurrenceClaim(sql[0], documents[0])))
  {
    if forall c :: c in claims ==> p(c) {
      forall r | r in sql ensures p(SqlClaim(r)) {
        var i :| 0 <= i < |sql| && sql[i] == r;
        assert claims[i] in claims;
      }
      forall d | d in documents ensures p(DocumentClaim(d)) {
        var i :| 0 <= i < |documents| && documents[i] == d;
        assert claims[|sql| + i] in claims;
      }
      if sql != [] && documents != [] {
        assert claims[|sql| + |documents|] in claims;
      }
    } else {
      var i :| 0 <= i < |claims| && !p(claims[i]);
      if i < |sql| {
        assert sql[i] in sql;
      } else if i < |sql| + |documents| {
        assert claims[|sql| + (i - |sql|)] == DocumentClaim(documents[i - |sql|]);
        assert documents[i - |sql|] in documents;
      }
    }
  }

  // ---------- When the claims are grounded ----------

  lemma BackedBy(records: Records, r: Record)
    requires UniqueIds(records) && r in records
    ensures Backing(records, [r.id]) == [r]
  {
    FindUnique(records, r);
    assert [r.id][1..] == [];
  }

  lemma BackedByTwo(records: Records, r: Record, s: Record)
    requires UniqueIds(records) && r in records && s in records
    ensures Backing(records, [r.id, s.id]) == [r, s]
  {
    FindUnique(records, r);
    BackedBy(records, s);
    assert [r.id, s.id][1..] == [s.id];
  }

  lemma SqlClaimGrounded(records: Records, r: Record, quantitative: Quantitative)
    requires UniqueIds(records) && r in SqlRecords(records)
    ensures Grounded(records, SqlClaim(r), quantitative) <==> !r.contradictory
  {
    BackedBy(records, r);
    FindUnique(records, r);
    FactOfOne(records, SqlClaim(r), r, quantitative);
  }

  lemma DocumentClaimGrounded(records: Records, r: Record, quantitative: Quantitative)
    requires UniqueIds(records) && r in DocumentRecords(records)
    ensures Grounded(records, DocumentClaim(r), quantitative) <==>
            !r.contradictory && !quantitative(DocumentText(r.body.preview))
  {
    DocumentIsNamed(records, r, DocumentClaim(r));
    FactOfOne(records, DocumentClaim(r), r, quantitative);
  }

  lemma DocumentIsNamed(records: Records, r: Record, c: Claim)
    requires UniqueIds(records) && r in DocumentRecords(records)
    requires c.evidenceIds == [r.id] && c.citationIds == [r.body.citationId]
    ensures Named(records, c) && Backing(records, c.evidenceIds) == [r]
  {
    BackedBy(records, r);
    FindUnique(records, r);
    assert r in OfType(records, Document);
    assert IsCitation(records, r.body.citationId);
  }

  lemma FactOfOne(records: Records, c: Claim, r: Record, quantitative: Quantitative)
    requires c.claimType == Fact && Named(records, c) && Backing(records, c.evidenceIds) == [r]
    ensures Grounded(records, c, quantitative) <==> !r.contradictory && (quantitative(c.text) ==> Measured(r))
  {
    assert r in [r];
  }

  lemma CoOccurrenceClaimGrounded(records: Records, s: Record, d: Record, quantitative: Quantitative)
    requires UniqueIds(records) && s in SqlRecords(records) && d in DocumentRecords(records)
    ensures Grounded(records, CoOccurrenceClaim(s, d), quantitative) <==> !s.contradictory && !d.contradictory
  {
    PairIsNamed(records, s, d, CoOccurrenceClaim(s, d));
    PairIssues(records, s, d, CoOccurrenceClaim(s, d), quantitative);
  }

  lemma PairIsNamed(records: Records, s: Record, d: Record, c: Claim)
    requires UniqueIds(records) && s in records && d in DocumentRecords(records)
    requires c.evidenceIds == [s.id, d.id] && c.citationIds == [d.body.citationId]
    ensures Named(records, c) && Backing(records, c.evidenceIds) == [s, d]
  {
    BackedByTwo(records, s, d);
    FindUnique(records, s);
    FindUnique(records, d);
    assert d in OfType(records, Document);
    assert IsCitation(records, d.body.citationId);
  }

  lemma PairIsSupported(s: Record, d: Record)
    requires s.sourceType == Sql && d.sourceType == Document
    ensures exists r :: r in [s, d] && r.sourceType == Sql
    ensures exists r :: r in [s, d] && r.sourceType == Document
    ensures (forall r :: r in [s, d] ==> !r.contradictory) <==> !s.contradictory && !d.contradictory
  {
    assert s in [s, d] && d in [s, d];
  }

  lemma SqlClaimsGrounded(records: Records, quantitative: Quantitative)
    requires UniqueIds(records)
    ensures (forall r :: r in SqlRecords(records) ==> Grounded(records, SqlClaim(r), quantitative)) <==>
            forall r :: r in SqlRecords(records) ==> !r.contradictory
  {
    forall r | r in SqlRecords(records) ensures Grounded(records, SqlClaim(r), quantitative) <==> !r.contradictory {
      SqlClaimGrounded(records, r, quantitative);
    }
  }

  predicate CleanDocument(d: Record, quantitative: Quantitative)
    requires d.body.DocumentBody?
  {
    !d.contradictory && !quantitative(DocumentText(d.body.preview))
  }

  lemma DocumentClaimsGrounded(records: Records, quantitative: Quantitative)
    requires UniqueIds(records)
    ensures (forall d :: d in Cited(records) ==> Grounded(records, DocumentClaim(d), quantitative)) <==>
            forall d :: d in Cited(records) ==> CleanDocument(d, quantitative)
  {
    forall d | d in Cited(records)
      ensures Grounded(records, DocumentClaim(d), quantitative) <==> CleanDocument(d, quantitative)
    {
      DocumentClaimGrounded(records, d, quantitative);
    }
  }

  /** The condition under which synthesis passes its own check. */
  ghost predicate CleanEvidence(records: Records, quantitative: Quantitative) {
    && (forall r :: r in SqlRecords(records) ==> !r.contradictory)
    && forall d :: d in Cited(records) ==> CleanDocument(d, quantitative)
  }

  /** All claims are grounded exactly when no record used is contradictory and no document text states a quantity. */
  lemma GroundedExactlyIfClean(records: Records, claims: seq<Claim>, quantitative: Quantitative)
    requires UniqueIds(records) && Claims(SqlRecords(records), Cited(records), claims)
    ensures (forall c :: c in claims ==> Grounded(records, c, quantitative)) <==> CleanEvidence(records, quantitative)
  {
    var sql, documents := SqlRecords(records), Cited(records);
    AllClaims(sql, documents, claims, c => Grounded(records, c, quantitative));
    SqlClaimsGrounded(records, quantitative);
    DocumentClaimsGrounded(records, quantitative);
    if sql != [] && documents != [] {
      assert sql[0] in sql && documents[0] in documents;
      CoOccurrenceClaimGrounded(records, sql[0], documents[0], quantitative);
    }
  }

  ghost predicate OnlyNumericOrContradictory(records: Records, c: Claim, quantitative: Quantitative) {
    forall code, detail :: Raises(records, c, quantitative, code, detail) ==>
                             code == UnsupportedNumericClaim || code == ContradictoryEvidence
  }

  lemma SqlClaimIssues(records: Records, r: Record, quantitative: Quantitative)
    requires UniqueIds(records) && r in SqlRecords(records)
    ensures OnlyNumericOrContradictory(records, SqlClaim(r), quantitative)
  {
    BackedBy(records, r);
    FindUnique(records, r);
  }

  lemma DocumentClaimIssues(records: Records, r: Record, quantitative: Quantitative)
    requires UniqueIds(records) && r in DocumentRecords(records)
    ensures OnlyNumericOrContradictory(records, DocumentClaim(r), quantitative)
  {
    DocumentIsNamed(records, r, DocumentClaim(r));
  }

  lemma CoOccurrenceClaimIssues(records: Records, s: Record, d: Record, quantitative: Quantitative)
    requires UniqueIds(records) && s in SqlRecords(records) && d in DocumentRecords(records)
    ensures OnlyNumericOrContradictory(records, CoOccurrenceClaim(s, d), quantitative)
  {
    PairIsNamed(records, s, d, CoOccurrenceClaim(s, d));
    PairIssues(records, s, d, CoOccurrenceClaim(s, d), quantitative);
  }

  lemma PairIssues(records: Records, s: Record, d: Record, c: Claim, quantitative: Quantitative)
    requires c.claimType == CoOccurrence && Named(records, c) && Backing(records, c.evidenceIds) == [s, d]
    requires s.sourceType == Sql && d.sourceType == Document
    ensures OnlyNumericOrContradictory(records, c, quantitative)
    ensures Grounded(records, c, quantitative) <==> !s.contradictory && !d.contradictory
  {
    PairIsSupported(s, d);
  }

  /** Whatever the evidence, no claim lacks evidence or a citation: only two issues are possible. */
  lemma OnlyTwoIssues(records: Records, claims: seq<Claim>, quantitative: Quantitative)
    requires UniqueIds(records) && Claims(SqlRecords(records), Cited(records), claims)
    ensures forall c :: c in claims ==> OnlyNumericOrContradictory(records, c, quantitative)
  {
    var sql, documents := SqlRecords(records), Cited(records);
    AllClaims(sql, documents, claims, c => OnlyNumericOrContradictory(records, c, quantitative));
    forall r | r in sql ensures OnlyNumericOrContradictory(records, SqlClaim(r), quantitative) {
      SqlClaimIssues(records, r, quantitative);
    }
    forall r | r in documents ensures OnlyNumericOrContradictory(records, DocumentClaim(r), quantitative) {
      DocumentClaimIssues(records, r, quantitative);
    }
    if sql != [] && documents != [] {
      assert sql[0] in sql && documents[0] in documents;
      CoOccurrenceClaimIssues(records, sql[0], documents[0], quantitative);
    }
  }

  // ---------- The operation ----------

  /** `distinct` lists the elements of `all` once each, in the order of their first occurrence. */
  function Distinct(all: seq<string>): (distinct: seq<string>)
    ensures forall x :: x in distinct <==> x in all
    ensures forall i, j :: 0 <= i < j < |distinct| ==> distinct[i] != distinct[j]
  {
    if all == [] then [] else
    var init, last := Distinct(all[..|all| - 1]), all[|all| - 1];
    assert all == all[..|all| - 1] + [last];
    if last in init then init else init + [last]
  }

  /** A citation is listed where it first occurs. */
  lemma DistinctGrows(all: seq<string>, x: string)
    ensures Distinct(all + [x]) == Distinct(all) + if x in all then [] else [x]
    ensures Distinct([]) == []
  {
    assert (all + [x])[..|all|] == all;
  }

  method SelectSql(store: EvidenceStore) returns (found: Records)
    ensures found == SqlRecords(store.records)
  {
    var records := store.ByType(Sql);
    found := Filter(records, (r: Record) => r.body.SqlBody?);
  }

  method SelectDocuments(store: EvidenceStore) returns (found: Records)
    ensures found == DocumentRecords(store.records)
  {
    var records := store.ByType(Document);
    found := Filter(records, (r: Record) => r.body.DocumentBody?);
  }

  method MakeSqlClaims(sql: Records) returns (claims: seq<Claim>)
    requires AreSql(sql)
    ensures |claims| == |sql| && forall i :: 0 <= i < |sql| ==> claims[i] == SqlClaim(sql[i])
  {
    claims := [];
    for i := 0 to |sql|
      invariant |claims| == i && forall j :: 0 <= j < i ==> claims[j] == SqlClaim(sql[j])
    {
      assert sql[i] in sql;
      claims := claims + [SqlClaim(sql[i])];
    }
  }

  method MakeDocumentClaims(documents: Records) returns (claims: seq<Claim>, citations: seq<string>)
    requires AreDocuments(documents)
    ensures |claims| == |documents| && forall i :: 0 <= i < |documents| ==> claims[i] == DocumentClaim(documents[i])
    ensures |citations| == |documents| && forall i :: 0 <= i < |documents| ==> citations[i] == documents[i].body.citationId
  {
    claims, citations := [], [];
    for i := 0 to |documents|
      invariant |claims| == i && forall j :: 0 <= j < i ==> claims[j] == DocumentClaim(documents[j])
      invariant |citations| == i && forall j :: 0 <= j < i ==> citations[j] == documents[j].body.citationId
    {
      assert documents[i] in documents;
      citations := citations + [documents[i].body.citationId];
      claims := claims + [DocumentClaim(documents[i])];
    }
  }

  method MakeClaims(sql: Records, documents: Records)
    returns (claims: seq<Claim>, citations: seq<string>, uncertainties: seq<Uncertainty>)
    requires AreSql(sql) && AreDocuments(documents)
    ensures Claims(sql, documents, claims)
    ensures |citations| == |documents| && forall i :: 0 <= i < |documents| ==> citations[i] == documents[i].body.citationId
    ensures uncertainties ==
            if sql != [] then if documents != [] then [OnlyCoOccurrence] else [NoDocuments]
            else if documents != [] then [NoMetrics] else []
  {
    claims := MakeSqlClaims(sql);
    var more;
    more, citations := MakeDocumentClaims(documents);
    claims := claims + more;
    uncertainties := [];
    if sql != [] && documents != [] {
      assert sql[0] in sql && documents[0] in documents;
      claims := claims + [CoOccurrenceClaim(sql[0], documents[0])];
      uncertainties := [OnlyCoOccurrence];
    } else if sql != [] {
      uncertainties := [NoDocuments];
    } else if documents != [] {
      uncertainties := [NoMetrics];
    }
  }

  method Synthesize(store: EvidenceStore, quantitative: Quantitative) returns (result: AnalysisResult)
    requires store.Valid()
    ensures Claims(SqlRecords(store.records), Cited(store.records), result.claims)
    ensures result.grounding.valid <==> CleanEvidence(store.records, quantitative)
    ensures forall id :: id in result.citations <==> exists r :: r in Cited(store.records) && r.body.citationId == id
    ensures forall i, j :: 0 <= i < j < |result.citations| ==> result.citations[i] != result.citations[j]
    ensures result.uncertainties ==
            if SqlRecords(store.records) != [] then
              if DocumentRecords(store.records) != [] then [OnlyCoOccurrence] else [NoDocuments]
            else if DocumentRecords(store.records) != [] then [NoMetrics] else []
    ensures result.suggestsDrillDown <==> SqlRecords(store.records) != []
  {
    var sql := SelectSql(store);
    var documents := SelectDocuments(store);
    var cited := Take(documents, DOCUMENT_LIMIT);
    assert cited == Cited(store.records);
    var claims, citations, uncertainties := MakeClaims(sql, cited);
    var report := ValidateClaims(claims, store, quantitative);
    GroundedExactlyIfClean(store.records, claims, quantitative);
    result := AnalysisResult(claims, uncertainties, Distinct(citations), sql != [], report);
  }
}
