/** Checking that every claim is backed by evidence that the store holds. */
module Grounding {
  import opened Sequences
  import opened Wrappers
  import opened EvidenceStore

  datatype ClaimType = Fact | CoOccurrence | Correlation | Hypothesis | Recommendation

  datatype Claim = Claim(
    text: string,
    evidenceIds: seq<string>,
    citationIds: seq<string>,
    confidence: real,
    claimType: ClaimType)

  datatype Code =
    | MissingEvidence
    | InvalidCitation
    | UnsupportedClaim
    | MissingCooccurrenceEvidence
    | MissingAssociationEvidence
    | HypothesisNotUncertain
    | UnsupportedRecommendation
    | UnsupportedNumericClaim
    | ContradictoryEvidence

  datatype Issue = Issue(code: Code, claimIndex: nat, detail: string)

  datatype Report = Report(valid: bool, issues: seq<Issue>)

  /** Whether a text states a quantity; the source matches it against a pattern. */
  type Quantitative = string -> bool

  function Backed(records: Records, id: string): Records {
    match Find(records, id)
    case Some(r) => [r]
    case None => []
  }

  /** The records that a claim names and the store holds, in the claim's order. */
  function Backing(records: Records, ids: seq<string>): Records {
    if ids == [] then []
    else Backed(records, ids[0]) + Backing(records, ids[1..])
  }

  predicate IsCitation(records: Records, citation: string) {
    exists r :: r in OfType(records, Document) && r.body.DocumentBody? && r.body.citationId == citation
  }

  predicate Measured(r: Record) {
    r.sourceType == Sql || r.sourceType == Api || r.sourceType == Computed
  }

  predicate Associated(r: Record) {
    r.sourceType == Computed || r.associationSupported
  }

  // ---------- What a grounded claim is ----------

  ghost predicate Named(records: Records, c: Claim) {
    && (forall id :: id in c.evidenceIds ==> Find(records, id).Some?)
    && (forall id :: id in c.citationIds ==> IsCitation(records, id))
  }

  ghost predicate Supported(records: Records, c: Claim, quantitative: Quantitative) {
    var backing := Backing(records, c.evidenceIds);
    match c.claimType
    case Fact => backing != [] && (quantitative(c.text) ==> exists r :: r in backing && r.sourceType in {Sql, Api, Computed})
    case CoOccurrence =>
      && |backing| >= 2
      && (exists r :: r in backing && r.sourceType == Sql)
      && (exists r :: r in backing && r.sourceType == Document)
    case Correlation => exists r :: r in backing && (r.sourceType == Computed || r.associationSupported)
    case Hypothesis => c.confidence < 1.0
    case Recommendation => backing != []
  }

  ghost predicate Consistent(records: Records, c: Claim) {
    forall r :: r in Backing(records, c.evidenceIds) ==> !r.contradictory
  }

  ghost predicate Grounded(records: Records, c: Claim, quantitative: Quantitative) {
    Named(records, c) && Supported(records, c, quantitative) && Consistent(records, c)
  }

  // ---------- Which issues a claim raises ----------

  /** The rules on the records that back a claim. */
  ghost predicate RuleBroken(backing: Records, c: Claim, quantitative: Quantitative, code: Code) {
    match code
    case MissingEvidence => false
    case InvalidCitation => false
    case UnsupportedClaim => c.claimType == Fact && backing == []
    case MissingCooccurrenceEvidence =>
      c.claimType == CoOccurrence &&
      (|backing| < 2
       || (forall r :: r in backing ==> r.sourceType != Sql)
       || (forall r :: r in backing ==> r.sourceType != Document))
    case MissingAssociationEvidence => c.claimType == Correlation && forall r :: r in backing ==> !Associated(r)
    case HypothesisNotUncertain => c.claimType == Hypothesis && c.confidence >= 1.0
    case UnsupportedRecommendation => c.claimType == Recommendation && backing == []
    case UnsupportedNumericClaim =>
      c.claimType == Fact && quantitative(c.text) && forall r :: r in backing ==> !Measured(r)
    case ContradictoryEvidence => exists r :: r in backing && r.contradictory
  }

  ghost predicate Raises(records: Records, c: Claim, quantitative: Quantitative, code: Code, detail: string) {
    match code
    case MissingEvidence => detail in c.evidenceIds && Find(records, detail).None?
    case InvalidCitation => detail in c.citationIds && !IsCitation(records, detail)
    case _ => detail == "" && RuleBroken(Backing(records, c.evidenceIds), c, quantitative, code)
  }

  /** A claim is grounded exactly when it raises nothing. */
  lemma GroundedRaisesNothing(records: Records, c: Claim, quantitative: Quantitative)
    ensures Grounded(records, c, quantitative) <==>
            forall code, detail :: !Raises(records, c, quantitative, code, detail)
  {
    var backing := Backing(records, c.evidenceIds);
    if forall code, detail :: !Raises(records, c, quantitative, code, detail) {
      forall id | id in c.evidenceIds ensures Find(records, id).Some? {
        assert !Raises(records, c, quantitative, MissingEvidence, id);
      }
      forall id | id in c.citationIds ensures IsCitation(records, id) {
        assert !Raises(records, c, quantitative, InvalidCitation, id);
      }
      assert !Raises(records, c, quantitative, UnsupportedClaim, "");
      assert !Raises(records, c, quantitative, UnsupportedNumericClaim, "");
      assert !Raises(records, c, quantitative, MissingCooccurrenceEvidence, "");
      assert !Raises(records, c, quantitative, MissingAssociationEvidence, "");
      assert !Raises(records, c, quantitative, HypothesisNotUncertain, "");
      assert !Raises(records, c, quantitative, UnsupportedRecommendation, "");
      assert !Raises(records, c, quantitative, ContradictoryEvidence, "");
    }
  }

  // ---------- The checker ----------

  method KnownCitations(store: EvidenceStore) returns (known: set<string>)
    ensures forall citation :: citation in known <==> IsCitation(store.records, citation)
  {
    known := {};
    var documents := store.ByType(Document);
    for i := 0 to |documents|
      invariant forall citation :: citation in known <==>
                                   exists r :: r in documents[..i] && r.body.DocumentBody? && r.body.citationId == citation
    {
      assert documents[..i + 1] == documents[..i] + [documents[i]];
      if documents[i].body.DocumentBody? {
        known := known + {documents[i].body.citationId};
      }
    }
    assert documents[..|documents|] == documents;
  }

  lemma {:induction false} BackingGrows(records: Records, ids: seq<string>, id: string)
    ensures Backing(records, ids + [id]) ==
            Backing(records, ids) + Backed(records, id)
  {
    if ids == [] {
      assert [id][1..] == [];
    } else {
      HeadTail(ids, [id]);
      BackingGrows(records, ids[1..], id);
      Rejoin(Backed(records, ids[0]), Backing(records, ids[1..]), Backed(records, id));
    }
  }

  method CollectRecords(store: EvidenceStore, c: Claim, index: nat) returns (backing: Records, issues: seq<Issue>)
    requires store.Valid()
    ensures backing == Backing(store.records, c.evidenceIds)
    ensures forall i :: i in issues <==>
                          i.claimIndex == index && i.code == MissingEvidence
                          && i.detail in c.evidenceIds && Find(store.records, i.detail).None?
  {
    backing, issues := [], [];
    for n := 0 to |c.evidenceIds|
      invariant backing == Backing(store.records, c.evidenceIds[..n])
      invariant forall i :: i in issues <==>
                              i.claimIndex == index && i.code == MissingEvidence
                              && i.detail in c.evidenceIds[..n] && Find(store.records, i.detail).None?
    {
      var id := c.evidenceIds[n];
      BackingGrows(store.records, c.evidenceIds[..n], id);
      assert c.evidenceIds[..n + 1] == c.evidenceIds[..n] + [id];
      var found := store.Get(id);
      if found.None? {
        issues := issues + [Issue(MissingEvidence, index, id)];
      } else {
        backing := backing + [found.value];
      }
    }
    assert c.evidenceIds[..|c.evidenceIds|] == c.evidenceIds;
  }

  method CheckCitations(known: set<string>, c: Claim, index: nat) returns (issues: seq<Issue>)
    ensures forall i :: i in issues <==>
                          i.claimIndex == index && i.code == InvalidCitation && i.detail in c.citationIds && i.detail !in known
  {
    issues := [];
    for n := 0 to |c.citationIds|
      invariant forall i :: i in issues <==>
                              && i.claimIndex == index && i.code == InvalidCitation
                              && i.detail in c.citationIds[..n] && i.detail !in known
    {
      assert c.citationIds[..n + 1] == c.citationIds[..n] + [c.citationIds[n]];
      if c.citationIds[n] !in known {
        issues := issues + [Issue(InvalidCitation, index, c.citationIds[n])];
      }
    }
    assert c.citationIds[..|c.citationIds|] == c.citationIds;
  }

  /** The rules of one claim, in the source's order, given the records that back it. */
  method CheckRules(backing: Records, c: Claim, index: nat, quantitative: Quantitative) returns (issues: seq<Issue>)
    ensures forall i :: i in issues <==> i.claimIndex == index && i.detail == "" && RuleBroken(backing, c, quantitative, i.code)
  {
    issues := [];
    if c.claimType == Fact && backing == [] {
      issues := issues + [Issue(UnsupportedClaim, index, "")];
    }
    if c.claimType == CoOccurrence {
      var sourceTypes := set r | r in backing :: r.sourceType;
      if |backing| < 2 || !({Sql, Document} <= sourceTypes) {
        issues := issues + [Issue(MissingCooccurrenceEvidence, index, "")];
      }
    }
    if c.claimType == Correlation && !exists r :: r in backing && Associated(r) {
      issues := issues + [Issue(MissingAssociationEvidence, index, "")];
    }
    if c.claimType == Hypothesis && c.confidence >= 1.0 {
      issues := issues + [Issue(HypothesisNotUncertain, index, "")];
    }
    if c.claimType == Recommendation && backing == [] {
      issues := issues + [Issue(UnsupportedRecommendation, index, "")];
    }
    if c.claimType == Fact && quantitative(c.text) && !exists r :: r in backing && Measured(r) {
      issues := issues + [Issue(UnsupportedNumericClaim, index, "")];
    }
    if exists r :: r in backing && r.contradictory {
      issues := issues + [Issue(ContradictoryEvidence, index, "")];
    }
  }

  /** The report lists exactly the issues that the claims raise, and is valid exactly if all claims are grounded. */
  method ValidateClaims(claims: seq<Claim>, store: EvidenceStore, quantitative: Quantitative) returns (report: Report)
    requires store.Valid()
    ensures forall i :: i in report.issues <==>
                          i.claimIndex < |claims| && Raises(store.records, claims[i.claimIndex], quantitative, i.code, i.detail)
    ensures report.valid <==> forall c :: c in claims ==> Grounded(store.records, c, quantitative)
  {
    var issues: seq<Issue> := [];
    var known := KnownCitations(store);
    for index := 0 to |claims|
      invariant forall i :: i in issues <==>
                              i.claimIndex < index && Raises(store.records, claims[i.claimIndex], quantitative, i.code, i.detail)
    {
      var c := claims[index];
      var backing, missing := CollectRecords(store, c, index);
      var invalid := CheckCitations(known, c, index);
      var broken := CheckRules(backing, c, index, quantitative);
      issues := issues + missing + invalid + broken;
    }
    report := Report(issues == [], issues);
    ValidExactlyIfGrounded(claims, store.records, quantitative, issues);
  }

  lemma ValidExactlyIfGrounded(claims: seq<Claim>, records: Records, quantitative: Quantitative, issues: seq<Issue>)
    requires forall i :: i in issues <==>
                           i.claimIndex < |claims| && Raises(records, claims[i.claimIndex], quantitative, i.code, i.detail)
    ensures issues == [] <==> forall c :: c in claims ==> Grounded(records, c, quantitative)
  {
    forall n | 0 <= n < |claims|
      ensures Grounded(records, claims[n], quantitative) <==> forall i :: i in issues ==> i.claimIndex != n
    {
      GroundedRaisesNothing(records, claims[n], quantitative);
      forall code, detail | Raises(records, claims[n], quantitative, code, detail)
        ensures Issue(code, n, detail) in issues
      {
      }
    }
    if issues != [] {
      assert issues[0] in issues;
      assert claims[issues[0].claimIndex] in claims;
    }
  }
}
