/** The per-request evidence store: a bounded dictionary in insertion order, bound to one tenant and store. */
module EvidenceStore {
  import opened Sequences
  import opened Wrappers

  datatype EvidenceType = Sql | Document | Api | Computed

  /** What the record's class adds to the common fields; a row is a list of rendered fields. */
  datatype Body =
    | SqlBody(rowCount: nat, rows: seq<seq<(string, string)>>)
    | DocumentBody(citationId: string, preview: string)
    | OtherBody

  datatype Record = Record(
    id: string,
    sourceType: EvidenceType,
    confidence: real,
    tenantId: string,
    storeId: string,
    contradictory: bool,
    associationSupported: bool,
    body: Body)

  /** A dictionary keyed by record id, as the list of its values in insertion order. */
  type Records = seq<Record>

  predicate UniqueIds(records: Records) {
    forall i, j :: 0 <= i < j < |records| ==> records[i].id != records[j].id
  }

  function Find(records: Records, id: string): (r: Option<Record>)
    ensures r.Some? ==> r.value in records && r.value.id == id
    ensures r.None? <==> forall x :: x in records ==> x.id != id
  {
    if records == [] then None else if records[0].id == id then Some(records[0]) else Find(records[1..], id)
  }

  /** Storing under a known id replaces in place, as a dictionary does; a new id goes last. */
  function Put(records: Records, r: Record): (s: Records)
    ensures |s| == |records| + if Find(records, r.id).Some? then 0 else 1
  {
    if records == [] then [r]
    else if records[0].id == r.id then [r] + records[1..]
    else [records[0]] + Put(records[1..], r)
  }

  lemma {:induction false} FindUnique(records: Records, x: Record)
    requires UniqueIds(records) && x in records
    ensures Find(records, x.id) == Some(x)
  {
    if records[0] != x {
      var i :| 0 <= i < |records| && records[i] == x;
      assert records[1..][i - 1] == x;
      FindUnique(records[1..], x);
    }
  }

  lemma {:induction false} PutHolds(records: Records, r: Record)
    requires UniqueIds(records)
    ensures forall x :: x in Put(records, r) <==> x == r || (x in records && x.id != r.id)
  {
    if records == [] {
    } else {
      var head, tail := records[0], records[1..];
      assert records == [head] + tail;
      assert forall x :: x in tail ==> x.id != head.id;
      PutHolds(tail, r);
    }
  }

  lemma {:induction false} PutAt(records: Records, r: Record, i: nat)
    requires UniqueIds(records) && i < |records| && records[i].id == r.id
    ensures Put(records, r) == records[i := r]
  {
    var head, tail := records[0], records[1..];
    if i == 0 {
      assert [r] + tail == records[0 := r];
    } else {
      PutAt(tail, r, i - 1);
      assert [head] + tail[i - 1 := r] == records[i := r];
    }
  }

  lemma {:induction false} PutLast(records: Records, r: Record)
    requires forall x :: x in records ==> x.id != r.id
    ensures Put(records, r) == records + [r]
  {
    if records == [] {
    } else {
      assert records[0] in records;
      PutLast(records[1..], r);
      assert [records[0]] + (records[1..] + [r]) == records + [r];
    }
  }

  /** A known id keeps its place; a new one goes last. */
  lemma PutPlaces(records: Records, r: Record)
    requires UniqueIds(records)
    ensures forall i :: 0 <= i < |records| && records[i].id == r.id ==> Put(records, r) == records[i := r]
    ensures (forall x :: x in records ==> x.id != r.id) ==> Put(records, r) == records + [r]
  {
    forall i | 0 <= i < |records| && records[i].id == r.id ensures Put(records, r) == records[i := r] {
      PutAt(records, r, i);
    }
    if forall x :: x in records ==> x.id != r.id {
      PutLast(records, r);
    }
  }

  /** A store answers the last record stored under an id, keeps all others, and keeps ids unique. */
  lemma {:induction false} PutThenFind(records: Records, r: Record, id: string)
    requires UniqueIds(records)
    ensures UniqueIds(Put(records, r))
    ensures Find(Put(records, r), id) == if id == r.id then Some(r) else Find(records, id)
  {
    if records == [] {
    } else {
      var head, tail := records[0], records[1..];
      if head.id == r.id {
        assert Put(records, r)[1..] == tail;
      } else {
        PutThenFind(tail, r, id);
        PutHolds(tail, r);
        assert Put(records, r)[1..] == Put(tail, r);
        assert forall x :: x in Put(tail, r) ==> x.id != head.id;
      }
    }
  }

  /** The records of one type, in the store's order. */
  function OfType(records: Records, t: EvidenceType): (s: Records)
    ensures forall x :: x in s <==> x in records && x.sourceType == t
  {
    if records == [] then []
    else (if records[0].sourceType == t then [records[0]] else []) + OfType(records[1..], t)
  }

  lemma {:induction false} OfTypeGrows(records: Records, r: Record, t: EvidenceType)
    ensures OfType(records + [r], t) == OfType(records, t) + if r.sourceType == t then [r] else []
  {
    if records == [] {
      assert [r][1..] == [];
    } else {
      HeadTail(records, [r]);
      OfTypeGrows(records[1..], r, t);
      Rejoin(if records[0].sourceType == t then [records[0]] else [], OfType(records[1..], t),
          if r.sourceType == t then [r] else []);
    }
  }

  datatype AddResult = CrossTenant | StoreFull | Added(record: Record)

  class EvidenceStore {
    const tenantId: string
    const storeId: string
    const maxRecords: nat
    var records: Records

    ghost predicate Valid()
      reads this
    {
      && 1 <= maxRecords && |records| <= maxRecords
      && UniqueIds(records)
      && forall r :: r in records ==> r.tenantId == tenantId && r.storeId == storeId
    }

    constructor (tenantId: string, storeId: string, maxRecords: int)
      ensures Valid() && records == []
      ensures this.tenantId == tenantId && this.storeId == storeId
      ensures this.maxRecords == if maxRecords < 1 then 1 else maxRecords
    {
      this.tenantId, this.storeId := tenantId, storeId;
      this.maxRecords := if maxRecords < 1 then 1 else maxRecords;
      records := [];
    }

    method Add(record: Record) returns (result: AddResult)
      requires Valid()
      modifies this
      ensures Valid()
      ensures result.CrossTenant? <==> record.tenantId != tenantId || record.storeId != storeId
      ensures result.StoreFull? <==>
              && !result.CrossTenant? && old(|records|) >= maxRecords
              && forall x :: x in old(records) ==> x.id != record.id
      ensures result.Added? ==> result.record == record && records == Put(old(records), record)
      ensures result.Added? ==>
                && (forall i :: 0 <= i < |old(records)| && old(records)[i].id == record.id ==>
                      records == old(records)[i := record])
                && ((forall x :: x in old(records) ==> x.id != record.id) ==> records == old(records) + [record])
      ensures !result.Added? ==> records == old(records)
    {
      if record.tenantId != tenantId || record.storeId != storeId {
        return CrossTenant;
      }
      if Find(records, record.id).None? && |records| >= maxRecords {
        return StoreFull;
      }
      PutThenFind(records, record, record.id);
      PutHolds(records, record);
      PutPlaces(records, record);
      records := Put(records, record);
      return Added(record);
    }

    method Get(id: string) returns (r: Option<Record>)
      requires Valid()
      ensures r.Some? ==> r.value in records && r.value.id == id
      ensures r.None? ==> forall x :: x in records ==> x.id != id
    {
      r := Find(records, id);
    }

    method ByType(t: EvidenceType) returns (found: Records)
      ensures found == OfType(records, t)
    {
      found := [];
      for i := 0 to |records|
        invariant found == OfType(records[..i], t)
      {
        OfTypeGrows(records[..i], records[i], t);
        assert records[..i + 1] == records[..i] + [records[i]];
        if records[i].sourceType == t {
          found := found + [records[i]];
        }
      }
      assert records[..|records|] == records;
    }
  }
}
