/** Stable sorting by descending score, equal scores by name: the sort key `(-score, name)`. */
module RankedOrder {
  import opened Sequences

  /** Lexicographic order of strings. */
  predicate NameLeq(a: string, b: string) {
    a == "" || (b != "" && (a[0] < b[0] || (a[0] == b[0] && NameLeq(a[1..], b[1..]))))
  }

  lemma {:induction false} NameTotal(a: string, b: string)
    ensures NameLeq(a, b) || NameLeq(b, a)
  {
    if a != "" && b != "" {
      NameTotal(a[1..], b[1..]);
    }
  }

  lemma {:induction false} NameTransitive(a: string, b: string, c: string)
    requires NameLeq(a, b) && NameLeq(b, c)
    ensures NameLeq(a, c)
  {
    if a != "" && b[0] == a[0] && c[0] == b[0] {
      NameTransitive(a[1..], b[1..], c[1..]);
    }
  }

  /** The sort key. */
  datatype Rank = Rank(score: real, name: string)

  predicate RankLeq(a: Rank, b: Rank) {
    a.score > b.score || (a.score == b.score && NameLeq(a.name, b.name))
  }

  lemma RankTotal(a: Rank, b: Rank)
    ensures RankLeq(a, b) || RankLeq(b, a)
  {
    NameTotal(a.name, b.name);
  }

  lemma RankTransitive(a: Rank, b: Rank, c: Rank)
    requires RankLeq(a, b) && RankLeq(b, c)
    ensures RankLeq(a, c)
  {
    if a.score == b.score == c.score {
      NameTransitive(a.name, b.name, c.name);
    }
  }

  predicate Ordered<T>(s: seq<T>, rank: T -> Rank) {
    forall i, j :: 0 <= i < j < |s| ==> RankLeq(rank(s[i]), rank(s[j]))
  }

  /** Behind everything that ranks at least as high. */
  function Insert<T(==)>(s: seq<T>, x: T, rank: T -> Rank): (r: seq<T>)
    ensures multiset(r) == multiset(s) + multiset{x}
    ensures |r| == |s| + 1
  {
    if s == [] then [x]
    else
      assert s == [s[0]] + s[1..];
      if RankLeq(rank(s[0]), rank(x)) then [s[0]] + Insert(s[1..], x, rank) else [x] + s
  }

  function Sort<T(==)>(s: seq<T>, rank: T -> Rank): (r: seq<T>)
    ensures multiset(r) == multiset(s)
    ensures |r| == |s|
  {
    if s == [] then []
    else
      assert s == s[..|s| - 1] + [s[|s| - 1]];
      Insert(Sort(s[..|s| - 1], rank), s[|s| - 1], rank)
  }

  lemma SameElements<T>(s: seq<T>, t: seq<T>, x: T)
    requires multiset(s) == multiset(t)
    ensures x in s <==> x in t
  {
    assert x in s <==> x in multiset(s);
    assert x in t <==> x in multiset(t);
  }

  lemma OrderedInFront<T>(x: T, s: seq<T>, rank: T -> Rank)
    requires Ordered(s, rank) && forall i :: 0 <= i < |s| ==> RankLeq(rank(x), rank(s[i]))
    ensures Ordered([x] + s, rank)
  {
    var r := [x] + s;
    forall i, j | 0 <= i < j < |r| ensures RankLeq(rank(r[i]), rank(r[j])) {
      assert r[j] == s[j - 1];
      assert i > 0 ==> r[i] == s[i - 1];
    }
  }

  lemma {:induction false} InsertOrders<T>(s: seq<T>, x: T, rank: T -> Rank)
    requires Ordered(s, rank)
    ensures Ordered(Insert(s, x, rank), rank)
  {
    if s == [] {
    } else {
      var head, tail := s[0], s[1..];
      assert Ordered(tail, rank);
      if RankLeq(rank(head), rank(x)) {
        InsertOrders(tail, x, rank);
        var r := Insert(tail, x, rank);
        forall i | 0 <= i < |r| ensures RankLeq(rank(head), rank(r[i])) {
          assert r[i] in multiset(r);
          if r[i] != x {
            assert r[i] in multiset(tail);
            var j :| 0 <= j < |tail| && tail[j] == r[i];
            assert s[j + 1] == tail[j];
          }
        }
        OrderedInFront(head, r, rank);
      } else {
        RankTotal(rank(head), rank(x));
        forall i | 0 <= i < |s| ensures RankLeq(rank(x), rank(s[i])) {
          if i > 0 {
            RankTransitive(rank(x), rank(head), rank(s[i]));
          }
        }
        OrderedInFront(x, s, rank);
      }
    }
  }

  lemma {:induction false} SortOrders<T>(s: seq<T>, rank: T -> Rank)
    ensures Ordered(Sort(s, rank), rank)
  {
    if s == [] {
    } else {
      SortOrders(s[..|s| - 1], rank);
      InsertOrders(Sort(s[..|s| - 1], rank), s[|s| - 1], rank);
    }
  }
}
