/** The in-memory stand-in for a store table and the generic repository operations the
    concrete repositories are built on. A table is a sequence of records in the store's
    own order; a query without ORDER BY returns its matches in that order. */
module Tables {

  /** The rows of `s` that satisfy `p`, in table order: `SELECT * ... WHERE p`. */
  function Filter<T(!new)>(s: seq<T>, p: T -> bool): (r: seq<T>)
    ensures |r| <= |s|
    ensures forall x :: x in r <==> x in s && p(x)
  {
    if s == [] then []
    else
      assert s == [s[0]] + s[1..];
      (if p(s[0]) then [s[0]] else []) + Filter(s[1..], p)
  }

  /** Filtering keeps every passing row as often as the table holds it, and no other row. */
  lemma {:induction false} FilterCounts<T(!new)>(s: seq<T>, p: T -> bool)
    ensures forall x :: multiset(Filter(s, p))[x] == if p(x) then multiset(s)[x] else 0
  {
    if s != [] {
      assert s == [s[0]] + s[1..];
      FilterCounts(s[1..], p);
    }
  }

  /** Two predicates that agree on every row of `s` select the same rows. */
  lemma {:induction false} FilterSame<T(!new)>(s: seq<T>, p: T -> bool, q: T -> bool)
    requires forall x :: x in s ==> p(x) == q(x)
    ensures Filter(s, p) == Filter(s, q)
  {
    if s != [] {
      assert forall x :: x in s[1..] ==> x in s;
      FilterSame(s[1..], p, q);
    }
  }

  /** Filtering distributes over concatenation. */
  lemma {:induction false} FilterConcat<T(!new)>(a: seq<T>, b: seq<T>, p: T -> bool)
    ensures Filter(a + b, p) == Filter(a, p) + Filter(b, p)
  {
    if a == [] {
      assert a + b == b;
    } else {
      assert (a + b)[1..] == a[1..] + b;
      FilterConcat(a[1..], b, p);
    }
  }

  lemma ConsTail<T>(s: seq<T>)
    requires s != []
    ensures s == [s[0]] + s[1..]
  {
  }

  lemma AppendAssociative<T>(a: seq<T>, b: seq<T>, c: seq<T>)
    ensures a + (b + c) == (a + b) + c
  {
  }

  /** Putting the same row in front of two sequences keeps an equation between their
      filtered forms. */
  lemma FilterConsStep<T(!new)>(a: T, b: seq<T>, c: seq<T>, x: seq<T>, p: T -> bool)
    requires Filter(b, p) == Filter(c, p) + x
    ensures Filter([a] + b, p) == Filter([a] + c, p) + x
  {
    FilterConcat([a], b, p);
    FilterConcat([a], c, p);
    AppendAssociative(Filter([a], p), Filter(c, p), x);
  }

  /** Two filters applied one after the other give the same rows in either order. */
  lemma {:induction false} FilterCommutes<T(!new)>(s: seq<T>, p: T -> bool, q: T -> bool)
    ensures Filter(Filter(s, p), q) == Filter(Filter(s, q), p)
  {
    if s != [] {
      var head := [s[0]];
      assert head[1..] == [];
      var hp := if p(s[0]) then head else [];
      var hq := if q(s[0]) then head else [];
      FilterConcat(hp, Filter(s[1..], p), q);
      FilterConcat(hq, Filter(s[1..], q), p);
      FilterCommutes(s[1..], p, q);
    }
  }

  /** Filtering a sequence whose every element passes changes nothing. */
  lemma {:induction false} FilterAllKept<T(!new)>(s: seq<T>, p: T -> bool)
    requires forall x :: x in s ==> p(x)
    ensures Filter(s, p) == s
  {
    if s != [] {
      assert forall x :: x in s[1..] ==> x in s;
      FilterAllKept(s[1..], p);
    }
  }

  /** Filtering a sequence none of whose elements passes leaves nothing. */
  lemma FilterNone<T(!new)>(s: seq<T>, p: T -> bool)
    requires forall x :: x in s ==> !p(x)
    ensures Filter(s, p) == []
  {
    var kept := Filter(s, p);
    assert forall x :: x !in kept;
  }

  /** The first row satisfying `p` (`FirstOrDefault(p)`), if any. */
  function FirstWhere<T(==,!new)>(s: seq<T>, p: T -> bool): (r: Option<T>)
    ensures r.None? <==> forall x :: x in s ==> !p(x)
    ensures r.Some? ==> r.value in s && p(r.value)
    ensures r.Some? ==> exists k :: 0 <= k < |s| && s[k] == r.value && forall m :: 0 <= m < k ==> !p(s[m])
  {
    if s == [] then None
    else if p(s[0]) then Some(s[0])
    else
      var rest := FirstWhere(s[1..], p);
      assert forall x :: x in s ==> x == s[0] || x in s[1..];
      if rest.Some? then
        var k :| 0 <= k < |s[1..]| && s[1..][k] == rest.value && forall m :: 0 <= m < k ==> !p(s[1..][m]);
        assert s[k + 1] == rest.value && forall m :: 0 <= m < k + 1 ==> !p(s[m]);
        rest
      else rest
  }

  /** Only one position is the first that satisfies `p`. */
  lemma FirstMatchUnique<T>(s: seq<T>, p: T -> bool, j: int, k: int)
    requires 0 <= j < |s| && p(s[j]) && forall m :: 0 <= m < j ==> !p(s[m])
    requires 0 <= k < |s| && p(s[k]) && forall m :: 0 <= m < k ==> !p(s[m])
    ensures j == k
  {
  }

  /** `FirstOrDefault` over the query's rows: the first row of the filtered sequence. */
  lemma {:induction false} FirstWhereIsFilterHead<T(!new)>(s: seq<T>, p: T -> bool)
    ensures FirstWhere(s, p) == if Filter(s, p) == [] then None else Some(Filter(s, p)[0])
  {
    if s != [] && !p(s[0]) {
      FirstWhereIsFilterHead(s[1..], p);
    }
  }

  /** The rows a predicate keeps and the rows it drops add up to the table. */
  lemma {:induction false} FilterPartition<T(!new)>(s: seq<T>, p: T -> bool, q: T -> bool)
    requires forall x :: q(x) == !p(x)
    ensures |Filter(s, p)| + |Filter(s, q)| == |s|
  {
    if s != [] {
      FilterPartition(s[1..], p, q);
    }
  }

  /** The page of `rows` a LIMIT/OFFSET window selects: page `page` (counted from 1) of
      `pageSize` rows. A page before the first reads as the first; a negative size as 0. */
  function Window<T>(rows: seq<T>, page: int, pageSize: int): (r: seq<T>)
    ensures |r| <= |rows|
    ensures forall x :: x in r ==> x in rows
    ensures pageSize >= 0 ==> |r| <= pageSize
    ensures page >= 1 && pageSize >= 0 && page * pageSize <= |rows| ==>
              r == rows[(page - 1) * pageSize..page * pageSize]
  {
    var size := if pageSize < 0 then 0 else pageSize;
    var pages := if page < 1 then 0 else page - 1;
    var offset := if pages * size > |rows| then |rows| else pages * size;
    var len := if size > |rows| - offset then |rows| - offset else size;
    rows[offset..offset + len]
  }

  import opened Wrappers
}
