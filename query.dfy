/** The parts of MongoDB query execution the controllers rely on, as functions
    over a collection held in its natural order: `find` with a predicate,
    `findOne`/`findById`, `sort` on a numeric key (newest first),
    `skip`/`limit`, `countDocuments`, and the `Math.ceil(total / limit)` page count. */
module Query {

  import opened Common

  function Abs(n: int): nat {
    if n < 0 then -n else n
  }

  /** `find(p)`: the matching documents, in collection order. */
  function Filter<T>(s: seq<T>, p: T -> bool): (r: seq<T>)
    ensures |r| <= |s|
    ensures forall i :: 0 <= i < |r| ==> r[i] in s && p(r[i])
    ensures forall i :: 0 <= i < |s| && p(s[i]) ==> s[i] in r
    decreases |s|
  {
    if s == [] then []
    else (if p(s[0]) then [s[0]] else []) + Filter(s[1..], p)
  }

  /** Filtering keeps the relative order: it distributes over concatenation. */
  lemma {:induction false} FilterAppend<T>(a: seq<T>, b: seq<T>, p: T -> bool)
    ensures Filter(a + b, p) == Filter(a, p) + Filter(b, p)
    decreases |a|
  {
    if a == [] {
      assert a + b == b;
    } else {
      assert (a + b)[0] == a[0];
      assert (a + b)[1..] == a[1..] + b;
      FilterAppend(a[1..], b, p);
    }
  }

  /** When all documents match, the result is everything. */
  lemma {:induction false} FilterAll<T>(s: seq<T>, p: T -> bool)
    requires forall i :: 0 <= i < |s| ==> p(s[i])
    ensures Filter(s, p) == s
    decreases |s|
  {
    if s != [] {
      FilterAll(s[1..], p);
    }
  }

  /** When no document matches, the result is empty. */
  lemma {:induction false} FilterNone<T>(s: seq<T>, p: T -> bool)
    requires forall i :: 0 <= i < |s| ==> !p(s[i])
    ensures Filter(s, p) == []
    decreases |s|
  {
    if s != [] {
      FilterNone(s[1..], p);
    }
  }

  /** Filtering by two predicates in turn is filtering by their conjunction `pq`. */
  lemma {:induction false} FilterFilter<T>(s: seq<T>, p: T -> bool, q: T -> bool, pq: T -> bool)
    requires forall i :: 0 <= i < |s| ==> pq(s[i]) == (p(s[i]) && q(s[i]))
    ensures Filter(Filter(s, p), q) == Filter(s, pq)
    decreases |s|
  {
    if s != [] {
      FilterFilter(s[1..], p, q, pq);
      var head := if p(s[0]) then [s[0]] else [];
      FilterAppend(head, Filter(s[1..], p), q);
    }
  }

  /** `countDocuments(p)` */
  function CountWhere<T>(s: seq<T>, p: T -> bool): (n: nat)
    ensures n == |Filter(s, p)|
    decreases |s|
  {
    if s == [] then 0 else (if p(s[0]) then 1 else 0) + CountWhere(s[1..], p)
  }

  /** A stronger filter never counts more. */
  lemma {:induction false} CountWhereMonotone<T>(s: seq<T>, p: T -> bool, q: T -> bool)
    requires forall x :: p(x) ==> q(x)
    ensures CountWhere(s, p) <= CountWhere(s, q)
    decreases |s|
  {
    if s != [] {
      CountWhereMonotone(s[1..], p, q);
    }
  }

  /** Two filters that never hold together count at most the whole collection. */
  lemma {:induction false} CountWhereDisjoint<T>(s: seq<T>, p: T -> bool, q: T -> bool)
    requires forall x :: !(p(x) && q(x))
    ensures CountWhere(s, p) + CountWhere(s, q) <= |s|
    decreases |s|
  {
    if s != [] {
      CountWhereDisjoint(s[1..], p, q);
    }
  }

  /** The first index whose document satisfies `p` (`findOne`, `findIndex`). */
  function IndexWhere<T>(s: seq<T>, p: T -> bool): (r: Option<nat>)
    ensures r.Some? ==> r.value < |s| && p(s[r.value])
    ensures r.Some? ==> forall i :: 0 <= i < r.value ==> !p(s[i])
    ensures r.None? ==> forall i :: 0 <= i < |s| ==> !p(s[i])
    decreases |s|
  {
    if s == [] then None
    else if p(s[0]) then Some(0)
    else match IndexWhere(s[1..], p)
      case None => None
      case Some(i) => Some(i + 1)
  }

  /** The documents `f` keeps, each replaced by what `f` makes of it, in
      collection order: a `$lookup` followed by an `$unwind`. */
  function FilterMap<A, B>(s: seq<A>, f: A -> Option<B>): (r: seq<B>)
    ensures |r| <= |s|
    decreases |s|
  {
    if s == [] then []
    else (if f(s[0]).Some? then [f(s[0]).value] else []) + FilterMap(s[1..], f)
  }

  /** Every output comes from a document at the same or a later position. */
  lemma {:induction false} FilterMapSource<A, B>(s: seq<A>, f: A -> Option<B>, i: nat) returns (k: nat)
    requires i < |FilterMap(s, f)|
    ensures i <= k < |s| && f(s[k]) == Some(FilterMap(s, f)[i])
    decreases |s|
  {
    var tail := FilterMap(s[1..], f);
    if f(s[0]).Some? && i == 0 {
      k := 0;
    } else {
      var shift := if f(s[0]).Some? then 1 else 0;
      assert FilterMap(s, f)[i] == tail[i - shift];
      var k' := FilterMapSource(s[1..], f, i - shift);
      k := k' + 1;
    }
  }

  /** Every document `f` keeps gives an output. */
  lemma {:induction false} FilterMapComplete<A, B>(s: seq<A>, f: A -> Option<B>, k: nat) returns (i: nat)
    requires k < |s| && f(s[k]).Some?
    ensures i < |FilterMap(s, f)| && FilterMap(s, f)[i] == f(s[k]).value
    decreases |s|
  {
    if k == 0 {
      i := 0;
    } else {
      var i' := FilterMapComplete(s[1..], f, k - 1);
      var shift := if f(s[0]).Some? then 1 else 0;
      i := i' + shift;
      assert FilterMap(s, f)[i] == FilterMap(s[1..], f)[i'];
    }
  }

  /** Outputs keep the order of the documents they come from. */
  lemma {:induction false} FilterMapPair<A, B>(s: seq<A>, f: A -> Option<B>, i: nat, j: nat) returns (a: nat, b: nat)
    requires i < j < |FilterMap(s, f)|
    ensures a < b < |s|
    ensures f(s[a]) == Some(FilterMap(s, f)[i]) && f(s[b]) == Some(FilterMap(s, f)[j])
    decreases |s|
  {
    var tail := FilterMap(s[1..], f);
    var shift := if f(s[0]).Some? then 1 else 0;
    assert FilterMap(s, f)[j] == tail[j - shift];
    if f(s[0]).Some? && i == 0 {
      var b' := FilterMapSource(s[1..], f, j - 1);
      a, b := 0, b' + 1;
    } else {
      assert FilterMap(s, f)[i] == tail[i - shift];
      var a', b' := FilterMapPair(s[1..], f, i - shift, j - shift);
      a, b := a' + 1, b' + 1;
    }
  }

  predicate SortedDesc<T>(s: seq<T>, key: T -> int) {
    forall i, j :: 0 <= i < j < |s| ==> key(s[i]) >= key(s[j])
  }

  /** A sorted collection stays sorted under a new first document with the greatest key. */
  lemma SortedDescCons<T>(x: T, s: seq<T>, key: T -> int)
    requires SortedDesc(s, key)
    requires |s| > 0 ==> key(s[0]) <= key(x)
    ensures SortedDesc([x] + s, key)
  {
    var r := [x] + s;
    forall i, j | 0 <= i < j < |r| ensures key(r[i]) >= key(r[j]) {
      assert r[j] == s[j - 1];
      if i > 0 {
        assert r[i] == s[i - 1];
      } else if j > 1 {
        assert key(s[0]) >= key(s[j - 1]);
      }
    }
  }

  /** In a sorted collection no later document has a greater key than the first. */
  lemma SortedDescTail<T>(s: seq<T>, key: T -> int, y: T)
    requires SortedDesc(s, key) && |s| > 0 && y in s[1..]
    ensures key(y) <= key(s[0])
  {
    var j :| 0 <= j < |s[1..]| && s[1..][j] == y;
    assert s[j + 1] == y;
  }

  function Insert<T>(x: T, s: seq<T>, key: T -> int): (r: seq<T>)
    requires SortedDesc(s, key)
    ensures SortedDesc(r, key)
    ensures multiset(r) == multiset(s) + multiset{x}
    decreases |s|
  {
    if s == [] || key(x) >= key(s[0]) then
      SortedDescCons(x, s, key);
      [x] + s
    else
      assert SortedDesc(s[1..], key);
      var rest := Insert(x, s[1..], key);
      assert |rest| > 0 ==> key(rest[0]) <= key(s[0]) by {
        if |rest| > 0 && rest[0] != x {
          assert rest[0] in multiset(rest);
          assert rest[0] in multiset(s[1..]);
          SortedDescTail(s, key, rest[0]);
        }
      }
      SortedDescCons(s[0], rest, key);
      assert s == [s[0]] + s[1..];
      [s[0]] + rest
  }

  /** `sort('-key')`: the documents ordered by decreasing key; equal keys keep
      their collection order. */
  function SortDesc<T>(s: seq<T>, key: T -> int): (r: seq<T>)
    ensures SortedDesc(r, key)
    ensures multiset(r) == multiset(s)
    ensures |r| == |s|
    decreases |s|
  {
    if s == [] then []
    else
      assert s == [s[0]] + s[1..];
      Insert(s[0], SortDesc(s[1..], key), key)
  }

  /** Inserting one document adds one to the count when it matches. */
  lemma {:induction false} CountWhereInsert<T>(x: T, s: seq<T>, key: T -> int, p: T -> bool)
    requires SortedDesc(s, key)
    ensures CountWhere(Insert(x, s, key), p) == (if p(x) then 1 else 0) + CountWhere(s, p)
    decreases |s|
  {
    if s == [] || key(x) >= key(s[0]) {
      assert ([x] + s)[1..] == s;
    } else {
      CountWhereInsert(x, s[1..], key, p);
      var r := [s[0]] + Insert(x, s[1..], key);
      assert r[1..] == Insert(x, s[1..], key);
    }
  }

  /** Sorting does not change how many documents match. */
  lemma {:induction false} CountWhereSortDesc<T>(s: seq<T>, key: T -> int, p: T -> bool)
    ensures CountWhere(SortDesc(s, key), p) == CountWhere(s, p)
    decreases |s|
  {
    if s != [] {
      CountWhereSortDesc(s[1..], key, p);
      CountWhereInsert(s[0], SortDesc(s[1..], key), key, p);
    }
  }

  /** Counting among the documents a weaker filter kept is counting among all of them. */
  lemma {:induction false} CountWhereWithin<T>(s: seq<T>, q: T -> bool, p: T -> bool)
    requires forall x :: p(x) ==> q(x)
    ensures CountWhere(Filter(s, q), p) == CountWhere(s, p)
    decreases |s|
  {
    if s != [] {
      CountWhereWithin(s[1..], q, p);
      var head := if q(s[0]) then [s[0]] else [];
      assert Filter(s, q) == head + Filter(s[1..], q);
      CountWhereAppend(head, Filter(s[1..], q), p);
    }
  }

  lemma {:induction false} CountWhereAppend<T>(a: seq<T>, b: seq<T>, p: T -> bool)
    ensures CountWhere(a + b, p) == CountWhere(a, p) + CountWhere(b, p)
    decreases |a|
  {
    if a != [] {
      assert (a + b)[1..] == a[1..] + b;
      CountWhereAppend(a[1..], b, p);
    } else {
      assert a + b == b;
    }
  }

  /** Filtering a sorted collection keeps it sorted. */
  lemma {:induction false} FilterSorted<T>(s: seq<T>, p: T -> bool, key: T -> int)
    requires SortedDesc(s, key)
    ensures SortedDesc(Filter(s, p), key)
    decreases |s|
  {
    if s != [] {
      assert SortedDesc(s[1..], key);
      FilterSorted(s[1..], p, key);
      var rest := Filter(s[1..], p);
      if |rest| > 0 {
        SortedDescTail(s, key, rest[0]);
      }
      SortedDescCons(s[0], rest, key);
      assert Filter(s, p) == (if p(s[0]) then [s[0]] + rest else rest);
    }
  }

  /** Sorting a collection that is already in order changes nothing: the sort is stable. */
  lemma {:induction false} SortDescOfSorted<T>(s: seq<T>, key: T -> int)
    requires SortedDesc(s, key)
    ensures SortDesc(s, key) == s
    decreases |s|
  {
    if s != [] {
      SortDescOfSorted(s[1..], key);
      assert s == [s[0]] + s[1..];
    }
  }

  /** Replacing one document changes the count by what the old and the new document contribute. */
  lemma {:induction false} CountWhereUpdate<T>(s: seq<T>, i: nat, x: T, p: T -> bool)
    requires i < |s|
    ensures CountWhere(s[i := x], p) == CountWhere(s, p) - (if p(s[i]) then 1 else 0) + (if p(x) then 1 else 0)
    decreases |s|
  {
    if i > 0 {
      CountWhereUpdate(s[1..], i - 1, x, p);
      assert s[i := x][1..] == s[1..][i - 1 := x];
    } else {
      assert s[i := x][1..] == s[1..];
    }
  }

  /** Two predicates that agree on every document select the same documents. */
  lemma {:induction false} FilterSame<T>(s: seq<T>, p: T -> bool, q: T -> bool)
    requires forall i :: 0 <= i < |s| ==> p(s[i]) == q(s[i])
    ensures Filter(s, p) == Filter(s, q)
    decreases |s|
  {
    if s != [] {
      FilterSame(s[1..], p, q);
    }
  }

  /** A document is in the sorted collection exactly when it is in the collection. */
  lemma SortDescMembers<T>(s: seq<T>, key: T -> int)
    ensures forall x :: x in SortDesc(s, key) <==> x in s
  {
    var r := SortDesc(s, key);
    forall x ensures x in r <==> x in s {
      assert x in r <==> x in multiset(r);
      assert x in s <==> x in multiset(s);
    }
  }

  /** `.skip(skip).limit(limit)`: a limit of 0 means no limit and a negative
      limit means its absolute value (MongoDB's single-batch form). */
  function Window<T>(s: seq<T>, skip: nat, limit: int): (r: seq<T>)
    ensures |r| <= |s|
    ensures limit != 0 ==> |r| <= Abs(limit)
    ensures forall i :: 0 <= i < |r| ==> skip + i < |s| && r[i] == s[skip + i]
    ensures skip < |s| ==> |r| == (if limit == 0 || |s| - skip <= Abs(limit) then |s| - skip else Abs(limit))
    ensures skip >= |s| ==> r == []
  {
    if skip >= |s| then []
    else if limit == 0 || skip + Abs(limit) >= |s| then s[skip..]
    else s[skip..skip + Abs(limit)]
  }

  /** The number of documents the page skips: `(page - 1) * limit`. */
  function Skip(page: int, limit: int): int {
    (page - 1) * limit
  }

  /** A newest-first page of the matching documents. A negative skip makes the
      driver throw, which reaches the error handler. */
  function NewestFirstPage<T>(matches: seq<T>, key: T -> int, page: int, limit: int): (r: Result<seq<T>>)
    ensures r.Err? <==> Skip(page, limit) < 0
    ensures r.Ok? ==> |r.value| <= |matches| && (limit != 0 ==> |r.value| <= Abs(limit))
    ensures r.Ok? && Skip(page, limit) < |matches| ==>
      |r.value| == (if limit == 0 || |matches| - Skip(page, limit) <= Abs(limit) then |matches| - Skip(page, limit) else Abs(limit))
    ensures r.Ok? ==> SortedDesc(r.value, key)
    ensures r.Ok? ==> forall i :: 0 <= i < |r.value| ==> r.value[i] in matches
    ensures r.Ok? ==> forall i :: 0 <= i < |r.value| ==>
      Skip(page, limit) + i < |matches| && r.value[i] == SortDesc(matches, key)[Skip(page, limit) + i]
  {
    var skip := Skip(page, limit);
    if skip < 0 then Err(ServerError("skip must be non-negative"))
    else
      var sorted := SortDesc(matches, key);
      var w := Window(sorted, skip, limit);
      SortDescMembers(matches, key);
      assert forall i :: 0 <= i < |w| ==> w[i] in sorted;
      Ok(w)
  }

  /** A document is among the matches exactly when it is in the collection and matches. */
  lemma {:induction false} FilterMembers<T>(s: seq<T>, p: T -> bool)
    ensures forall x :: x in Filter(s, p) <==> x in s && p(x)
    decreases |s|
  {
    if s != [] {
      FilterMembers(s[1..], p);
      assert s == [s[0]] + s[1..];
    }
  }

  /** The response of a paged endpoint: the page, its length and the number of matches. */
  datatype Counted<T> = Counted(count: nat, total: nat, data: seq<T>)

  /** `find(p).sort('-key').limit(limit).skip((page - 1) * limit)` next to
      `countDocuments(p)`: one page of the matches, newest first, and how many
      matches there are in all. */
  function FindPage<T>(s: seq<T>, p: T -> bool, key: T -> int, page: int, limit: int): (r: Result<Counted<T>>)
    ensures r.Err? <==> Skip(page, limit) < 0
    ensures r.Err? ==> r.failure.ServerError?
    ensures r.Ok? ==> r.value.total == CountWhere(s, p) && r.value.count == |r.value.data|
    ensures r.Ok? ==> r.value.count <= r.value.total && (limit != 0 ==> r.value.count <= Abs(limit))
    ensures r.Ok? && Skip(page, limit) < r.value.total ==>
      r.value.count == (if limit == 0 || r.value.total - Skip(page, limit) <= Abs(limit) then r.value.total - Skip(page, limit) else Abs(limit))
    ensures r.Ok? ==> SortedDesc(r.value.data, key)
    ensures r.Ok? ==> forall i :: 0 <= i < |r.value.data| ==> r.value.data[i] in s && p(r.value.data[i])
    ensures r.Ok? ==> forall i :: 0 <= i < |r.value.data| ==>
      Skip(page, limit) + i < r.value.total && r.value.data[i] == SortDesc(Filter(s, p), key)[Skip(page, limit) + i]
  {
    var matches := Filter(s, p);
    match NewestFirstPage(matches, key, page, limit)
    case Err(f) => Err(f)
    case Ok(data) =>
      FilterMembers(s, p);
      Ok(Counted(|data|, |matches|, data))
  }

  /** Paging misses nothing: with a positive limit, the match at position `k`
      of the newest-first order is on the page whose window starts at or
      before `k` and ends after it, at offset `k - (page - 1) * limit`. */
  lemma FindPageComplete<T>(s: seq<T>, p: T -> bool, key: T -> int, page: int, limit: int, k: nat)
    requires limit > 0 && page >= 1
    requires Skip(page, limit) <= k < Skip(page, limit) + limit
    requires k < CountWhere(s, p)
    ensures FindPage(s, p, key, page, limit).Ok?
    ensures var data := FindPage(s, p, key, page, limit).value.data;
      k - Skip(page, limit) < |data| && data[k - Skip(page, limit)] == SortDesc(Filter(s, p), key)[k]
  {
    SkipNonNegative(page, limit);
    var skip := Skip(page, limit);
    var data := FindPage(s, p, key, page, limit).value.data;
    assert k - skip < |data|;
    PageEntry(s, p, key, page, limit, skip, k - skip);
  }

  /** Two predicates that agree on every document give the same page. */
  lemma FindPageSame<T>(s: seq<T>, p: T -> bool, q: T -> bool, key: T -> int, page: int, limit: int)
    requires forall i :: 0 <= i < |s| ==> p(s[i]) == q(s[i])
    ensures FindPage(s, p, key, page, limit) == FindPage(s, q, key, page, limit)
  {
    FilterSame(s, p, q);
  }

  lemma SkipNonNegative(page: int, limit: int)
    requires page >= 1 && limit > 0
    ensures Skip(page, limit) >= 0
  {
    assert (page - 1) * limit >= 0 * limit;
  }

  lemma PageEntry<T>(s: seq<T>, p: T -> bool, key: T -> int, page: int, limit: int, skip: int, i: nat)
    requires Skip(page, limit) == skip
    requires FindPage(s, p, key, page, limit).Ok?
    requires i < |FindPage(s, p, key, page, limit).value.data|
    ensures FindPage(s, p, key, page, limit).value.data[i] == SortDesc(Filter(s, p), key)[skip + i]
  {
  }

  /** `Math.ceil(total / limit)`; `None` stands for the Infinity or NaN a zero
      limit produces. */
  function TotalPages(total: nat, limit: int): (r: Option<int>)
    ensures r.None? <==> limit == 0
    ensures limit > 0 ==> r.value >= 0 && (r.value - 1) * limit < total <= r.value * limit
    ensures limit > 0 ==> (r.value == 0 <==> total == 0)
  {
    if limit == 0 then None
    else if limit > 0 then Some((total + limit - 1) / limit)
    else Some(-(total / -limit))
  }
}
