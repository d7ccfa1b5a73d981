/** What the document store does with a cursor once the matching documents
    are known: `.sort({ field: -1 })`, `.skip(n)`, `.limit(n)`, and the
    `Math.ceil(total / limit)` page count the listing handlers report. */
module Query {
  import opened Common

  /** `s` is ordered by `key`, largest first. */
  predicate SortedDesc<T>(s: seq<T>, key: T -> real) {
    forall i, j :: 0 <= i < j < |s| ==> key(s[i]) >= key(s[j])
  }

  /** Places `x` before the first element whose key is not larger, so that
      among equal keys the earlier insertion stays first. */
  function InsertDesc<T>(x: T, s: seq<T>, key: T -> real): (r: seq<T>)
    requires SortedDesc(s, key)
    ensures SortedDesc(r, key)
    ensures multiset(r) == multiset(s) + multiset{x}
  {
    if s == [] then [x]
    else if key(x) >= key(s[0]) then
      PrependDesc(x, s, key);
      [x] + s
    else
      var rest := InsertDesc(x, s[1..], key);
      HeadBoundsInsertDesc(x, s, key, rest);
      PrependDesc(s[0], rest, key);
      assert s == [s[0]] + s[1..];
      [s[0]] + rest
  }

  /** An element whose key bounds every key may go in front. */
  lemma PrependDesc<T>(y: T, rest: seq<T>, key: T -> real)
    requires SortedDesc(rest, key)
    requires rest != [] ==> key(rest[0]) <= key(y)
    ensures SortedDesc([y] + rest, key)
  {
    var r := [y] + rest;
    forall i, j | 0 <= i < j < |r|
      ensures key(r[i]) >= key(r[j])
    {
      assert r[j] == rest[j - 1];
      if i > 0 {
        assert r[i] == rest[i - 1];
      }
    }
  }

  /** The head of a sorted list bounds what inserting a smaller element
      into its tail yields. */
  lemma HeadBoundsInsertDesc<T>(x: T, s: seq<T>, key: T -> real, rest: seq<T>)
    requires SortedDesc(s, key) && s != [] && key(x) < key(s[0])
    requires multiset(rest) == multiset(s[1..]) + multiset{x}
    ensures rest != [] ==> key(rest[0]) <= key(s[0])
  {
    if rest != [] {
      assert rest[0] in multiset(rest);
      if rest[0] != x {
        assert rest[0] in multiset(s[1..]);
        var j :| 0 <= j < |s[1..]| && s[1..][j] == rest[0];
        assert s[j + 1] == rest[0];
      }
    }
  }

  /** A descending sort on `key`: a sorted permutation of `s`. */
  function SortDesc<T>(s: seq<T>, key: T -> real): (r: seq<T>)
    ensures SortedDesc(r, key)
    ensures multiset(r) == multiset(s)
  {
    if s == [] then []
    else
      assert s == [s[0]] + s[1..];
      InsertDesc(s[0], SortDesc(s[1..], key), key)
  }

  function Min(a: int, b: int): int {
    if a <= b then a else b
  }

  /** How many of `n` sorted matches a page holds after skipping `skip` of
      them with a positive `limit`: the lesser of the limit and what
      remains. */
  function PageLength(n: nat, skip: nat, limit: nat): nat {
    if n <= skip then 0 else Min(limit, n - skip)
  }

  function Abs(n: int): nat {
    if n < 0 then -n else n
  }

  /** The number of documents skipped for page `page` of size `limit`. */
  function SkipFor(page: int, limit: int): int {
    (page - 1) * limit
  }

  /** From the first page on, nothing negative is skipped. */
  lemma SkipNonNegative(page: int, limit: int)
    requires page >= 1 && limit >= 0
    ensures SkipFor(page, limit) >= 0
  {
    assert (page - 1) * limit >= 0 by {
      assert page - 1 >= 0;
    }
  }

  /** The documents a cursor returns from `s` after `.skip(skip).limit(limit)`.
      The store rejects a negative skip (None); a limit of 0 means no limit,
      and a negative limit returns at most its absolute value. */
  function Window<T>(s: seq<T>, skip: int, limit: int): (r: Option<seq<T>>)
    ensures r.Some? <==> skip >= 0
    ensures r.Some? ==> forall k :: 0 <= k < |r.value| ==> skip + k < |s| && r.value[k] == s[skip + k]
    ensures r.Some? && limit != 0 ==> |r.value| == PageLength(|s|, skip, Abs(limit))
    ensures r.Some? && limit == 0 ==> |r.value| == PageLength(|s|, skip, |s|)
    ensures r.Some? && limit != 0 ==> |r.value| <= Abs(limit)
    ensures r.Some? && skip <= |s| ==> |r.value| == |s| - skip || (limit != 0 && |r.value| == Abs(limit))
  {
    if skip < 0 then None
    else if skip >= |s| then Some([])
    else if limit == 0 || |s| - skip <= Abs(limit) then Some(s[skip..])
    else Some(s[skip..skip + Abs(limit)])
  }

  /** `Math.ceil(total / limit)`: None stands for the non-numbers JavaScript
      produces when `limit` is 0 (NaN or Infinity, sent as null). */
  function TotalPages(total: nat, limit: int): (r: Option<int>)
    ensures r.None? <==> limit == 0
    ensures limit > 0 ==> r.Some? && r.value >= 0 && r.value * limit >= total
                          && (r.value - 1) * limit < total
    ensures limit < 0 ==> r.Some? && r.value <= 0 && -r.value * -limit <= total
                          && total < (-r.value + 1) * -limit
  {
    if limit > 0 then
      var q := (total + limit - 1) / limit;
      DivBounds(total + limit - 1, limit);
      Some(q)
    else if limit < 0 then
      var q := total / -limit;
      DivBounds(total, -limit);
      Some(-q)
    else None
  }

  lemma DivBounds(a: int, b: int)
    requires a >= 0 && b > 0
    ensures (a / b) * b <= a < (a / b) * b + b
    ensures a / b >= 0
  {
  }
}
