/** One page of the grouped alerts list, cut from a window of a merge (`list_analysis_result_groups`,
    `_unattributed_alert_rows`). */
module GroupedPage {

  /** A row of the list: a contract's group or a lone alert naming no contract. */
  datatype Row = Row(name: string, alertCount: nat, worstScore: real, latest: int)
  datatype Order = ByScore | ByDate

  /** `a`'s sort key is at least `b`'s. */
  predicate AtLeast(o: Order, a: Row, b: Row) {
    match o
    case ByScore => a.worstScore > b.worstScore || (a.worstScore == b.worstScore && a.latest >= b.latest)
    case ByDate => a.latest > b.latest || (a.latest == b.latest && a.worstScore >= b.worstScore)
  }

  predicate SameKey(a: Row, b: Row) {
    a.worstScore == b.worstScore && a.latest == b.latest
  }

  ghost predicate Descending(o: Order, rows: seq<Row>) {
    forall i, j :: 0 <= i <= j < |rows| ==> AtLeast(o, rows[i], rows[j])
  }

  // ---------------------------------------------------------------- the stable sort

  function Insert(o: Order, rows: seq<Row>, r: Row): (more: seq<Row>)
    ensures |more| == |rows| + 1
  {
    if rows == [] || !AtLeast(o, rows[0], r) then [r] + rows
    else [rows[0]] + Insert(o, rows[1..], r)
  }

  /** `rows.sort(key=..., reverse=True)`: descending, equal keys in their given order. */
  function StableSort(o: Order, rows: seq<Row>): (sorted: seq<Row>)
    ensures |sorted| == |rows|
  {
    if rows == [] then [] else Insert(o, StableSort(o, rows[..|rows| - 1]), rows[|rows| - 1])
  }

  /** The rows that share a key, in order. */
  function Alike(rows: seq<Row>, key: Row): seq<Row> {
    if rows == [] then []
    else (if SameKey(rows[0], key) then [rows[0]] else []) + Alike(rows[1..], key)
  }

  lemma {:induction false} InsertMembers(o: Order, rows: seq<Row>, r: Row)
    ensures forall x :: x in Insert(o, rows, r) ==> x in rows || x == r
  {
    if rows != [] && AtLeast(o, rows[0], r) { InsertMembers(o, rows[1..], r); }
  }

  lemma {:induction false} InsertDescends(o: Order, rows: seq<Row>, r: Row)
    requires Descending(o, rows)
    ensures Descending(o, Insert(o, rows, r))
  {
    if rows == [] || !AtLeast(o, rows[0], r) {
      assert ([r] + rows)[1..] == rows;
    } else {
      InsertDescends(o, rows[1..], r);
      InsertMembers(o, rows[1..], r);
      var rest := Insert(o, rows[1..], r);
      assert ([rows[0]] + rest)[1..] == rest;
      forall x | x in rest ensures AtLeast(o, rows[0], x) { assert x in rows[1..] || x == r; }
    }
  }

  lemma AlikeFirst(x: Row, rows: seq<Row>, key: Row)
    ensures Alike([x] + rows, key) == (if SameKey(x, key) then [x] else []) + Alike(rows, key)
  {
    assert ([x] + rows)[1..] == rows;
  }

  lemma InsertOnce(o: Order, rows: seq<Row>, r: Row)
    ensures Insert(o, rows, r) == if rows == [] || !AtLeast(o, rows[0], r) then [r] + rows
              else [rows[0]] + Insert(o, rows[1..], r)
  {}

  lemma {:induction false} InsertKeeps(o: Order, rows: seq<Row>, r: Row, key: Row)
    requires Descending(o, rows)
    ensures Descending(o, Insert(o, rows, r))
    ensures Alike(Insert(o, rows, r), key) == Alike(rows, key) + if SameKey(r, key) then [r] else []
    ensures forall x :: x in Insert(o, rows, r) ==> x in rows || x == r
  {
    InsertMembers(o, rows, r);
    InsertDescends(o, rows, r);
    InsertOnce(o, rows, r);
    if rows == [] || !AtLeast(o, rows[0], r) {
      AlikeFirst(r, rows, key);
      if SameKey(r, key) { NoneAlike(o, rows, r, key); }
    } else {
      hide AtLeast, SameKey, Insert, Alike;
      assert Descending(o, rows[1..]);
      InsertKeeps(o, rows[1..], r, key);
      AlikeFirst(rows[0], Insert(o, rows[1..], r), key);
      assert rows == [rows[0]] + rows[1..];
      AlikeFirst(rows[0], rows[1..], key);
    }
  }

  lemma {:induction false} NoneAlike(o: Order, rows: seq<Row>, r: Row, key: Row)
    requires Descending(o, rows) && SameKey(r, key) && (rows != [] ==> !AtLeast(o, rows[0], r))
    ensures Alike(rows, key) == []
  {
    if rows != [] {
      assert |rows| > 1 ==> AtLeast(o, rows[0], rows[1]);
      NoneAlike(o, rows[1..], r, key);
    }
  }

  lemma {:induction false} AlikeJoin(a: seq<Row>, b: seq<Row>, key: Row)
    ensures Alike(a + b, key) == Alike(a, key) + Alike(b, key)
  {
    if a == [] { assert a + b == b; } else { AlikeJoin(a[1..], b, key); assert (a + b)[1..] == a[1..] + b; }
  }

  /** The sort orders the rows and keeps, key by key, exactly the rows it was given in the order it was given them. */
  lemma {:induction false} SortIsStable(o: Order, rows: seq<Row>, key: Row)
    ensures Descending(o, StableSort(o, rows)) && Alike(StableSort(o, rows), key) == Alike(rows, key)
  {
    if rows != [] {
      var p, r := rows[..|rows| - 1], rows[|rows| - 1];
      SortIsStable(o, p, key);
      InsertKeeps(o, StableSort(o, p), r, key);
      AlikeJoin(p, [r], key);
      assert rows == p + [r];
    }
  }

  /** Two descending lists that agree key by key are the same list. */
  lemma {:induction false} OrderedListUnique(o: Order, a: seq<Row>, b: seq<Row>)
    requires Descending(o, a) && Descending(o, b) && forall key :: Alike(a, key) == Alike(b, key)
    ensures a == b
    decreases |a|
  {
    if a == [] {
      var key := if b == [] then Row("", 0, 0.0, 0) else b[0];
      assert Alike(a, key) == Alike(b, key);
    } else {
      SameHead(o, a, b);
      forall key ensures Alike(a[1..], key) == Alike(b[1..], key) { SameTails(a, b, key); }
      OrderedListUnique(o, a[1..], b[1..]);
    }
  }

  lemma SameTails(a: seq<Row>, b: seq<Row>, key: Row)
    requires a != [] && b != [] && a[0] == b[0] && Alike(a, key) == Alike(b, key)
    ensures Alike(a[1..], key) == Alike(b[1..], key)
  {
    AlikeTail(a, key);
    AlikeTail(b, key);
  }

  lemma AlikeTail(rows: seq<Row>, key: Row)
    requires rows != []
    ensures SameKey(rows[0], key) ==> Alike(rows, key) != []
    ensures Alike(rows[1..], key) == if SameKey(rows[0], key) then Alike(rows, key)[1..] else Alike(rows, key)
  {}

  lemma SameHead(o: Order, a: seq<Row>, b: seq<Row>)
    requires a != [] && Descending(o, a) && Descending(o, b) && forall key :: Alike(a, key) == Alike(b, key)
    ensures b != [] && a[0] == b[0]
  {
    assert Alike(a, a[0])[0] == a[0];
    assert Alike(b, a[0]) == Alike(a, a[0]);
    FirstAlike(b, a[0]);
    var i :| 0 <= i < |b| && SameKey(b[i], a[0]);
    assert AtLeast(o, b[0], b[i]);
    assert Alike(b, b[0])[0] == b[0];
    assert Alike(a, b[0]) == Alike(b, b[0]);
    FirstAlike(a, b[0]);
    var j :| 0 <= j < |a| && SameKey(a[j], b[0]);
    assert AtLeast(o, a[0], a[j]);
    assert SameKey(b[0], a[0]);
  }

  lemma {:induction false} FirstAlike(rows: seq<Row>, key: Row)
    requires Alike(rows, key) != []
    ensures exists i :: 0 <= i < |rows| && SameKey(rows[i], key)
  {
    if !SameKey(rows[0], key) {
      FirstAlike(rows[1..], key);
      var i :| 0 <= i < |rows[1..]| && SameKey(rows[1..][i], key);
      assert SameKey(rows[i + 1], key);
    }
  }

  // ---------------------------------------------------------------- sorting after a sorted tail is merging

  function Merge(o: Order, a: seq<Row>, b: seq<Row>): (m: seq<Row>)
    ensures |m| == |a| + |b|
    decreases |a| + |b|
  {
    if a == [] then b
    else if b == [] then a
    else if AtLeast(o, a[0], b[0]) then [a[0]] + Merge(o, a[1..], b)
    else [b[0]] + Merge(o, a, b[1..])
  }

  lemma {:induction false} InsertLast(o: Order, rows: seq<Row>, r: Row)
    requires forall i :: 0 <= i < |rows| ==> AtLeast(o, rows[i], r)
    ensures Insert(o, rows, r) == rows + [r]
  {
    if rows != [] { InsertLast(o, rows[1..], r); }
  }

  lemma {:induction false} InsertIntoMerge(o: Order, a: seq<Row>, b: seq<Row>, r: Row)
    requires Descending(o, a) && Descending(o, b + [r])
    ensures Insert(o, Merge(o, a, b), r) == Merge(o, a, b + [r])
    decreases |a| + |b|
  {
    if b != [] { assert (b + [r])[1..] == b[1..] + [r] && (b + [r])[|b|] == r && (b + [r])[0] == b[0]; }
    if a == [] {
      forall i | 0 <= i < |b| ensures AtLeast(o, b[i], r) { assert AtLeast(o, (b + [r])[i], (b + [r])[|b|]); }
      InsertLast(o, b, r);
    } else if b == [] {
      InsertIntoAlone(o, a, r);
      assert [] + [r] == [r];
    } else if AtLeast(o, a[0], b[0]) {
      assert AtLeast(o, (b + [r])[0], (b + [r])[|b|]);
      InsertIntoMerge(o, a[1..], b, r);
    } else {
      assert AtLeast(o, (b + [r])[0], (b + [r])[|b|]);
      assert Descending(o, b[1..] + [r]) by {
        assert forall i :: 0 <= i < |b| ==> (b[1..] + [r])[i] == (b + [r])[i + 1];
      }
      InsertIntoMerge(o, a, b[1..], r);
    }
  }

  lemma {:induction false} InsertIntoAlone(o: Order, a: seq<Row>, r: Row)
    ensures Insert(o, a, r) == Merge(o, a, [r])
  {
    if a != [] && AtLeast(o, a[0], r) {
      InsertIntoAlone(o, a[1..], r);
    } else {
      assert [r][1..] == [];
    }
  }

  lemma {:induction false} SortIsMerge(o: Order, groups: seq<Row>, alerts: seq<Row>)
    requires Descending(o, alerts)
    ensures StableSort(o, groups + alerts) == Merge(o, StableSort(o, groups), alerts)
    decreases |alerts|
  {
    if alerts == [] {
      assert groups + alerts == groups;
    } else {
      var p, r := alerts[..|alerts| - 1], alerts[|alerts| - 1];
      assert (groups + alerts)[..|groups + alerts| - 1] == groups + p;
      assert alerts == p + [r];
      SortIsMerge(o, groups, p);
      SortIsStable(o, groups, r);
      InsertIntoMerge(o, StableSort(o, groups), p, r);
    }
  }

  // ---------------------------------------------------------------- windows of a merge

  /** The first `m` rows of a merge need only the first `m` of the second list. */
  lemma {:induction false} MergePrefix(o: Order, a: seq<Row>, b: seq<Row>, m: nat)
    requires m <= |b|
    ensures Merge(o, a, b)[..m] == Merge(o, a, b[..m])[..m]
    decreases |a| + |b|
  {
    if m > 0 && a != [] {
      var p := b[..m];
      assert p[0] == b[0];
      if AtLeast(o, a[0], b[0]) {
        MergePrefix(o, a[1..], b, m);
        ShorterPrefix(Merge(o, a[1..], b), Merge(o, a[1..], p), m);
        PrefixAfter(a[0], Merge(o, a[1..], b), Merge(o, a[1..], p), m - 1);
      } else {
        assert p[1..] == b[1..][..m - 1];
        MergePrefix(o, a, b[1..], m - 1);
        PrefixAfter(b[0], Merge(o, a, b[1..]), Merge(o, a, p[1..]), m - 1);
      }
    }
  }

  lemma ShorterPrefix(s: seq<Row>, t: seq<Row>, m: nat)
    requires 0 < m <= |s| && m <= |t| && s[..m] == t[..m]
    ensures s[..m - 1] == t[..m - 1]
  {
    assert s[..m][..m - 1] == s[..m - 1] && t[..m][..m - 1] == t[..m - 1];
  }

  lemma PrefixAfter(x: Row, s: seq<Row>, t: seq<Row>, m: nat)
    requires m <= |s| && m <= |t| && s[..m] == t[..m]
    ensures ([x] + s)[..m + 1] == ([x] + t)[..m + 1]
  {
    assert ([x] + s)[..m + 1] == [x] + s[..m] && ([x] + t)[..m + 1] == [x] + t[..m];
  }

  /** Past every row of the first list, dropping the second list's first row shifts the merge by one. */
  lemma {:induction false} MergeDrop(o: Order, a: seq<Row>, b: seq<Row>)
    requires b != [] && Descending(o, b)
    ensures Merge(o, a, b)[|a| + 1..] == Merge(o, a, b[1..])[|a|..]
    decreases |a|
  {
    if |b| > 1 && a != [] && AtLeast(o, a[0], b[0]) {
      MergeDrop(o, a[1..], b);
      assert AtLeast(o, b[0], b[1]);
      assert Merge(o, a, b)[|a| + 1..] == Merge(o, a[1..], b)[|a|..];
      assert Merge(o, a, b[1..])[|a|..] == Merge(o, a[1..], b[1..])[|a| - 1..];
    }
  }

  lemma {:induction false} MergeSkip(o: Order, a: seq<Row>, b: seq<Row>, k: nat)
    requires k <= |b| && Descending(o, b)
    ensures Merge(o, a, b)[|a| + k..] == Merge(o, a, b[k..])[|a|..]
    decreases k
  {
    if k == 0 {
      assert b[k..] == b;
    } else {
      MergeDrop(o, a, b);
      MergeSkip(o, a, b[1..], k - 1);
      assert b[1..][k - 1..] == b[k..];
      assert Merge(o, a, b)[|a| + 1..][k - 1..] == Merge(o, a, b)[|a| + k..];
      assert Merge(o, a, b[1..])[|a|..][k - 1..] == Merge(o, a, b[1..])[|a| + (k - 1)..];
    }
  }

  /** Python's `rows[from:to]` for non-negative bounds. */
  function Slice(rows: seq<Row>, from: nat, to: nat): seq<Row> {
    var hi := if to <= |rows| then to else |rows|;
    if from <= hi then rows[from..hi] else []
  }

  /** `limit` rows of the merge, from a position on. */
  function MergedPage(o: Order, a: seq<Row>, b: seq<Row>, from: nat, limit: nat): seq<Row> {
    Slice(Merge(o, a, b), from, from + limit)
  }

  lemma SliceOfHead(a: seq<Row>, b: seq<Row>, from: nat, to: nat)
    requires to <= |a| && to <= |b| && a[..to] == b[..to] && from <= to
    ensures Slice(a, from, to) == Slice(b, from, to)
  {
    assert a[..to][from..] == a[from..to] && b[..to][from..] == b[from..to];
  }

  /** Merging only the window that can reach the page, and cutting the shifted page, gives the page of the full
      merge, for every offset and limit. */
  lemma WindowedPage(o: Order, a: seq<Row>, b: seq<Row>, skip: nat, offset: nat, limit: nat)
    requires Descending(o, b) && skip == if offset >= |a| then offset - |a| else 0
    ensures MergedPage(o, a, b, offset, limit) == MergedPage(o, a, Slice(b, skip, offset + limit), offset - skip, limit)
  {
    hide MergedPage, Slice, Descending;
    if skip > |b| {
      BeyondAll(o, a, b, skip, limit);
    } else {
      if skip > 0 { SkippedMerge(o, a, b, skip, limit); } else { assert b[skip..] == b; }
      HeadedMerge(o, a, b[skip..], offset - skip, limit);
      WindowOfTail(b, skip, offset, limit);
    }
  }

  lemma WindowOfTail(b: seq<Row>, skip: nat, offset: nat, limit: nat)
    requires skip <= |b| && skip <= offset
    ensures Slice(b, skip, offset + limit) == Slice(b[skip..], 0, offset - skip + limit)
  {}

  lemma BeyondAll(o: Order, a: seq<Row>, b: seq<Row>, skip: nat, limit: nat)
    requires skip > |b|
    ensures MergedPage(o, a, b, |a| + skip, limit) == []
    ensures MergedPage(o, a, Slice(b, skip, |a| + skip + limit), |a|, limit) == []
  {
    assert Slice(b, skip, |a| + skip + limit) == [];
    assert |Merge(o, a, [])| == |a|;
  }

  lemma SkippedMerge(o: Order, a: seq<Row>, b: seq<Row>, skip: nat, limit: nat)
    requires Descending(o, b) && skip <= |b|
    ensures MergedPage(o, a, b, |a| + skip, limit) == MergedPage(o, a, b[skip..], |a|, limit)
  {
    hide Merge, Descending;
    MergeSkip(o, a, b, skip);
    TailSlice(Merge(o, a, b), |a| + skip, limit);
    TailSlice(Merge(o, a, b[skip..]), |a|, limit);
  }

  lemma TailSlice(rows: seq<Row>, k: nat, limit: nat)
    requires k <= |rows|
    ensures Slice(rows, k, k + limit) == Slice(rows[k..], 0, limit)
  {}

  lemma HeadedMerge(o: Order, a: seq<Row>, b: seq<Row>, from: nat, limit: nat)
    ensures MergedPage(o, a, b, from, limit) == MergedPage(o, a, Slice(b, 0, from + limit), from, limit)
  {
    var m := from + limit;
    if m <= |b| {
      MergePrefix(o, a, b, m);
      SliceOfHead(Merge(o, a, b), Merge(o, a, b[..m]), from, m);
      assert Slice(b, 0, m) == b[..m];
    } else {
      assert Slice(b, 0, m) == b;
    }
  }

  /** The same of sorting: the page of everything is the page of the groups and the window. */
  lemma PageIsWindowed(o: Order, groups: seq<Row>, alerts: seq<Row>, skip: nat, offset: nat, limit: nat)
    requires Descending(o, alerts) && skip == if offset >= |groups| then offset - |groups| else 0
    ensures SortedPage(o, groups, alerts, offset, limit)
         == SortedPage(o, groups, Slice(alerts, skip, offset + limit), offset - skip, limit)
  {
    hide *;
    SortedIsMerged(o, groups, alerts, offset, limit);
    WindowIsMerged(o, groups, alerts, skip, offset, limit);
    WindowedPage(o, StableSort(o, groups), alerts, skip, offset, limit);
  }

  lemma WindowIsMerged(o: Order, groups: seq<Row>, alerts: seq<Row>, skip: nat, offset: nat, limit: nat)
    requires Descending(o, alerts) && skip <= offset
    ensures SortedPage(o, groups, Slice(alerts, skip, offset + limit), offset - skip, limit)
         == MergedPage(o, StableSort(o, groups), Slice(alerts, skip, offset + limit), offset - skip, limit)
  {
    WindowDescends(o, alerts, skip, offset + limit);
    SortedIsMerged(o, groups, Slice(alerts, skip, offset + limit), offset - skip, limit);
  }

  lemma WindowDescends(o: Order, rows: seq<Row>, from: nat, to: nat)
    requires Descending(o, rows)
    ensures Descending(o, Slice(rows, from, to))
  {}

  /** `limit` rows of the stable sort of everything, from a position on. */
  function SortedPage(o: Order, groups: seq<Row>, alerts: seq<Row>, from: nat, limit: nat): seq<Row> {
    Slice(StableSort(o, groups + alerts), from, from + limit)
  }

  lemma SortedIsMerged(o: Order, groups: seq<Row>, alerts: seq<Row>, from: nat, limit: nat)
    requires Descending(o, alerts)
    ensures SortedPage(o, groups, alerts, from, limit) == MergedPage(o, StableSort(o, groups), alerts, from, limit)
  {
    SortIsMerge(o, groups, alerts);
  }

  // ---------------------------------------------------------------- the endpoint

  function AlertTotal(rows: seq<Row>): nat {
    if rows == [] then 0 else rows[0].alertCount + AlertTotal(rows[1..])
  }

  lemma {:induction false} AlertTotalJoin(a: seq<Row>, b: seq<Row>)
    ensures AlertTotal(a + b) == AlertTotal(a) + AlertTotal(b)
  {
    if a == [] { assert a + b == b; } else { AlertTotalJoin(a[1..], b); assert (a + b)[1..] == a[1..] + b; }
  }

  lemma {:induction false} LoneAlertTotal(alerts: seq<Row>)
    requires forall i :: 0 <= i < |alerts| ==> alerts[i].alertCount == 1
    ensures AlertTotal(alerts) == |alerts|
  {
    if alerts != [] { LoneAlertTotal(alerts[1..]); }
  }

  lemma SliceLength(rows: seq<Row>, from: nat, to: nat)
    requires from <= to
    ensures |Slice(rows, from, to)| <= to - from
  {}

  // ---------------------------------------------------------------- the page, in its own fields

  /** Sorted by score, newer first at equal scores; or by date, higher first at equal dates. */
  ghost predicate Listed(o: Order, rows: seq<Row>) {
    forall i, j :: 0 <= i < j < |rows| ==> Precedes(o, rows[i], rows[j])
  }

  predicate Precedes(o: Order, a: Row, b: Row) {
    && (o.ByScore? ==> a.worstScore >= b.worstScore && (a.worstScore == b.worstScore ==> a.latest >= b.latest))
    && (o.ByDate? ==> a.latest >= b.latest && (a.latest == b.latest ==> a.worstScore >= b.worstScore))
  }

  /** `page` is what stands from `offset` on in an ordered list of exactly the rows of `all`, `limit` rows of it where
      there are as many. */
  ghost predicate IsPage(o: Order, all: seq<Row>, offset: nat, limit: nat, page: seq<Row>) {
    exists before, after :: Surrounds(o, all, offset, limit, before, page, after)
  }

  ghost predicate Surrounds(o: Order, all: seq<Row>, offset: nat, limit: nat, before: seq<Row>, page: seq<Row>,
                            after: seq<Row>)
  {
    && Listed(o, before + page + after) && multiset(before + page + after) == multiset(all)
    && |before| <= offset && (page + after != [] ==> |before| == offset)
    && |page| <= limit && (after != [] ==> |page| == limit)
  }

  lemma {:induction false} InsertAdds(o: Order, rows: seq<Row>, r: Row)
    ensures multiset(Insert(o, rows, r)) == multiset(rows) + multiset{r}
  {
    if rows != [] && AtLeast(o, rows[0], r) {
      InsertAdds(o, rows[1..], r);
      assert rows == [rows[0]] + rows[1..];
    }
  }

  lemma {:induction false} SortPermutes(o: Order, rows: seq<Row>)
    ensures multiset(StableSort(o, rows)) == multiset(rows)
  {
    if rows != [] {
      var p := rows[..|rows| - 1];
      SortPermutes(o, p);
      InsertAdds(o, StableSort(o, p), rows[|p|]);
      assert rows == p + [rows[|p|]];
    }
  }

  lemma DescendingIsListed(o: Order, rows: seq<Row>)
    requires Descending(o, rows)
    ensures Listed(o, rows)
  {}

  /** What the sort and the slice give is such a page. */
  lemma SortedPageIsPage(o: Order, groups: seq<Row>, alerts: seq<Row>, offset: nat, limit: nat)
    ensures IsPage(o, groups + alerts, offset, limit, SortedPage(o, groups, alerts, offset, limit))
  {
    hide StableSort, Descending, AtLeast, Listed;
    var all := StableSort(o, groups + alerts);
    SortPermutes(o, groups + alerts);
    SortIsStable(o, groups + alerts, Row("", 0, 0.0, 0));
    DescendingIsListed(o, all);
    var from := if offset <= |all| then offset else |all|;
    var to := if offset + limit <= |all| then offset + limit else |all|;
    assert all == all[..from] + all[from..to] + all[to..];
    assert SortedPage(o, groups, alerts, offset, limit) == all[from..to];
    assert Surrounds(o, groups + alerts, offset, limit, all[..from], all[from..to], all[to..]);
  }

  /** The total counts every row's alerts, each once: changing one row's number changes it by as much. */
  lemma {:induction false} AlertTotalCountsEach(rows: seq<Row>, i: nat, n: nat)
    requires i < |rows|
    ensures AlertTotal(rows[i := rows[i].(alertCount := n)]) + rows[i].alertCount == AlertTotal(rows) + n
    ensures (forall r :: r in rows ==> r.alertCount == 0) ==> AlertTotal(rows) == 0
  {
    if |rows| == 1 {
      assert rows[1..] == [];
    } else {
      var more := rows[i := rows[i].(alertCount := n)];
      if i > 0 {
        AlertTotalCountsEach(rows[1..], i - 1, n);
        assert more[1..] == rows[1..][i - 1 := rows[i].(alertCount := n)];
      } else {
        AlertTotalCountsEach(rows[1..], 0, n);
        assert more[1..] == rows[1..];
      }
    }
  }

  /** The grouped list's page: `groups` are the reconciled groups, `alerts` all matching lone alerts as the database
      orders them, of which only a window is fetched. Under the contract-anomaly filter there are no lone alerts. */
  method ListGroups(groups: seq<Row>, alerts: seq<Row>, anomalyOnly: bool, o: Order, offset: nat, limit: nat)
    returns (page: seq<Row>, total: nat, alertTotal: nat, fetched: nat)
    requires Descending(o, alerts) && forall i :: 0 <= i < |alerts| ==> alerts[i].alertCount == 1
    ensures page == SortedPage(o, groups, if anomalyOnly then [] else alerts, offset, limit)
    ensures IsPage(o, groups + if anomalyOnly then [] else alerts, offset, limit, page)
    ensures var all := groups + if anomalyOnly then [] else alerts; total == |all| && alertTotal == AlertTotal(all)
    ensures fetched <= |groups| + limit
  {
    hide StableSort, Descending, AlertTotal, AtLeast, Slice, IsPage;
    SortedPageIsPage(o, groups, if anomalyOnly then [] else alerts, offset, limit);
    var rows := groups;
    total := |groups|;
    alertTotal := AlertTotal(groups);
    var pageSkip := 0;
    fetched := 0;
    if !anomalyOnly {
      pageSkip := if offset >= |groups| then offset - |groups| else 0;
      var need := offset + limit - pageSkip;
      var window := Slice(alerts, pageSkip, pageSkip + need);
      fetched := |window|;
      SliceLength(alerts, pageSkip, pageSkip + need);
      rows := rows + window;
      total := total + |alerts|;
      alertTotal := alertTotal + |alerts|;
      PageIsWindowed(o, groups, alerts, pageSkip, offset, limit);
      assert AlertTotal(groups + alerts) == AlertTotal(groups) + |alerts| by {
        AlertTotalJoin(groups, alerts);
        LoneAlertTotal(alerts);
      }
    } else {
      assert groups + [] == groups;
    }
    var sorted := StableSort(o, rows);
    var pageStart := offset - pageSkip;
    page := Slice(sorted, pageStart, pageStart + limit);
  }
}
