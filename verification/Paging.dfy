/**
  Draining one model page by page: export again and again, each time from the latest
  timestamp of the page before.  The limit cuts a page by count, the next page starts by
  timestamp, so a page that ends between two rows of one timestamp loses the second.
 */
module Paging {
  import opened Wrappers
  import opened ManualUpdates

  predicate Stamped(rows: seq<Row>) { forall k :: 0 <= k < |rows| ==> rows[k].stamp.Some? }

  /** The rows of a sorted list newer than `t`. */
  function After(s: seq<Row>, t: int): seq<Row> {
    if s == [] then [] else (if Stamp(s[0]) > t then [s[0]] else []) + After(s[1..], t)
  }

  lemma {:induction false} AfterLength(s: seq<Row>, t: int)
    ensures |After(s, t)| <= |s|
    ensures s != [] && Stamp(s[0]) <= t ==> |After(s, t)| < |s|
    ensures forall r :: r in After(s, t) ==> r in s
  {
    if s != [] { AfterLength(s[1..], t); }
  }

  /** All pages of a sorted table, one after the other. */
  function Pages(q: seq<Row>, limit: nat): seq<Row>
    requires limit >= 1
    decreases |q|
  {
    if q == [] then []
    else
      FirstNotAfter(q, limit);
      Take(q, limit) + Pages(After(q, MaxStamp(Take(q, limit))), limit)
  }

  function MaxStamp(s: seq<Row>): (m: int)
    requires s != []
    ensures forall r :: r in s ==> Stamp(r) <= m
    ensures exists r :: r in s && Stamp(r) == m
    decreases |s|
  {
    var last := s[|s| - 1];
    if |s| == 1 then Stamp(last)
    else
      var f := MaxStamp(s[..|s| - 1]);
      assert s == s[..|s| - 1] + [last];
      if Stamp(last) > f then Stamp(last) else f
  }

  lemma FirstNotAfter(q: seq<Row>, limit: nat)
    requires q != [] && limit >= 1
    ensures |After(q, MaxStamp(Take(q, limit)))| < |q|
  {
    assert q[0] in Take(q, limit);
    AfterLength(q, MaxStamp(Take(q, limit)));
  }

  /** Repeated exports of one model, each from the latest timestamp of the one before. */
  function Drain(db: seq<Row>, model: string, since: Option<int>, limit: int): seq<Row>
    requires Stamped(Select(db, model, None))
    decreases |Select(db, model, since)|
  {
    var page := Page(db, model, since, limit);
    if page == [] then []
    else
      var next := Latest(since, page);
      DrainShrinks(db, model, since, limit);
      page + Drain(db, model, next, limit)
  }

  // ------------------------------------------------- the next queryset is a tail

  lemma SelectStamped(db: seq<Row>, model: string, since: Option<int>)
    requires Stamped(Select(db, model, None))
    ensures Stamped(Select(db, model, since))
  {
    var s := Select(db, model, since);
    SelectSelects(db, model, since);
    SelectSelects(db, model, None);
    forall k | 0 <= k < |s| ensures s[k].stamp.Some? {
      assert s[k] in s;
      assert s[k] in Select(db, model, None);
    }
  }

  lemma {:induction false} AfterInsert(r: Row, s: seq<Row>, t: int)
    requires Sorted(s)
    ensures After(Insert(r, s), t) == if Stamp(r) > t then Insert(r, After(s, t)) else After(s, t)
  {
    if s == [] || Before(r, s[0]) {
      assert ([r] + s)[1..] == s;
      if Stamp(r) > t {
        assert Insert(r, After(s, t)) == [r] + After(s, t) by {
          if s != [] {
            assert Stamp(s[0]) > t;
            assert After(s, t)[0] == s[0];
          }
        }
      }
    } else {
      AfterInsert(r, s[1..], t);
      var a := After(s[1..], t);
      assert ([s[0]] + Insert(r, s[1..]))[1..] == Insert(r, s[1..]);
      if Stamp(s[0]) > t {
        assert After(s, t) == [s[0]] + a && After(s, t)[1..] == a;
      } else {
        assert After(s, t) == [] + a == a;
        assert After(Insert(r, s), t) == [] + After(Insert(r, s[1..]), t);
      }
    }
  }

  lemma {:induction false} AfterSort(s: seq<Row>, t: int)
    ensures After(Sort(s), t) == Sort(After(s, t))
  {
    hide Insert, Sorted;
    if s != [] {
      AfterSort(s[1..], t);
      SortSorts(s[1..]);
      AfterInsert(s[0], Sort(s[1..]), t);
      var a := After(s[1..], t);
      if Stamp(s[0]) > t {
        assert ([s[0]] + a)[1..] == a;
      } else {
        assert [] + a == a;
      }
    }
  }

  lemma {:induction false} AfterSelect(db: seq<Row>, model: string, since: Option<int>, t: int)
    requires Stamped(Select(db, model, since)) && (since.Some? ==> since.value <= t)
    ensures After(Select(db, model, since), t) == Select(db, model, Some(t))
    decreases |db|
  {
    if db != [] {
      var d := db[0];
      var rest := Select(db[1..], model, since);
      if Exportable(d, model, since) {
        assert Select(db, model, since)[1..] == rest && Select(db, model, since)[0] == d;
        assert forall k :: 0 <= k < |rest| ==> rest[k] == Select(db, model, since)[k + 1];
      } else {
        NotStamped(d, model, since, t);
        assert Select(db, model, since) == rest;
      }
      AfterSelect(db[1..], model, since, t);
    }
  }

  lemma NotStamped(d: Row, model: string, since: Option<int>, t: int)
    requires !Exportable(d, model, since) && (since.Some? ==> since.value <= t)
    ensures !Exportable(d, model, Some(t))
  {
  }

  /** Exporting from a later timestamp gives the later part of the same sorted list. */
  lemma NextQueryset(db: seq<Row>, model: string, since: Option<int>, t: int)
    requires Stamped(Select(db, model, since)) && (since.Some? ==> since.value <= t)
    ensures Queryset(db, model, Some(t)) == After(Queryset(db, model, since), t)
  {
    AfterSelect(db, model, since, t);
    AfterSort(Select(db, model, since), t);
  }

  lemma MaxStampAppend(front: seq<Row>, last: Row)
    ensures MaxStamp([last]) == Stamp(last)
    ensures front != [] ==>
              MaxStamp(front + [last]) == if Stamp(last) > MaxStamp(front) then Stamp(last) else MaxStamp(front)
  {
    assert (front + [last])[..|front|] == front;
  }

  lemma StampOf(r: Row, since: Option<int>)
    requires r.stamp.Some? && Newer(r, since)
    ensures Stamp(r) == r.stamp.value && (since.Some? ==> since.value < Stamp(r))
  {
  }

  lemma {:induction false} LatestOfPage(since: Option<int>, page: seq<Row>)
    requires page != [] && Stamped(page)
    requires forall r :: r in page ==> Newer(r, since)
    ensures Latest(since, page) == Some(MaxStamp(page))
    decreases |page|
  {
    var front, last := page[..|page| - 1], page[|page| - 1];
    assert page == front + [last] && last in page && last.stamp.Some?;
    assert Stamped(front) && forall r :: r in front ==> r in page;
    hide *;
    StampOf(last, since);
    LatestAppend(since, front, last);
    MaxStampAppend(front, last);
    if front == [] {
      assert page == [last];
      NoRowsLatest(since);
    } else {
      LatestOfPage(since, front);
    }
  }

  /** What the next export starts from, and that it starts later. */
  lemma NextPage(db: seq<Row>, model: string, since: Option<int>, limit: int)
    requires Stamped(Select(db, model, None)) && Page(db, model, since, limit) != []
    ensures var page := Page(db, model, since, limit); var t := MaxStamp(page);
      && Latest(since, page) == Some(t)
      && Queryset(db, model, Some(t)) == After(Queryset(db, model, since), t)
  {
    hide Exportable, Sort, Clamp, MaxStamp;
    var page := Page(db, model, since, limit);
    var q := Queryset(db, model, since);
    SelectStamped(db, model, since);
    QuerysetRows(db, model, since);
    SelectSelects(db, model, since);
    forall k | 0 <= k < |page| ensures page[k].stamp.Some? && Newer(page[k], since) {
      assert page[k] == q[k] && q[k] in q;
      assert q[k] in Select(db, model, since);
      ExportableIsNewer(page[k], model, since);
    }
    LatestOfPage(since, page);
    SinceBelow(page, since);
    NextQueryset(db, model, since, MaxStamp(page));
  }

  lemma ExportableIsNewer(r: Row, model: string, since: Option<int>)
    requires Exportable(r, model, since)
    ensures Newer(r, since)
  {
  }

  lemma SinceBelow(page: seq<Row>, since: Option<int>)
    requires page != [] && Stamped(page) && forall k :: 0 <= k < |page| ==> Newer(page[k], since)
    ensures since.Some? ==> since.value <= MaxStamp(page)
  {
    assert page[0] in page;
  }

  lemma DrainShrinks(db: seq<Row>, model: string, since: Option<int>, limit: int)
    requires Stamped(Select(db, model, None)) && Page(db, model, since, limit) != []
    ensures |Select(db, model, Latest(since, Page(db, model, since, limit)))| < |Select(db, model, since)|
  {
    hide Page, Latest, MaxStamp, Queryset;
    NextPage(db, model, since, limit);
    QuerysetRows(db, model, since);
    QuerysetRows(db, model, Latest(since, Page(db, model, since, limit)));
    PageOfQueryset(db, model, since, limit);
    FirstNotAfter(Queryset(db, model, since), Clamp(limit));
  }

  lemma PageOfQueryset(db: seq<Row>, model: string, since: Option<int>, limit: int)
    ensures Page(db, model, since, limit) == Take(Queryset(db, model, since), Clamp(limit)) && Clamp(limit) >= 1
    ensures Page(db, model, since, limit) == [] <==> Queryset(db, model, since) == []
  {
  }

  /** The repeated exports are the pages of the sorted table. */
  lemma {:induction false} DrainIsPages(db: seq<Row>, model: string, since: Option<int>, limit: int)
    requires Stamped(Select(db, model, None))
    ensures Drain(db, model, since, limit) == Pages(Queryset(db, model, since), Clamp(limit))
    decreases |Select(db, model, since)|
  {
    hide Page, Latest, Queryset, MaxStamp, Clamp, Select;
    PageOfQueryset(db, model, since, limit);
    if Page(db, model, since, limit) != [] {
      NextPage(db, model, since, limit);
      DrainShrinks(db, model, since, limit);
      DrainIsPages(db, model, Latest(since, Page(db, model, since, limit)), limit);
    }
  }

  // ---------------------------------------------------- when nothing is lost, exactly

  /** No page ends between two rows of one timestamp. */
  predicate ClearCuts(q: seq<Row>, limit: nat)
    requires limit >= 1
    decreases |q|
  {
    |q| <= limit || (Stamp(q[limit - 1]) < Stamp(q[limit]) && ClearCuts(q[limit..], limit))
  }

  lemma {:induction false} AllAfter(s: seq<Row>, t: int)
    requires forall k :: 0 <= k < |s| ==> Stamp(s[k]) > t
    ensures After(s, t) == s
  {
    if s != [] { AllAfter(s[1..], t); }
  }

  lemma {:induction false} NoneAfter(a: seq<Row>, b: seq<Row>, t: int)
    requires forall k :: 0 <= k < |a| ==> Stamp(a[k]) <= t
    ensures After(a + b, t) == After(b, t)
  {
    if a == [] {
      assert a + b == b;
    } else {
      assert (a + b)[1..] == a[1..] + b;
      NoneAfter(a[1..], b, t);
    }
  }

  lemma LastIsMax(s: seq<Row>)
    requires s != [] && Sorted(s)
    ensures MaxStamp(s) == Stamp(s[|s| - 1])
  {
    var m := MaxStamp(s);
    var r :| r in s && Stamp(r) == m;
    var k :| 0 <= k < |s| && s[k] == r;
    assert k < |s| - 1 ==> Before(s[k], s[|s| - 1]);
    assert s[|s| - 1] in s;
  }

  lemma {:induction false} PagesShort(q: seq<Row>, limit: nat)
    requires limit >= 1
    ensures |Pages(q, limit)| <= |q|
    decreases |q|
  {
    hide MaxStamp;
    if q != [] {
      var page := Take(q, limit);
      var t := MaxStamp(page);
      FirstNotAfter(q, limit);
      assert q == page + q[|page|..];
      assert forall k :: 0 <= k < |page| ==> page[k] in page;
      MaxBounds(page);
      NoneAfter(page, q[|page|..], t);
      AfterLength(q[|page|..], t);
      PagesShort(After(q, t), limit);
    }
  }

  lemma MaxBounds(s: seq<Row>)
    requires s != []
    ensures forall k :: 0 <= k < |s| ==> Stamp(s[k]) <= MaxStamp(s)
  {
    assert forall k :: 0 <= k < |s| ==> s[k] in s;
  }

  lemma TailIsLater(q: seq<Row>, limit: nat)
    requires limit < |q| && Sorted(q)
    ensures forall k :: 0 <= k < |q[limit..]| ==> Stamp(q[limit..][k]) >= Stamp(q[limit])
  {
    forall k | 0 <= k < |q| - limit ensures Stamp(q[limit..][k]) >= Stamp(q[limit]) {
      assert k > 0 ==> Before(q[limit], q[limit + k]);
    }
  }

  lemma PagesUnfold(q: seq<Row>, limit: nat)
    requires limit >= 1 && |q| > limit && Sorted(q)
    ensures Pages(q, limit) == q[..limit] + Pages(After(q[limit..], Stamp(q[limit - 1])), limit)
  {
    var page, tail := Take(q, limit), q[limit..];
    LastIsMax(page);
    MaxBounds(page);
    hide MaxStamp, Stamp;
    assert q == page + tail;
    NoneAfter(page, tail, MaxStamp(page));
  }

  /** One page and the rest: the rest is the tail if the cut is clear, and shorter if not. */
  lemma PagesStep(q: seq<Row>, limit: nat)
    requires limit >= 1 && |q| > limit && Sorted(q)
    ensures Stamp(q[limit - 1]) < Stamp(q[limit]) ==> Pages(q, limit) == q[..limit] + Pages(q[limit..], limit)
    ensures Stamp(q[limit - 1]) >= Stamp(q[limit]) ==> |Pages(q, limit)| < |q|
  {
    hide Pages, Sorted, Stamp;
    PagesUnfold(q, limit);
    var tail, t := q[limit..], Stamp(q[limit - 1]);
    if t < Stamp(q[limit]) {
      TailIsLater(q, limit);
      AllAfter(tail, t);
    } else {
      AfterLength(tail, t);
      PagesShort(After(tail, t), limit);
    }
  }

  lemma {:induction false} PagesComplete(q: seq<Row>, limit: nat)
    requires limit >= 1 && Sorted(q)
    ensures Pages(q, limit) == q <==> ClearCuts(q, limit)
    decreases |q|
  {
    hide MaxStamp, Pages, After;
    if |q| <= limit {
      OnePage(q, limit);
    } else {
      PagesStep(q, limit);
      PagesComplete(q[limit..], limit);
      SamePrefix(q, Pages(q[limit..], limit), limit);
    }
  }

  lemma OnePage(q: seq<Row>, limit: nat)
    requires limit >= 1 && |q| <= limit
    ensures Pages(q, limit) == q
  {
    hide MaxStamp;
    if q != [] {
      MaxBounds(q);
      NoneAfter(q, [], MaxStamp(q));
      assert q + [] == q && Take(q, limit) == q;
    }
  }

  lemma SamePrefix(q: seq<Row>, rest: seq<Row>, n: nat)
    requires n <= |q|
    ensures q[..n] + rest == q <==> rest == q[n..]
  {
    assert q == q[..n] + q[n..];
    if q[..n] + rest == q {
      assert rest == (q[..n] + rest)[n..];
    }
  }

  /** Draining a model yields every newer eligible row exactly once, in timestamp order, for
      any limit, if and only if no page ends between two rows of one timestamp. */
  lemma DrainComplete(db: seq<Row>, model: string, since: Option<int>, limit: int)
    requires Stamped(Select(db, model, None))
    ensures Drain(db, model, since, limit) == Queryset(db, model, since)
       <==> ClearCuts(Queryset(db, model, since), Clamp(limit))
  {
    hide Drain, Queryset, Pages, ClearCuts;
    DrainIsPages(db, model, since, limit);
    QuerysetRows(db, model, since);
    PagesComplete(Queryset(db, model, since), Clamp(limit));
  }

  /** Two rows of one timestamp and a limit of one: the second is never exported. */
  lemma TiedRowIsLost(model: string)
    ensures var a, b := Row(model, 1, Some(1), SHOWN, 0), Row(model, 2, Some(1), SHOWN, 0);
      Stamped(Select([a, b], model, None)) && Drain([a, b], model, None, 1) != Queryset([a, b], model, None)
  {
    var a, b := Row(model, 1, Some(1), SHOWN, 0), Row(model, 2, Some(1), SHOWN, 0);
    var db := [a, b];
    hide Eligible;
    ShownIsEligible(a);
    ShownIsEligible(b);
    assert db[1..] == [b] && [b][1..] == [];
    assert Select([b], model, None) == [b] && Select(db, model, None) == [a] + [b] == db;
    assert Sort([]) == [] && Sort([b]) == Insert(b, []) == [b];
    assert Sort(db) == Insert(a, [b]) == [a] + [b] == db;
    assert !ClearCuts(db, 1);
    DrainComplete(db, model, None, 1);
  }

  /** Distinct timestamps are enough. */
  lemma {:induction false} DistinctCuts(q: seq<Row>, limit: nat)
    requires limit >= 1 && Sorted(q) && forall j, k :: 0 <= j < k < |q| ==> Stamp(q[j]) != Stamp(q[k])
    ensures ClearCuts(q, limit)
    decreases |q|
  {
    if |q| > limit {
      assert Before(q[limit - 1], q[limit]);
      DistinctCuts(q[limit..], limit);
    }
  }

  // -------------------------------------------------------- a table without timestamps

  lemma {:induction false} SelectUnstamped(db: seq<Row>, model: string, since: Option<int>)
    requires forall r :: r in db && r.model == model ==> r.stamp.None?
    ensures Select(db, model, since) == Select(db, model, None)
  {
    if db != [] {
      assert db[0] in db && forall r :: r in db[1..] ==> r in db;
      SelectUnstamped(db[1..], model, since);
    }
  }

  /** The user table exports the same page whatever the cursor is, so a user behind the
      limit is in no export of any run until the table changes. */
  lemma UsersBehindLimitNeverExported(db: seq<Row>, model: string, limit: int, r: Row)
    requires forall x :: x in db && x.model == model ==> x.stamp.None?
    requires r !in Page(db, model, None, limit)
    ensures forall since :: r !in Page(db, model, since, limit)
  {
    forall since ensures r !in Page(db, model, since, limit) {
      SelectUnstamped(db, model, since);
    }
  }
}
