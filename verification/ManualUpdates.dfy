/**
  The manual update channel between the school's LAN server and the cloud: which rows a
  run exports, what an import writes, and the timestamp each of them reports.
  Rows travel whole; the import of one row is a keyed upsert that may raise.
 */
module ManualUpdates {
  import opened Wrappers

  /** What the filters and the gate look at, in the row itself or in the record it belongs to:
      whether the result sheet or compilation is published, whether the person is a student, and
      whether the submission is one for admission. */
  datatype Facts = Facts(published: bool, student: bool, admission: bool)

  /** A stored row.  `stamp` is its `updated_at`; the user table has no such column. */
  datatype Row = Row(model: string, pk: nat, stamp: Option<int>, facts: Facts, body: nat)

  type Key = (string, nat)

  function KeyOf(r: Row): Key { (r.model, r.pk) }

  // -------------------------------------------------------------------- channels

  const ADMISSIONS: seq<string> :=
    ["dashboard.publicsitesubmission", "dashboard.publicadmissionpaymenttransaction"]
  const RESULTS: seq<string> :=
    ["results.resultsheet", "results.studentsubjectscore", "results.classresultcompilation",
     "results.classresultstudentrecord", "results.resultaccesspin"]

  function ChannelModels(channel: string): seq<string> {
    if channel == "academics" then
      ["academics.academicsession", "academics.term", "academics.academicclass", "academics.subject"]
    else if channel == "results" then RESULTS
    else if channel == "attendance" then ["attendance.attendancerecord"]
    else if channel == "students" then
      ["accounts.user", "accounts.studentprofile", "academics.studentclassenrollment",
       "academics.studentsubjectenrollment"]
    else if channel == "receipts" then ["finance.studentcharge", "finance.payment", "finance.receipt"]
    else if channel == "admissions" then ADMISSIONS
    else []
  }

  const ALL_CHANNELS: seq<string> :=
    ["academics", "results", "attendance", "students", "receipts", "admissions"]
  const LAN_TO_CLOUD: seq<string> := ["academics", "results", "attendance", "students", "receipts"]

  predicate Distinct<T(==)>(s: seq<T>) { forall j, k :: 0 <= j < k < |s| ==> s[j] != s[k] }

  /** The items of a list without their repetitions, in order of first mention. */
  function FirstMentions(s: seq<string>): seq<string> {
    if s == [] then []
    else
      var front, last := FirstMentions(s[..|s| - 1]), s[|s| - 1];
      if last in front then front else front + [last]
  }

  function FirstIndex(s: seq<string>, x: string): (k: nat)
    requires x in s
    ensures k < |s| && s[k] == x && x !in s[..k]
  {
    if s[0] == x then 0
    else
      assert s == [s[0]] + s[1..];
      var k := FirstIndex(s[1..], x);
      assert s[..k + 1] == [s[0]] + s[1..][..k];
      k + 1
  }

  /** Each item once, the earlier mentioned first. */
  lemma {:induction false} MentionsInOrder(s: seq<string>)
    ensures Distinct(FirstMentions(s)) && forall x :: x in FirstMentions(s) <==> x in s
    ensures forall j, k :: 0 <= j < k < |FirstMentions(s)| ==>
              FirstMentions(s)[j] in s && FirstMentions(s)[k] in s
              && FirstIndex(s, FirstMentions(s)[j]) < FirstIndex(s, FirstMentions(s)[k])
  {
    if s != [] {
      var t, last := s[..|s| - 1], s[|s| - 1];
      assert s == t + [last];
      MentionsInOrder(t);
      var f, g := FirstMentions(t), FirstMentions(s);
      forall x | x in t ensures FirstIndex(s, x) == FirstIndex(t, x) { SameFirstIndex(t, last, x); }
      forall j, k | 0 <= j < k < |g|
        ensures g[j] in s && g[k] in s && FirstIndex(s, g[j]) < FirstIndex(s, g[k])
      {
        assert g[j] == f[j] && f[j] in f;
        if k < |f| {
          assert g[k] == f[k] && f[k] in f;
        } else {
          NewIndex(t, last);
        }
      }
    }
  }

  lemma {:induction false} FirstIndexUnique(s: seq<string>, x: string, k: nat)
    requires k < |s| && s[k] == x && x !in s[..k]
    ensures FirstIndex(s, x) == k
  {
    if k > 0 {
      assert s[0] == s[..k][0];
      assert s[1..][..k - 1] == s[..k][1..];
      FirstIndexUnique(s[1..], x, k - 1);
    }
  }

  lemma SameFirstIndex(t: seq<string>, last: string, x: string)
    requires x in t
    ensures FirstIndex(t + [last], x) == FirstIndex(t, x)
  {
    assert (t + [last])[..FirstIndex(t, x)] == t[..FirstIndex(t, x)];
    FirstIndexUnique(t + [last], x, FirstIndex(t, x));
  }

  lemma NewIndex(t: seq<string>, last: string)
    requires last !in t
    ensures FirstIndex(t + [last], last) == |t|
  {
    assert (t + [last])[..|t|] == t;
    FirstIndexUnique(t + [last], last, |t|);
  }

  lemma MentionsGrow(s: seq<string>, x: string)
    ensures FirstMentions(s + [x]) == if x in FirstMentions(s) then FirstMentions(s) else FirstMentions(s) + [x]
  {
    assert (s + [x])[..|s|] == s;
  }

  /** What to use when nothing is requested: the allowed channels, or those from the LAN to the
      cloud when none are given. */
  function DefaultChannels(allowed: Option<seq<string>>): seq<string> {
    if allowed.Some? && allowed.value != [] then allowed.value else LAN_TO_CLOUD
  }

  predicate ValidChannel(c: string, allowed: Option<seq<string>>) {
    c in ALL_CHANNELS && (allowed.Some? ==> c in allowed.value)
  }

  /** The channels to use: the requested names, or the default ones when none is requested,
      without repetitions, or an error that lists the unknown ones. */
  method NormalizedChannels(requested: seq<string>, allowed: Option<seq<string>>)
    returns (r: Result<seq<string>, set<string>>)
    ensures var values := if requested == [] then DefaultChannels(allowed) else requested;
      var bad := set c | c in values && !ValidChannel(c, allowed);
      r == if bad != {} then Err(bad) else Ok(FirstMentions(values))
  {
    hide FirstMentions;
    var values := if requested == [] then DefaultChannels(allowed) else requested;
    var bad := set c | c in values && !ValidChannel(c, allowed);
    if bad != {} {
      return Err(bad);
    }
    var ordered: seq<string> := [];
    NoMentions();
    for k := 0 to |values|
      invariant ordered == FirstMentions(values[..k])
    {
      assert values[..k + 1] == values[..k] + [values[k]];
      MentionsGrow(values[..k], values[k]);
      if values[k] !in ordered {
        ordered := ordered + [values[k]];
      }
    }
    assert values[..|values|] == values;
    return Ok(ordered);
  }

  lemma NoMentions() ensures FirstMentions([]) == [] { }

  function AllModels(channels: seq<string>): seq<string> {
    if channels == [] then [] else AllModels(channels[..|channels| - 1]) + ChannelModels(channels[|channels| - 1])
  }

  /** The models of some channels, each once, in order of first mention. */
  method ModelLabels(channels: seq<string>) returns (labels: seq<string>)
    ensures labels == FirstMentions(AllModels(channels))
  {
    hide ChannelModels, FirstMentions;
    labels := [];
    NoMentions();
    for k := 0 to |channels|
      invariant labels == FirstMentions(AllModels(channels[..k]))
    {
      var models := ChannelModels(channels[k]);
      ghost var before := AllModels(channels[..k]);
      assert before + [] == before && models[..0] == [];
      for j := 0 to |models|
        invariant labels == FirstMentions(before + models[..j])
      {
        MentionsGrow(before + models[..j], models[j]);
        assert before + models[..j + 1] == (before + models[..j]) + [models[j]];
        if models[j] !in labels {
          labels := labels + [models[j]];
        }
      }
      assert models[..|models|] == models;
      assert channels[..k + 1][..k] == channels[..k];
    }
    assert channels[..|channels|] == channels;
  }

  // -------------------------------------------------------------------- querysets

  function Stamp(r: Row): int { if r.stamp.Some? then r.stamp.value else 0 }

  /** `order_by("updated_at", "pk")`, or by key for a table without timestamps. */
  predicate Before(a: Row, b: Row) {
    Stamp(a) < Stamp(b) || (Stamp(a) == Stamp(b) && a.pk <= b.pk)
  }

  predicate Sorted(s: seq<Row>) { forall j, k :: 0 <= j < k < |s| ==> Before(s[j], s[k]) }

  function Insert(r: Row, s: seq<Row>): seq<Row> {
    if s == [] || Before(r, s[0]) then [r] + s else [s[0]] + Insert(r, s[1..])
  }

  function Sort(s: seq<Row>): seq<Row> {
    if s == [] then [] else Insert(s[0], Sort(s[1..]))
  }

  /** `_apply_updated_since`: strictly newer rows; every row of a table without timestamps. */
  predicate Newer(r: Row, since: Option<int>) {
    since.None? || r.stamp.None? || r.stamp.value > since.value
  }

  const PUBLICATIONS: seq<string> :=
    ["results.resultsheet", "results.studentsubjectscore", "results.classresultcompilation",
     "results.classresultstudentrecord"]
  const OF_STUDENTS: seq<string> :=
    ["attendance.attendancerecord", "accounts.user", "accounts.studentprofile",
     "academics.studentclassenrollment", "academics.studentsubjectenrollment", "finance.receipt"]

  /** The filter of the export queryset of the model: all rows of the other models. */
  predicate Eligible(r: Row) {
    if r.model in PUBLICATIONS then r.facts.published
    else if r.model in OF_STUDENTS then r.facts.student
    else if r.model in ADMISSIONS then r.facts.admission
    else true
  }

  /** Published, of a student and for admission: no filter holds the row back. */
  const SHOWN := Facts(true, true, true)

  lemma ShownIsEligible(r: Row)
    requires r.facts == SHOWN
    ensures Eligible(r)
  {
  }

  predicate Exportable(r: Row, model: string, since: Option<int>) {
    r.model == model && Eligible(r) && Newer(r, since)
  }

  function Select(db: seq<Row>, model: string, since: Option<int>): seq<Row> {
    if db == [] then []
    else (if Exportable(db[0], model, since) then [db[0]] else []) + Select(db[1..], model, since)
  }

  function Queryset(db: seq<Row>, model: string, since: Option<int>): seq<Row> {
    Sort(Select(db, model, since))
  }

  function Clamp(limit: int): nat {
    if limit < 1 then 1 else if limit > 1000 then 1000 else limit
  }

  function Take<T>(s: seq<T>, n: nat): seq<T> { if n <= |s| then s[..n] else s }

  function Page(db: seq<Row>, model: string, since: Option<int>, limit: int): seq<Row> {
    Take(Queryset(db, model, since), Clamp(limit))
  }

  function Export(db: seq<Row>, labels: seq<string>, since: Option<int>, limit: int): seq<Row> {
    if labels == [] then []
    else Page(db, labels[0], since, limit) + Export(db, labels[1..], since, limit)
  }

  /** The largest timestamp of some rows and a first value. */
  function Latest(since: Option<int>, rows: seq<Row>): Option<int>
    decreases |rows|
  {
    if rows == [] then since
    else
      var front := Latest(since, rows[..|rows| - 1]);
      var s := rows[|rows| - 1].stamp;
      if s.Some? && (front.None? || s.value > front.value) then s else front
  }

  /** `generic_model_sync_allowed_for_instance`, for a server in results-only mode or not. */
  predicate AllowedForSync(r: Row, resultsOnly: bool) {
    if !resultsOnly then true
    else if r.model !in RESULTS then false
    else if r.model == "results.resultsheet" then r.facts.published
    else if r.model == "results.studentsubjectscore" then r.facts.published
    else if r.model == "results.classresultcompilation" then r.facts.published
    else if r.model == "results.classresultstudentrecord" then r.facts.published
    else r.model == "results.resultaccesspin"
  }

  // ---------------------------------------------------------------- facts on pages

  lemma {:induction false} InsertKeeps(r: Row, s: seq<Row>)
    ensures multiset(Insert(r, s)) == multiset(s) + multiset{r}
    ensures Sorted(s) ==> Sorted(Insert(r, s))
  {
    hide Sorted, Before;
    if s != [] && !Before(r, s[0]) {
      InsertKeeps(r, s[1..]);
      assert s == [s[0]] + s[1..];
      if Sorted(s) { LaterHead(r, s, Insert(r, s[1..])); }
    } else {
      if Sorted(s) { NewHead(r, s); }
    }
  }

  lemma NewHead(r: Row, s: seq<Row>)
    requires Sorted(s) && (s != [] ==> Before(r, s[0]))
    ensures Sorted([r] + s)
  {
    forall k | 0 <= k < |s| ensures Before(r, s[k]) {
      assert k > 0 ==> Before(s[0], s[k]);
    }
  }

  lemma LaterHead(r: Row, s: seq<Row>, t: seq<Row>)
    requires s != [] && Sorted(s) && !Before(r, s[0]) && multiset(t) == multiset(s[1..]) + multiset{r}
    ensures Sorted(s[1..]) && (Sorted(t) ==> Sorted([s[0]] + t))
  {
    forall k | 0 <= k < |t| ensures Before(s[0], t[k]) {
      assert t[k] in multiset(t);
      assert t[k] == r || t[k] in multiset(s[1..]);
    }
  }

  lemma {:induction false} SortSorts(s: seq<Row>)
    ensures Sorted(Sort(s)) && multiset(Sort(s)) == multiset(s)
  {
    if s != [] {
      SortSorts(s[1..]);
      InsertKeeps(s[0], Sort(s[1..]));
      assert s == [s[0]] + s[1..];
    }
  }

  lemma {:induction false} SelectSelects(db: seq<Row>, model: string, since: Option<int>)
    ensures forall r :: r in Select(db, model, since) <==> r in db && Exportable(r, model, since)
    ensures Distinct(db) ==> Distinct(Select(db, model, since))
  {
    hide Exportable;
    if db != [] {
      SelectSelects(db[1..], model, since);
      assert db == [db[0]] + db[1..];
    }
  }

  lemma QuerysetRows(db: seq<Row>, model: string, since: Option<int>)
    ensures forall r :: r in Queryset(db, model, since) <==> r in db && Exportable(r, model, since)
    ensures |Queryset(db, model, since)| == |Select(db, model, since)|
    ensures Sorted(Queryset(db, model, since))
  {
    hide Exportable, Sorted;
    SelectSelects(db, model, since);
    var s := Select(db, model, since);
    SortSorts(s);
    assert forall r :: r in Sort(s) <==> r in multiset(Sort(s));
    assert forall r :: r in s <==> r in multiset(s);
    assert |Sort(s)| == |multiset(Sort(s))| == |multiset(s)| == |s|;
  }

  /** What a page holds: exportable rows only; and all of them when they fit the limit. */
  lemma PageRows(db: seq<Row>, model: string, since: Option<int>, limit: int)
    ensures forall r :: r in Page(db, model, since, limit) ==> r in db && Exportable(r, model, since)
    ensures |Select(db, model, since)| <= Clamp(limit)
        ==> forall r :: r in db && Exportable(r, model, since) ==> r in Page(db, model, since, limit)
  {
    hide Exportable, Sorted, Clamp;
    QuerysetRows(db, model, since);
    var q := Queryset(db, model, since);
    forall r | r in Page(db, model, since, limit) ensures r in q { }
  }

  lemma {:induction false} ExportRows(db: seq<Row>, labels: seq<string>, since: Option<int>, limit: int)
    ensures forall r :: r in Export(db, labels, since, limit) <==>
              r.model in labels && r in Page(db, r.model, since, limit)
  {
    hide Page, Exportable;
    if labels != [] {
      ExportRows(db, labels[1..], since, limit);
      PageRows(db, labels[0], since, limit);
      PageModel(db, labels[0], since, limit);
      assert labels == [labels[0]] + labels[1..];
    }
  }

  lemma PageModel(db: seq<Row>, model: string, since: Option<int>, limit: int)
    ensures forall r :: r in Page(db, model, since, limit) ==> r.model == model && Eligible(r)
  {
    PageRows(db, model, since, limit);
  }

  // ------------------------------------------------------------------- the export

  /** The gate lets a row of the result models pass exactly when its queryset keeps it. */
  lemma GateIsFilter(r: Row)
    requires r.model in RESULTS
    ensures AllowedForSync(r, true) <==> Eligible(r)
    ensures AllowedForSync(r, false)
  {
    assert r.model == "results.resultaccesspin" ==> r.model !in PUBLICATIONS && r.model !in OF_STUDENTS && r.model !in ADMISSIONS;
  }

  /** In no mode does the per-row gate drop a row of an exported page of the result models. */
  lemma GateDropsNothing(db: seq<Row>, model: string, since: Option<int>, limit: int, resultsOnly: bool)
    ensures forall r :: r in Page(db, model, since, limit) && model in RESULTS ==> AllowedForSync(r, resultsOnly)
  {
    hide Page, AllowedForSync, Eligible;
    PageModel(db, model, since, limit);
    forall r | r in Page(db, model, since, limit) && model in RESULTS ensures AllowedForSync(r, resultsOnly) { GateIsFilter(r); }
  }

  lemma LatestAppend(since: Option<int>, rows: seq<Row>, r: Row)
    ensures Latest(since, rows + [r])
         == var l := Latest(since, rows); if r.stamp.Some? && (l.None? || r.stamp.value > l.value) then r.stamp else l
  {
    assert (rows + [r])[..|rows|] == rows;
  }

  /** One export run.  The limit applies to each model, the gate to each row behind it. */
  method BuildPayload(db: seq<Row>, labels: seq<string>, since: Option<int>, limit: int, resultsOnly: bool)
    returns (items: seq<Row>, latest: Option<int>)
    ensures items == Export(db, labels, since, limit)
    ensures latest == Latest(since, items)
  {
    hide Page, AllowedForSync, Latest;
    items, latest := [], since;
    NoRowsLatest(since);
    for k := 0 to |labels|
      invariant items + Export(db, labels[k..], since, limit) == Export(db, labels, since, limit)
      invariant latest == Latest(since, items)
    {
      var page := Page(db, labels[k], since, limit);
      GateDropsNothing(db, labels[k], since, limit, resultsOnly);
      ghost var before := items;
      for j := 0 to |page|
        invariant items == before + page[..j]
        invariant latest == Latest(since, items)
      {
        var r := page[j];
        assert r in page;
        if labels[k] in RESULTS && !AllowedForSync(r, resultsOnly) {
          continue;
        }
        LatestAppend(since, items, r);
        assert before + page[..j + 1] == (before + page[..j]) + [r];
        items := items + [r];
        if r.stamp.Some? && (latest.None? || r.stamp.value > latest.value) {
          latest := r.stamp;
        }
      }
      assert page[..|page|] == page;
      assert labels[k..][0] == labels[k] && labels[k..][1..] == labels[k + 1..];
      Regroup(before, page, Export(db, labels[k + 1..], since, limit));
    }
  }

  lemma NoRowsLatest(since: Option<int>) ensures Latest(since, []) == since { }

  // ------------------------------------------------------------------- the import

  /** The items an import applies: allowed model, and the upsert does not raise. */
  function Imported(items: seq<Row>, allowed: set<string>, broken: set<Key>): seq<Row>
    decreases |items|
  {
    if items == [] then []
    else
      var last := items[|items| - 1];
      Imported(items[..|items| - 1], allowed, broken)
      + (if last.model in allowed && KeyOf(last) !in broken then [last] else [])
  }

  function Applied(store: map<Key, Row>, items: seq<Row>): map<Key, Row>
    decreases |items|
  {
    if items == [] then store
    else Applied(store, items[..|items| - 1])[KeyOf(items[|items| - 1]) := items[|items| - 1]]
  }

  /** The receiving server. */
  class Receiver {
    var store: map<Key, Row>

    constructor (rows: map<Key, Row>)
      ensures store == rows
    {
      store := rows;
    }

    /** Upserts the items one by one.  An item whose model is not allowed is skipped and one
        whose upsert raises is counted; neither is written and neither moves the timestamp. */
    method Apply(items: seq<Row>, allowed: set<string>, broken: set<Key>)
      returns (imported: nat, skipped: nat, errors: nat, latest: Option<int>)
      modifies this
      ensures store == Applied(old(store), Imported(items, allowed, broken))
      ensures imported == |Imported(items, allowed, broken)|
      ensures imported + skipped + errors == |items|
      ensures errors == 0 <==> NoneBroken(items, allowed, broken)
      ensures latest == Latest(None, Imported(items, allowed, broken))
    {
      hide Latest, Applied, Imported, NoneBroken;
      imported, skipped, errors, latest := 0, 0, 0, None;
      NothingImported(store, items, allowed, broken);
      for k := 0 to |items|
        invariant store == Applied(old(store), Imported(items[..k], allowed, broken))
        invariant imported == |Imported(items[..k], allowed, broken)|
        invariant imported + skipped + errors == k
        invariant errors == 0 <==> NoneBroken(items[..k], allowed, broken)
        invariant latest == Latest(None, Imported(items[..k], allowed, broken))
      {
        var r := items[k];
        ghost var done := Imported(items[..k], allowed, broken);
        ImportStep(items, k, allowed, broken);
        if r.model !in allowed {
          skipped := skipped + 1;
        } else if KeyOf(r) in broken {
          errors := errors + 1;
        } else {
          AppliedAppend(old(store), done, r);
          LatestAppend(None, done, r);
          store := store[KeyOf(r) := r];
          imported := imported + 1;
          if r.stamp.Some? && (latest.None? || r.stamp.value > latest.value) {
            latest := r.stamp;
          }
        }
      }
      assert items[..|items|] == items;
    }
  }

  predicate NoneBroken(items: seq<Row>, allowed: set<string>, broken: set<Key>) {
    forall r :: r in items && r.model in allowed ==> KeyOf(r) !in broken
  }

  lemma NothingImported(store: map<Key, Row>, items: seq<Row>, allowed: set<string>, broken: set<Key>)
    ensures Imported(items[..0], allowed, broken) == [] && Applied(store, []) == store && Latest(None, []) == None
    ensures NoneBroken(items[..0], allowed, broken)
  {
  }

  lemma ImportStep(items: seq<Row>, k: nat, allowed: set<string>, broken: set<Key>)
    requires k < |items|
    ensures var taken := items[k].model in allowed && KeyOf(items[k]) !in broken;
      Imported(items[..k + 1], allowed, broken)
      == if taken then Imported(items[..k], allowed, broken) + [items[k]] else Imported(items[..k], allowed, broken)
    ensures NoneBroken(items[..k + 1], allowed, broken)
       <==> NoneBroken(items[..k], allowed, broken) && (items[k].model in allowed ==> KeyOf(items[k]) !in broken)
  {
    assert items[..k + 1] == items[..k] + [items[k]];
    assert items[..k + 1][..k] == items[..k];
  }

  lemma AppliedAppend(store: map<Key, Row>, items: seq<Row>, r: Row)
    ensures Applied(store, items + [r]) == Applied(store, items)[KeyOf(r) := r]
  {
    assert (items + [r])[..|items|] == items;
  }
}
