/**
  The manual updates as a protocol: the LAN server is edited, a run exports what is newer
  than the cursor, the cloud imports it, and the timestamp the import reports becomes the
  next cursor, whether or not items failed and also when there was none.
 */
module Replication {
  import opened Wrappers
  import opened ManualUpdates

  /** The LAN rows, the cloud rows, the saved cursor, and the latest timestamp handed out. */
  datatype System = System(db: seq<Row>, cloud: map<Key, Row>, cursor: Option<int>, clock: int)

  /** What a run is given: exported models, models the import accepts, the limit per model,
      and the keys whose upsert raises this time. */
  datatype Run = Run(labels: seq<string>, allowed: set<string>, limit: int, broken: set<Key>)

  predicate UniqueKeys(db: seq<Row>) {
    forall j, k :: 0 <= j < k < |db| ==> KeyOf(db[j]) != KeyOf(db[k])
  }

  function Delivered(db: seq<Row>, cursor: Option<int>, run: Run): seq<Row> {
    Imported(Export(db, run.labels, cursor, run.limit), run.allowed, run.broken)
  }

  function NextCursor(db: seq<Row>, cursor: Option<int>, run: Run): Option<int> {
    Latest(None, Delivered(db, cursor, run))
  }

  /** One run of the push (or pull) command. */
  function Sync(s: System, run: Run): System {
    s.(cloud := Applied(s.cloud, Delivered(s.db, s.cursor, run)), cursor := NextCursor(s.db, s.cursor, run))
  }

  /** The run in the source's own form: export, import, save the reported timestamp. */
  method RunSync(db: seq<Row>, cloud: Receiver, cursor: Option<int>, run: Run, resultsOnly: bool)
    returns (next: Option<int>)
    modifies cloud
    ensures forall clock :: System(db, cloud.store, next, clock)
                         == Sync(System(db, old(cloud.store), cursor, clock), run)
  {
    var items, latest := BuildPayload(db, run.labels, cursor, run.limit, resultsOnly);
    var imported, skipped, errors, reported := cloud.Apply(items, run.allowed, run.broken);
    next := reported;
  }

  /** The same columns.  The facts may belong to another record and are not sent. */
  predicate SameCopy(a: Row, b: Row) { a.(facts := b.facts) == b }

  predicate Current(cloud: map<Key, Row>, r: Row) {
    KeyOf(r) in cloud && SameCopy(cloud[KeyOf(r)], r)
  }

  predicate Tracked(r: Row, labels: seq<string>) {
    Eligible(r) && r.model in labels && r.stamp.Some?
  }

  /** Every tracked row up to the cursor is on the cloud in its current version. */
  predicate Synced(db: seq<Row>, cloud: map<Key, Row>, cursor: Option<int>, labels: seq<string>) {
    cursor.Some? ==>
      forall r :: r in db && Tracked(r, labels) && r.stamp.value <= cursor.value ==> Current(cloud, r)
  }

  // ------------------------------------------------------------ facts about one run

  lemma {:induction false} ImportedRows(items: seq<Row>, allowed: set<string>, broken: set<Key>)
    ensures forall r :: r in Imported(items, allowed, broken) <==>
              r in items && r.model in allowed && KeyOf(r) !in broken
  {
    if items != [] {
      var front := items[..|items| - 1];
      ImportedRows(front, allowed, broken);
      assert items == front + [items[|items| - 1]];
    }
  }

  lemma DeliveredRows(db: seq<Row>, cursor: Option<int>, run: Run)
    ensures forall r :: r in Delivered(db, cursor, run) <==>
              (r.model in run.labels && r in Page(db, r.model, cursor, run.limit)
               && r.model in run.allowed && KeyOf(r) !in run.broken)
    ensures forall r :: r in Delivered(db, cursor, run) ==> r in db && Exportable(r, r.model, cursor)
  {
    hide Page, Exportable;
    ImportedRows(Export(db, run.labels, cursor, run.limit), run.allowed, run.broken);
    ExportRows(db, run.labels, cursor, run.limit);
    forall r | r in Delivered(db, cursor, run) ensures r in db && Exportable(r, r.model, cursor) {
      PageRows(db, r.model, cursor, run.limit);
    }
  }

  lemma UniqueRow(db: seq<Row>, a: Row, b: Row)
    requires UniqueKeys(db) && a in db && b in db && KeyOf(a) == KeyOf(b)
    ensures a == b
  {
  }

  lemma {:induction false} AppliedCurrent(store: map<Key, Row>, items: seq<Row>, r: Row)
    requires r in items && forall x :: x in items && KeyOf(x) == KeyOf(r) ==> x == r
    ensures Current(Applied(store, items), r)
    decreases |items|
  {
    var front, last := items[..|items| - 1], items[|items| - 1];
    assert items == front + [last];
    if KeyOf(last) != KeyOf(r) {
      AppliedCurrent(store, front, r);
    }
  }

  lemma {:induction false} AppliedFrame(store: map<Key, Row>, items: seq<Row>, k: Key)
    requires forall x :: x in items ==> KeyOf(x) != k
    ensures k in Applied(store, items) <==> k in store
    ensures k in store ==> Applied(store, items)[k] == store[k]
    decreases |items|
  {
    if items != [] {
      assert items == items[..|items| - 1] + [items[|items| - 1]];
      AppliedFrame(store, items[..|items| - 1], k);
    }
  }

  lemma {:induction false} LatestIsLargest(since: Option<int>, rows: seq<Row>)
    ensures forall r :: r in rows && r.stamp.Some? ==>
              Latest(since, rows).Some? && r.stamp.value <= Latest(since, rows).value
    ensures since.Some? ==> Latest(since, rows).Some? && since.value <= Latest(since, rows).value
    ensures Latest(since, rows) == since || exists r :: r in rows && r.stamp == Latest(since, rows)
    decreases |rows|
  {
    if rows != [] {
      var front, last := rows[..|rows| - 1], rows[|rows| - 1];
      LatestIsLargest(since, front);
      assert rows == front + [last];
    }
  }

  /** A row that was current stays current over a run. */
  lemma StaysCurrent(db: seq<Row>, cloud: map<Key, Row>, cursor: Option<int>, run: Run, r: Row)
    requires UniqueKeys(db) && r in db && Current(cloud, r)
    ensures Current(Applied(cloud, Delivered(db, cursor, run)), r)
  {
    hide Delivered, Applied;
    DeliveredRows(db, cursor, run);
    var items := Delivered(db, cursor, run);
    forall x | x in items && KeyOf(x) == KeyOf(r) ensures x == r {
      UniqueRow(db, x, r);
    }
    if r in items {
      AppliedCurrent(cloud, items, r);
    } else {
      AppliedFrame(cloud, items, KeyOf(r));
    }
  }

  lemma BecomesCurrent(db: seq<Row>, cloud: map<Key, Row>, cursor: Option<int>, run: Run, r: Row)
    requires UniqueKeys(db) && r in Delivered(db, cursor, run)
    ensures Current(Applied(cloud, Delivered(db, cursor, run)), r)
  {
    hide Delivered, Applied;
    DeliveredRows(db, cursor, run);
    forall x | x in Delivered(db, cursor, run) && KeyOf(x) == KeyOf(r) ensures x == r {
      UniqueRow(db, x, r);
    }
    AppliedCurrent(cloud, Delivered(db, cursor, run), r);
  }

  // ------------------------------------------------ when a run is safe, exactly

  /** A tracked row newer than the cursor that the run does not deliver, because it is behind
      the limit of its model, its model is refused or its upsert raises, although the next
      cursor is not older than it. */
  predicate LeftBehind(db: seq<Row>, cursor: Option<int>, run: Run, r: Row) {
    && r in db && Tracked(r, run.labels) && Newer(r, cursor)
    && r !in Delivered(db, cursor, run)
    && NextCursor(db, cursor, run).Some?
    && r.stamp.value <= NextCursor(db, cursor, run).value
  }

  predicate NoneLeft(db: seq<Row>, cursor: Option<int>, run: Run) {
    forall r :: r in db ==> !LeftBehind(db, cursor, run, r)
  }

  lemma SafeRun(db: seq<Row>, cloud: map<Key, Row>, cursor: Option<int>, run: Run)
    requires UniqueKeys(db) && Synced(db, cloud, cursor, run.labels) && NoneLeft(db, cursor, run)
    ensures Synced(db, Applied(cloud, Delivered(db, cursor, run)), NextCursor(db, cursor, run), run.labels)
  {
    hide Delivered, Applied, NextCursor, UniqueKeys;
    var after, next := Applied(cloud, Delivered(db, cursor, run)), NextCursor(db, cursor, run);
    if next.Some? {
      forall r | r in db && Tracked(r, run.labels) && r.stamp.value <= next.value
        ensures Current(after, r)
      {
        assert !LeftBehind(db, cursor, run, r);
        if r in Delivered(db, cursor, run) {
          BecomesCurrent(db, cloud, cursor, run, r);
        } else {
          StaysCurrent(db, cloud, cursor, run, r);
        }
      }
    }
  }

  /** The rows up to the cursor and nothing else: a cloud that is just synced. */
  function JustSynced(db: seq<Row>, cursor: Option<int>): map<Key, Row>
    requires UniqueKeys(db)
    decreases |db|
  {
    if db == [] then map[]
    else
      var rest := JustSynced(db[1..], cursor);
      if cursor.Some? && db[0].stamp.Some? && db[0].stamp.value <= cursor.value then rest[KeyOf(db[0]) := db[0]] else rest
  }

  lemma {:induction false} JustSyncedRows(db: seq<Row>, cursor: Option<int>)
    requires UniqueKeys(db)
    ensures forall r :: r in db ==>
              (KeyOf(r) in JustSynced(db, cursor) <==>
               cursor.Some? && r.stamp.Some? && r.stamp.value <= cursor.value)
    ensures forall k :: k in JustSynced(db, cursor) ==> JustSynced(db, cursor)[k] in db && KeyOf(JustSynced(db, cursor)[k]) == k
    decreases |db|
  {
    if db != [] {
      var d := db[0];
      JustSyncedRows(db[1..], cursor);
      assert db == [d] + db[1..];
      var rest := JustSynced(db[1..], cursor);
      forall r | r in db[1..] ensures KeyOf(r) != KeyOf(d) {
      }
      forall k | k in rest ensures k != KeyOf(d) {
        assert rest[k] in db[1..];
      }
    }
  }

  lemma UnsafeRun(db: seq<Row>, cursor: Option<int>, run: Run, r: Row)
    requires UniqueKeys(db) && LeftBehind(db, cursor, run, r)
    ensures Synced(db, JustSynced(db, cursor), cursor, run.labels)
    ensures !Synced(db, Applied(JustSynced(db, cursor), Delivered(db, cursor, run)), NextCursor(db, cursor, run), run.labels)
  {
    hide Delivered, Applied, NextCursor, UniqueKeys, JustSynced;
    var cloud := JustSynced(db, cursor);
    JustSyncedRows(db, cursor);
    forall x | cursor.Some? && x in db && Tracked(x, run.labels) && x.stamp.value <= cursor.value
      ensures Current(cloud, x)
    {
      UniqueRow(db, cloud[KeyOf(x)], x);
    }
    DeliveredRows(db, cursor, run);
    forall x | x in Delivered(db, cursor, run) ensures KeyOf(x) != KeyOf(r) {
      if KeyOf(x) == KeyOf(r) { UniqueRow(db, x, r); }
    }
    AppliedFrame(cloud, Delivered(db, cursor, run), KeyOf(r));
    assert !Current(Applied(cloud, Delivered(db, cursor, run)), r);
  }

  // ------------------------------------------------------ the guard, on the tables

  /** A table has the timestamp column or it has not. */
  predicate OneShape(db: seq<Row>) {
    forall a, b :: a in db && b in db && a.model == b.model ==> (a.stamp.Some? <==> b.stamp.Some?)
  }

  /** The row is on the page of its model and its import goes through. */
  predicate GoesThrough(db: seq<Row>, cursor: Option<int>, run: Run, x: Row) {
    && x.model in run.labels && x.model in run.allowed && KeyOf(x) !in run.broken
    && x in Page(db, x.model, cursor, run.limit)
  }

  predicate OlderThan(x: Row, r: Row) { x.stamp.Some? && r.stamp.Some? ==> x.stamp.value < r.stamp.value }

  /** The first row that the limit cuts from any model is newer than every row that goes through. */
  predicate CutsAreNewer(db: seq<Row>, cursor: Option<int>, run: Run) {
    forall l, x :: l in run.labels && x in db && GoesThrough(db, cursor, run, x) ==>
      var q := Queryset(db, l, cursor); |q| > Clamp(run.limit) ==> OlderThan(x, q[Clamp(run.limit)])
  }

  /** Every row on a page whose model is refused or whose upsert raises is newer than every row
      that goes through. */
  predicate FailuresAreNewer(db: seq<Row>, cursor: Option<int>, run: Run) {
    forall r, x :: r in db && x in db && GoesThrough(db, cursor, run, x)
                   && r.model in run.labels && r in Page(db, r.model, cursor, run.limit)
                   && (r.model !in run.allowed || KeyOf(r) in run.broken) ==>
      OlderThan(x, r)
  }

  predicate SafeToPush(db: seq<Row>, cursor: Option<int>, run: Run) {
    CutsAreNewer(db, cursor, run) && FailuresAreNewer(db, cursor, run)
  }

  lemma GoesThroughIsDelivered(db: seq<Row>, cursor: Option<int>, run: Run)
    ensures forall x :: x in Delivered(db, cursor, run) <==> GoesThrough(db, cursor, run, x)
    ensures forall x :: GoesThrough(db, cursor, run, x) ==> x in db
  {
    hide Delivered, Page, Exportable;
    DeliveredRows(db, cursor, run);
  }

  lemma {:induction false} InsertDistinct(r: Row, s: seq<Row>)
    requires Distinct(s) && r !in s
    ensures Distinct(Insert(r, s)) && forall x :: x in Insert(r, s) <==> x == r || x in s
  {
    hide Before;
    if s != [] {
      assert s == [s[0]] + s[1..];
      if !Before(r, s[0]) {
        InsertDistinct(r, s[1..]);
        var t := Insert(r, s[1..]);
        assert s[0] !in s[1..];
        forall k | 0 <= k < |t| ensures t[k] != s[0] { assert t[k] in t; }
      }
    }
  }

  lemma {:induction false} SortDistinct(s: seq<Row>)
    requires Distinct(s)
    ensures Distinct(Sort(s)) && forall x :: x in Sort(s) <==> x in s
  {
    hide Insert;
    if s != [] {
      assert s == [s[0]] + s[1..] && s[0] !in s[1..];
      SortDistinct(s[1..]);
      InsertDistinct(s[0], Sort(s[1..]));
    }
  }

  /** The first row cut: it is tracked if its table has timestamps, it is not on the page, and no
      other row that is cut is older. */
  lemma FirstCut(db: seq<Row>, cursor: Option<int>, model: string, limit: int)
    requires UniqueKeys(db) && |Queryset(db, model, cursor)| > Clamp(limit)
    ensures var c := Queryset(db, model, cursor)[Clamp(limit)];
      && c in db && Exportable(c, model, cursor) && c !in Page(db, model, cursor, limit)
      && forall r :: r in db && Exportable(r, model, cursor) && r !in Page(db, model, cursor, limit) ==> Before(c, r)
  {
    hide Exportable, Clamp, Before;
    var q, n := Queryset(db, model, cursor), Clamp(limit);
    QuerysetRows(db, model, cursor);
    SelectSelects(db, model, cursor);
    SortDistinct(Select(db, model, cursor));
    assert q[n] in q;
    forall k | 0 <= k < n ensures q[k] in Page(db, model, cursor, limit) { assert q[..n][k] == q[k]; }
    forall r | r in db && Exportable(r, model, cursor) && r !in Page(db, model, cursor, limit) ensures Before(q[n], r) {
      var k :| 0 <= k < |q| && q[k] == r;
      if k == n { BeforeItself(r); }
    }
  }

  lemma BeforeItself(r: Row) ensures Before(r, r) { }

  lemma CutNeedsLength(db: seq<Row>, cursor: Option<int>, model: string, limit: int, r: Row)
    requires r in db && Exportable(r, model, cursor) && r !in Page(db, model, cursor, limit)
    ensures |Queryset(db, model, cursor)| > Clamp(limit)
  {
    hide Exportable, Clamp;
    QuerysetRows(db, model, cursor);
  }

  /** The guard on the tables says exactly that no row is left behind. */
  lemma GuardIsExact(db: seq<Row>, cursor: Option<int>, run: Run)
    requires UniqueKeys(db) && OneShape(db)
    ensures SafeToPush(db, cursor, run) <==> NoneLeft(db, cursor, run)
  {
    if SafeToPush(db, cursor, run) {
      forall r | r in db ensures !LeftBehind(db, cursor, run, r) {
        if LeftBehind(db, cursor, run, r) { GuardedIsNotLeft(db, cursor, run, r); }
      }
    }
    if NoneLeft(db, cursor, run) {
      NoneLeftGuards(db, cursor, run);
    }
  }

  /** Under the guard, what is not delivered is newer than what is. */
  lemma UndeliveredIsNewer(db: seq<Row>, cursor: Option<int>, run: Run, x: Row, r: Row)
    requires UniqueKeys(db) && OneShape(db) && SafeToPush(db, cursor, run)
    requires x in Delivered(db, cursor, run) && x.stamp.Some?
    requires r in db && Tracked(r, run.labels) && Newer(r, cursor) && r !in Delivered(db, cursor, run)
    ensures x.stamp.value < r.stamp.value
  {
    hide Delivered, Clamp, Page, Queryset, UniqueKeys, Newer;
    GoesThroughIsDelivered(db, cursor, run);
    assert x in db && GoesThrough(db, cursor, run, x);
    if r !in Page(db, r.model, cursor, run.limit) {
      CutNeedsLength(db, cursor, r.model, run.limit, r);
      FirstCut(db, cursor, r.model, run.limit);
      assert OlderThan(x, Queryset(db, r.model, cursor)[Clamp(run.limit)]);
    } else {
      assert OlderThan(x, r);
    }
  }

  lemma GuardedIsNotLeft(db: seq<Row>, cursor: Option<int>, run: Run, r: Row)
    requires UniqueKeys(db) && OneShape(db) && SafeToPush(db, cursor, run) && r in db
    ensures !LeftBehind(db, cursor, run, r)
  {
    hide Delivered, NextCursor, UniqueKeys, OneShape, SafeToPush, Newer;
    if Tracked(r, run.labels) && Newer(r, cursor) && r !in Delivered(db, cursor, run) && NextCursor(db, cursor, run).Some? {
      var x := LastDelivered(db, cursor, run);
      UndeliveredIsNewer(db, cursor, run, x, r);
    }
  }

  lemma NoneLeftGuards(db: seq<Row>, cursor: Option<int>, run: Run)
    requires UniqueKeys(db) && OneShape(db) && NoneLeft(db, cursor, run)
    ensures SafeToPush(db, cursor, run)
  {
    hide Delivered, Clamp, Page, NextCursor, Queryset, GoesThrough;
    GoesThroughIsDelivered(db, cursor, run);
    DeliveredRows(db, cursor, run);
    forall l, x | l in run.labels && x in db && GoesThrough(db, cursor, run, x) && |Queryset(db, l, cursor)| > Clamp(run.limit)
      ensures OlderThan(x, Queryset(db, l, cursor)[Clamp(run.limit)])
    {
      FirstCut(db, cursor, l, run.limit);
      var c := Queryset(db, l, cursor)[Clamp(run.limit)];
      assert !LeftBehind(db, cursor, run, c);
      if x.stamp.Some? { StampReached(db, cursor, run, x); }
    }
    forall r, x | r in db && x in db && GoesThrough(db, cursor, run, x)
                  && r.model in run.labels && r in Page(db, r.model, cursor, run.limit)
                  && (r.model !in run.allowed || KeyOf(r) in run.broken)
      ensures OlderThan(x, r)
    {
      PageRows(db, r.model, cursor, run.limit);
      assert !LeftBehind(db, cursor, run, r);
      if x.stamp.Some? { StampReached(db, cursor, run, x); }
    }
  }

  lemma StampReached(db: seq<Row>, cursor: Option<int>, run: Run, x: Row)
    requires x in Delivered(db, cursor, run) && x.stamp.Some?
    ensures NextCursor(db, cursor, run).Some? && x.stamp.value <= NextCursor(db, cursor, run).value
  {
    hide Delivered;
    LatestIsLargest(None, Delivered(db, cursor, run));
  }

  /** A run keeps every synced cloud synced if and only if, on the tables and pages before the
      run, every row that will go through is older than the first row cut from any model and
      than every row whose import will fail. */
  lemma RunSafeExactly(db: seq<Row>, cursor: Option<int>, run: Run)
    requires UniqueKeys(db) && OneShape(db)
    ensures SafeToPush(db, cursor, run) <==>
              forall cloud: map<Key, Row> :: Synced(db, cloud, cursor, run.labels) ==>
                Synced(db, Applied(cloud, Delivered(db, cursor, run)), NextCursor(db, cursor, run), run.labels)
  {
    hide Delivered, Applied, NextCursor, UniqueKeys, JustSynced, Synced, SafeToPush;
    GuardIsExact(db, cursor, run);
    if NoneLeft(db, cursor, run) {
      forall cloud: map<Key, Row> | Synced(db, cloud, cursor, run.labels)
        ensures Synced(db, Applied(cloud, Delivered(db, cursor, run)), NextCursor(db, cursor, run), run.labels)
      {
        SafeRun(db, cloud, cursor, run);
      }
    } else {
      var r :| r in db && LeftBehind(db, cursor, run, r);
      UnsafeRun(db, cursor, run, r);
    }
  }

  // ------------------------------------------------------ simple ways to be safe

  predicate Fits(db: seq<Row>, cursor: Option<int>, run: Run) {
    forall l :: l in run.labels ==> |Select(db, l, cursor)| <= Clamp(run.limit)
  }

  predicate NothingRaises(db: seq<Row>, run: Run) {
    && (forall l :: l in run.labels ==> l in run.allowed)
    && forall r :: r in db ==> KeyOf(r) !in run.broken
  }

  /** No page is full and nothing raises: everything newer is delivered. */
  lemma FittingRunDelivers(db: seq<Row>, cursor: Option<int>, run: Run)
    requires Fits(db, cursor, run) && NothingRaises(db, run)
    ensures forall r :: r in db && Eligible(r) && r.model in run.labels && Newer(r, cursor)
                   ==> r in Delivered(db, cursor, run)
    ensures NoneLeft(db, cursor, run)
  {
    hide Delivered, Clamp, Page, NextCursor;
    DeliveredRows(db, cursor, run);
    forall r | r in db && Eligible(r) && r.model in run.labels && Newer(r, cursor)
      ensures r in Delivered(db, cursor, run)
    {
      PageRows(db, r.model, cursor, run.limit);
    }
  }

  /** No two newer rows of the model share a timestamp. */
  predicate DistinctStamps(db: seq<Row>, model: string, cursor: Option<int>) {
    forall a, b :: a in db && b in db && Exportable(a, model, cursor) && Exportable(b, model, cursor) ==>
      (a.stamp.Some? && a.stamp == b.stamp ==> a == b)
  }

  /** A run of a single model is safe at any limit when no two newer rows share a timestamp. */
  lemma SingleModelSafe(db: seq<Row>, model: string, cursor: Option<int>, run: Run)
    requires run.labels == [model] && NothingRaises(db, run) && DistinctStamps(db, model, cursor)
    ensures NoneLeft(db, cursor, run)
  {
    hide Delivered, Clamp, NextCursor;
    var next := NextCursor(db, cursor, run);
    DeliveredRows(db, cursor, run);
    forall r | r in db && Tracked(r, run.labels) && Newer(r, cursor) && r !in Delivered(db, cursor, run) && next.Some?
      ensures r.stamp.value > next.value
    {
      var x := LastDelivered(db, cursor, run);
      CutBehind(db, model, cursor, run.limit, x, r);
    }
  }

  /** A run of a single model is safe exactly when its page does not end between two rows of one
      timestamp. */
  lemma SingleModelExactly(db: seq<Row>, model: string, cursor: Option<int>, run: Run)
    requires UniqueKeys(db) && OneShape(db) && run.labels == [model] && NothingRaises(db, run)
    ensures var q, n := Queryset(db, model, cursor), Clamp(run.limit);
      SafeToPush(db, cursor, run) <==> |q| <= n || OlderThan(q[n - 1], q[n])
  {
    hide UniqueKeys, Queryset, Clamp, Exportable;
    var q, n := Queryset(db, model, cursor), Clamp(run.limit);
    AtLeastOne(run.limit);
    QuerysetRows(db, model, cursor);
    assert model in run.labels;
    if |q| > n {
      assert q[n - 1] in q && q[n] in q && q[..n][n - 1] == q[n - 1];
      assert KeyOf(q[n - 1]) !in run.broken;
      ModelOf(db, model, cursor);
      assert GoesThrough(db, cursor, run, q[n - 1]);
      forall x | x in Page(db, model, cursor, run.limit) && OlderThan(q[n - 1], q[n]) ensures OlderThan(x, q[n]) {
        var k :| 0 <= k < n && q[..n][k] == x;
        assert x in q && (k < n - 1 ==> Before(q[k], q[n - 1]));
      }
    }
  }

  lemma AtLeastOne(limit: int) ensures Clamp(limit) >= 1 { }

  lemma ModelOf(db: seq<Row>, model: string, cursor: Option<int>)
    ensures forall r :: r in Queryset(db, model, cursor) ==> r.model == model
  {
    hide Queryset;
    QuerysetRows(db, model, cursor);
  }

  lemma LastDelivered(db: seq<Row>, cursor: Option<int>, run: Run) returns (x: Row)
    requires NextCursor(db, cursor, run).Some?
    ensures x in Delivered(db, cursor, run) && x.stamp == NextCursor(db, cursor, run)
  {
    LatestIsLargest(None, Delivered(db, cursor, run));
    x :| x in Delivered(db, cursor, run) && x.stamp == NextCursor(db, cursor, run);
  }

  /** A row behind the limit is not older than a row of the page. */
  lemma CutBehind(db: seq<Row>, model: string, cursor: Option<int>, limit: int, x: Row, r: Row)
    requires x in Page(db, model, cursor, limit) && r !in Page(db, model, cursor, limit)
    requires r in db && Exportable(r, model, cursor)
    ensures Stamp(x) <= Stamp(r)
  {
    QuerysetRows(db, model, cursor);
    var q, page := Queryset(db, model, cursor), Page(db, model, cursor, limit);
    var j :| 0 <= j < |page| && page[j] == x;
    var k :| 0 <= k < |q| && q[k] == r;
    assert q[j] == x && j < |page| <= k;
    assert Before(q[j], q[k]);
  }

  // ----------------------------------------------------------- runs that lose a row

  lemma OnePage(db: seq<Row>, model: string, limit: int)
    requires |Select(db, model, None)| == 1 && limit >= 1
    ensures Page(db, model, None, limit) == Select(db, model, None)
  {
    var s := Select(db, model, None);
    assert Sort(s) == Insert(s[0], []) == s;
  }

  /** The cursor moves over a row whose upsert raised: two sheets, the older one fails. */
  lemma FailedRowIsLost()
    ensures exists db: seq<Row>, run: Run, r: Row ::
              UniqueKeys(db) && Fits(db, None, run) && LeftBehind(db, None, run, r)
  {
    var m, n := "results.resultsheet", "finance.payment";
    var r, x := Row(m, 1, Some(1), SHOWN, 0), Row(n, 1, Some(2), SHOWN, 0);
    var db := [r, x];
    var run := Run([m, n], {m, n}, 250, {KeyOf(r)});
    hide Page, LeftBehind, Select, Eligible, Clamp;
    ShownIsEligible(r);
    ShownIsEligible(x);
    SelectTwo(r, x, m);
    SelectTwo(r, x, n);
    EnoughRoom();
    OnePage(db, m, 250);
    OnePage(db, n, 250);
    LosesOlder(db, run, r, x);
  }

  lemma EnoughRoom() ensures Clamp(250) == 250 { }

  lemma SelectTwo(r: Row, x: Row, model: string)
    ensures Select([r, x], model, None)
         == (if Exportable(r, model, None) then [r] else []) + (if Exportable(x, model, None) then [x] else [])
  {
    hide Exportable;
    assert [r, x][1..] == [x] && [x][1..] == [];
    assert Select([x], model, None) == if Exportable(x, model, None) then [x] else [];
  }

  lemma LosesOlder(db: seq<Row>, run: Run, r: Row, x: Row)
    requires r in db && Tracked(r, run.labels) && x.stamp.Some? && r.stamp.value <= x.stamp.value
    requires x.model in run.labels && x.model in run.allowed && KeyOf(x) !in run.broken
    requires x in Page(db, x.model, None, run.limit)
    requires KeyOf(r) in run.broken || r !in Page(db, r.model, None, run.limit)
    ensures LeftBehind(db, None, run, r)
  {
    hide Delivered, Page;
    DeliveredRows(db, None, run);
    LatestIsLargest(None, Delivered(db, None, run));
  }

  /** The cursor moves over rows behind the limit of one model when another model has a newer
      row: two sheets and a payment, one row a model. */
  lemma CutRowIsLost()
    ensures exists db: seq<Row>, run: Run, r: Row ::
              UniqueKeys(db) && NothingRaises(db, run) && LeftBehind(db, None, run, r)
  {
    var m, n := "results.resultsheet", "finance.payment";
    var a, r, x := Row(m, 1, Some(1), SHOWN, 0), Row(m, 2, Some(2), SHOWN, 0), Row(n, 1, Some(3), SHOWN, 0);
    var db := [a, r, x];
    var run := Run([m, n], {m, n}, 1, {});
    hide Page, LeftBehind, Select, Eligible;
    ShownIsEligible(a);
    ShownIsEligible(r);
    ShownIsEligible(x);
    SelectThree(a, r, x, m);
    SelectThree(a, r, x, n);
    OnePage(db, n, 1);
    FirstOfTwo(db, m, a, r);
    LosesOlder(db, run, r, x);
  }

  lemma SelectThree(a: Row, r: Row, x: Row, model: string)
    ensures Select([a, r, x], model, None)
         == (if Exportable(a, model, None) then [a] else []) + (if Exportable(r, model, None) then [r] else [])
            + (if Exportable(x, model, None) then [x] else [])
  {
    hide Exportable;
    assert [a, r, x][1..] == [r, x] && [r, x][1..] == [x] && [x][1..] == [];
    assert Select([x], model, None) == if Exportable(x, model, None) then [x] else [];
    assert Select([r, x], model, None) == (if Exportable(r, model, None) then [r] else []) + Select([x], model, None);
    assert Select([a, r, x], model, None) == (if Exportable(a, model, None) then [a] else []) + Select([r, x], model, None);
  }

  lemma FirstOfTwo(db: seq<Row>, model: string, a: Row, r: Row)
    requires Select(db, model, None) == [a, r] && Before(a, r)
    ensures Page(db, model, None, 1) == [a]
  {
    hide Select;
    assert [a, r][1..] == [r] && [r][1..] == [];
    assert Sort([]) == [] && Sort([r]) == Insert(r, []) == [r];
    assert Sort([a, r]) == Insert(a, [r]) == [a] + [r];
  }

  // ------------------------------------------------------------------- whole runs

  datatype Step =
    | Edit(model: string, pk: nat, facts: Facts, body: nat)   // a save, with a fresh timestamp if the table has one
    | Delete(model: string, pk: nat)
    | Reflag(model: string, pk: nat, facts: Facts)            // a save of the record that the facts belong to
    | Push(limit: int, broken: set<Key>)

  function Put(db: seq<Row>, r: Row): seq<Row> {
    if db == [] then [r]
    else if KeyOf(db[0]) == KeyOf(r) then [r] + db[1..]
    else [db[0]] + Put(db[1..], r)
  }

  function Remove(db: seq<Row>, k: Key): seq<Row> {
    if db == [] then [] else if KeyOf(db[0]) == k then db[1..] else [db[0]] + Remove(db[1..], k)
  }

  /** The status or type of these rows is a column of their own: it changes in a save of the row. */
  const OWN_STATUS: seq<string> :=
    ["results.resultsheet", "results.classresultcompilation", "dashboard.publicsitesubmission"]

  /** The sheet, the person or the submission behind a row changes; the row keeps its timestamp. */
  function Reflagged(db: seq<Row>, k: Key, facts: Facts): seq<Row> {
    if db == [] then []
    else [if KeyOf(db[0]) == k then db[0].(facts := facts) else db[0]] + Reflagged(db[1..], k, facts)
  }

  /** The change shows a row whose timestamp the cursor has passed and that is not on the cloud. */
  predicate ShownLate(s: System, k: Key, facts: Facts, labels: seq<string>) {
    exists r :: r in s.db && KeyOf(r) == k && Tracked(r.(facts := facts), labels)
                && s.cursor.Some? && r.stamp.value <= s.cursor.value && !Current(s.cloud, r)
  }

  /** The user table is the one without a timestamp column. */
  predicate HasStamps(model: string) { model != "accounts.user" }

  function Saved(model: string, pk: nat, facts: Facts, body: nat, now: int): Row {
    Row(model, pk, if HasStamps(model) then Some(now) else None, facts, body)
  }

  predicate ByTable(db: seq<Row>) { forall r :: r in db ==> (r.stamp.Some? <==> HasStamps(r.model)) }

  function Next(s: System, step: Step, labels: seq<string>, allowed: set<string>): System {
    match step
    case Edit(m, pk, f, b) => s.(db := Put(s.db, Saved(m, pk, f, b, s.clock + 1)), clock := s.clock + 1)
    case Delete(m, pk) => s.(db := Remove(s.db, (m, pk)))
    case Reflag(m, pk, f) => if m in OWN_STATUS then s else s.(db := Reflagged(s.db, (m, pk), f))
    case Push(limit, broken) => Sync(s, Run(labels, allowed, limit, broken))
  }

  /** The state after some steps. */
  function After(s: System, steps: seq<Step>, labels: seq<string>, allowed: set<string>): System
    decreases |steps|
  {
    if steps == [] then s
    else Next(After(s, steps[..|steps| - 1], labels, allowed), steps[|steps| - 1], labels, allowed)
  }

  /** Before each push on the way the guard holds on the tables, and no change of a status or a
      role shows a row too late. */
  predicate CarefulSteps(s: System, steps: seq<Step>, labels: seq<string>, allowed: set<string>)
    decreases |steps|
  {
    steps == [] ||
    (var before := After(s, steps[..|steps| - 1], labels, allowed);
     var step := steps[|steps| - 1];
     && CarefulSteps(s, steps[..|steps| - 1], labels, allowed)
     && (step.Push? ==> SafeToPush(before.db, before.cursor, Run(labels, allowed, step.limit, step.broken)))
     && (step.Reflag? && step.model !in OWN_STATUS ==> !ShownLate(before, (step.model, step.pk), step.facts, labels)))
  }

  predicate Inv(s: System, labels: seq<string>) {
    && UniqueKeys(s.db) && ByTable(s.db)
    && (forall r :: r in s.db && r.stamp.Some? ==> r.stamp.value <= s.clock)
    && (s.cursor.Some? ==> s.cursor.value <= s.clock)
    && Synced(s.db, s.cloud, s.cursor, labels)
  }

  lemma {:induction false} PutRows(db: seq<Row>, r: Row)
    requires UniqueKeys(db)
    ensures UniqueKeys(Put(db, r))
    ensures forall x :: x in Put(db, r) <==> x == r || (x in db && KeyOf(x) != KeyOf(r))
    decreases |db|
  {
    if db != [] {
      assert db == [db[0]] + db[1..];
      if KeyOf(db[0]) != KeyOf(r) {
        PutRows(db[1..], r);
        var p := Put(db[1..], r);
        forall k | 0 <= k < |p| ensures KeyOf(p[k]) != KeyOf(db[0]) {
          assert p[k] in p;
        }
      }
    }
  }

  lemma {:induction false} RemoveRows(db: seq<Row>, k: Key)
    requires UniqueKeys(db)
    ensures UniqueKeys(Remove(db, k))
    ensures forall x :: x in Remove(db, k) ==> x in db
    decreases |db|
  {
    if db != [] && KeyOf(db[0]) != k {
      RemoveRows(db[1..], k);
      var p := Remove(db[1..], k);
      forall j | 0 <= j < |p| ensures KeyOf(p[j]) != KeyOf(db[0]) {
        assert p[j] in p;
      }
    }
  }

  lemma {:induction false} ReflaggedRows(db: seq<Row>, k: Key, facts: Facts)
    requires UniqueKeys(db)
    ensures UniqueKeys(Reflagged(db, k, facts)) && |Reflagged(db, k, facts)| == |db|
    ensures forall i :: 0 <= i < |db| ==>
              Reflagged(db, k, facts)[i] == if KeyOf(db[i]) == k then db[i].(facts := facts) else db[i]
    decreases |db|
  {
    if db != [] {
      ReflaggedRows(db[1..], k, facts);
      assert forall i :: 1 <= i < |db| ==> db[i] == db[1..][i - 1];
    }
  }

  lemma ReflaggedRow(db: seq<Row>, k: Key, facts: Facts)
    requires UniqueKeys(db)
    ensures forall r :: r in Reflagged(db, k, facts) ==>
              if KeyOf(r) == k then exists x :: x in db && KeyOf(x) == k && r == x.(facts := facts) else r in db
    ensures forall x :: x in db ==> (if KeyOf(x) == k then x.(facts := facts) else x) in Reflagged(db, k, facts)
  {
    ReflaggedRows(db, k, facts);
    var f := Reflagged(db, k, facts);
    forall r | r in f ensures if KeyOf(r) == k then exists x :: x in db && KeyOf(x) == k && r == x.(facts := facts) else r in db {
      var i :| 0 <= i < |f| && f[i] == r;
      assert db[i] in db;
    }
    forall x | x in db ensures (if KeyOf(x) == k then x.(facts := facts) else x) in f {
      var i :| 0 <= i < |db| && db[i] == x;
      assert f[i] in f;
    }
  }

  /** A change of a status or a role without a new timestamp keeps a synced system synced if and
      only if it does not show a row late: one at or below the cursor that is not on the cloud. */
  lemma ReflagSafeExactly(s: System, k: Key, facts: Facts, labels: seq<string>)
    requires UniqueKeys(s.db) && Synced(s.db, s.cloud, s.cursor, labels)
    ensures Synced(Reflagged(s.db, k, facts), s.cloud, s.cursor, labels) <==> !ShownLate(s, k, facts, labels)
  {
    hide UniqueKeys, Reflagged, Eligible;
    ReflaggedRow(s.db, k, facts);
  }

  lemma CursorIsOld(s: System, run: Run)
    requires forall r :: r in s.db && r.stamp.Some? ==> r.stamp.value <= s.clock
    ensures var c := NextCursor(s.db, s.cursor, run); c.Some? ==> c.value <= s.clock
  {
    hide Delivered;
    DeliveredRows(s.db, s.cursor, run);
    LatestIsLargest(None, Delivered(s.db, s.cursor, run));
  }

  lemma StepKeepsInv(s: System, step: Step, labels: seq<string>, allowed: set<string>)
    requires Inv(s, labels)
    requires step.Push? ==> SafeToPush(s.db, s.cursor, Run(labels, allowed, step.limit, step.broken))
    requires step.Reflag? && step.model !in OWN_STATUS ==> !ShownLate(s, (step.model, step.pk), step.facts, labels)
    ensures Inv(Next(s, step, labels, allowed), labels)
  {
    hide UniqueKeys, Put, Remove, NoneLeft, SafeToPush, Delivered, Applied, Latest, HasStamps;
    match step
    case Edit(m, pk, f, b) => PutRows(s.db, Saved(m, pk, f, b, s.clock + 1));
    case Delete(m, pk) => RemoveRows(s.db, (m, pk));
    case Reflag(m, pk, f) =>
      if m !in OWN_STATUS {
        ReflaggedRows(s.db, (m, pk), f);
        ReflagSafeExactly(s, (m, pk), f, labels);
      }
    case Push(limit, broken) =>
      var run := Run(labels, allowed, limit, broken);
      GuardIsExact(s.db, s.cursor, run);
      SafeRun(s.db, s.cloud, s.cursor, run);
      CursorIsOld(s, run);
  }

  /** A score is published after a run has passed its timestamp: a score of an unpublished sheet,
      one of a published sheet, a push, then the publication of the first sheet. */
  lemma LatePublicationIsLost()
    ensures var m, hidden := "results.studentsubjectscore", Facts(false, true, true);
      var steps := [Edit(m, 1, hidden, 0), Edit(m, 2, SHOWN, 0), Push(250, {}), Reflag(m, 1, SHOWN)];
      var s := After(System([], map[], None, 0), steps, [m], {m});
      !Synced(s.db, s.cloud, s.cursor, [m])
  {
    var m, hidden := "results.studentsubjectscore", Facts(false, true, true);
    hide *;
    var s0 := System([], map[], None, 0);
    var e1, e2, p, f := Edit(m, 1, hidden, 0), Edit(m, 2, SHOWN, 0), Push(250, {}), Reflag(m, 1, SHOWN);
    var a, b := Row(m, 1, Some(1), hidden, 0), Row(m, 2, Some(2), SHOWN, 0);
    FourSteps(s0, e1, e2, p, f, [m], {m});
    ScoresNeedPublication(a, b);
    TwoSaves(m, hidden);
    PushAndShow(a, b);
  }

  lemma TwoSaves(m: string, hidden: Facts)
    requires HasStamps(m)
    ensures Next(Next(System([], map[], None, 0), Edit(m, 1, hidden, 0), [m], {m}), Edit(m, 2, SHOWN, 0), [m], {m})
         == System([Row(m, 1, Some(1), hidden, 0), Row(m, 2, Some(2), SHOWN, 0)], map[], None, 2)
  {
    hide HasStamps;
    var a, b := Row(m, 1, Some(1), hidden, 0), Row(m, 2, Some(2), SHOWN, 0);
    assert Put([], a) == [a] && Put([], b) == [b] && [a][1..] == [];
    assert Put([a], b) == [a] + Put([], b) == [a, b];
  }

  lemma ScoresNeedPublication(a: Row, b: Row)
    requires a.model == b.model == "results.studentsubjectscore" && !a.facts.published && b.facts == SHOWN
    ensures !Eligible(a) && Eligible(b) && Eligible(a.(facts := SHOWN)) && a.model !in OWN_STATUS && HasStamps(a.model)
  {
  }

  /** A row shown behind the cursor. */
  lemma PushAndShow(a: Row, b: Row)
    requires a.model == b.model && !Eligible(a) && Eligible(b) && Eligible(a.(facts := SHOWN)) && a.model !in OWN_STATUS
    requires a.pk == 1 && b.pk == 2 && a.stamp == Some(1) && b.stamp == Some(2)
    ensures var s := Next(Next(System([a, b], map[], None, 2), Push(250, {}), [a.model], {a.model}), Reflag(a.model, 1, SHOWN), [a.model], {a.model});
      !Synced(s.db, s.cloud, s.cursor, [a.model])
  {
    hide Eligible, Sync, Delivered, Applied, OWN_STATUS;
    OneOfTwoPushed(a, b);
    var s := Next(System([a, b], map[], None, 2), Push(250, {}), [a.model], {a.model});
    assert s == System([a, b], map[KeyOf(b) := b], Some(2), 2);
    assert a in s.db && Tracked(a.(facts := SHOWN), [a.model]) && !Current(s.cloud, a);
    assert ShownLate(s, KeyOf(a), SHOWN, [a.model]);
    ReflagSafeExactly(s, KeyOf(a), SHOWN, [a.model]);
  }

  lemma FourSteps(s: System, a: Step, b: Step, c: Step, d: Step, labels: seq<string>, allowed: set<string>)
    ensures After(s, [a, b, c, d], labels, allowed)
         == Next(Next(Next(Next(s, a, labels, allowed), b, labels, allowed), c, labels, allowed), d, labels, allowed)
  {
    hide Next;
    assert [a, b, c, d][..3] == [a, b, c] && [a, b, c][..2] == [a, b] && [a, b][..1] == [a] && [a][..0] == [];
    assert After(s, [], labels, allowed) == s;
    assert After(s, [a], labels, allowed) == Next(s, a, labels, allowed);
    assert After(s, [a, b], labels, allowed) == Next(After(s, [a], labels, allowed), b, labels, allowed);
    assert After(s, [a, b, c], labels, allowed) == Next(After(s, [a, b], labels, allowed), c, labels, allowed);
  }

  /** A push of one hidden and one shown row delivers the second alone. */
  lemma OneOfTwoPushed(a: Row, b: Row)
    requires a.model == b.model && !Eligible(a) && Eligible(b) && b.stamp.Some?
    ensures var run := Run([a.model], {a.model}, 250, {});
      Sync(System([a, b], map[], None, 2), run) == System([a, b], map[KeyOf(b) := b], b.stamp, 2)
  {
    hide *;
    var db, run := [a, b], Run([a.model], {a.model}, 250, {});
    OneOfTwoSelected(a, b);
    OnePage(db, a.model, 250);
    OneDelivered(db, b, run);
    OneApplied(b);
    assert Sync(System(db, map[], None, 2), run) == System(db, Applied(map[], [b]), Latest(None, [b]), 2) by {
      SyncIs(System(db, map[], None, 2), run);
    }
  }

  lemma SyncIs(s: System, run: Run)
    ensures Sync(s, run)
         == s.(cloud := Applied(s.cloud, Delivered(s.db, s.cursor, run)), cursor := Latest(None, Delivered(s.db, s.cursor, run)))
  {
  }

  lemma OneOfTwoSelected(a: Row, b: Row)
    requires a.model == b.model && !Eligible(a) && Eligible(b)
    ensures Select([a, b], a.model, None) == [b]
  {
    hide Eligible;
    assert [a, b][1..] == [b] && [b][1..] == [];
    assert Select([b], a.model, None) == [b];
  }

  lemma OneDelivered(db: seq<Row>, b: Row, run: Run)
    requires Page(db, b.model, None, run.limit) == [b] && run.labels == [b.model] && run.allowed == {b.model} && run.broken == {}
    ensures Delivered(db, None, run) == [b]
  {
    hide Page;
    assert run.labels[1..] == [];
    assert Export(db, [], None, run.limit) == [] && Export(db, run.labels, None, run.limit) == [b] + [];
    assert [b][..0] == [];
    assert Imported([], run.allowed, run.broken) == [];
  }

  lemma OneApplied(b: Row)
    requires b.stamp.Some?
    ensures Applied(map[], [b]) == map[KeyOf(b) := b] && Latest(None, [b]) == b.stamp
  {
    assert [b][..0] == [];
    assert Applied(map[], []) == map[] && Latest(None, []) == None;
  }

  /** In every reachable state, edits, deletions and pushes in any order, every tracked row up
      to the cursor is on the cloud in its current version, as long as the guard held before
      every push. */
  lemma {:induction false} ReplicationSafe(s: System, steps: seq<Step>, labels: seq<string>, allowed: set<string>)
    requires Inv(s, labels) && CarefulSteps(s, steps, labels, allowed)
    ensures Inv(After(s, steps, labels, allowed), labels)
    decreases |steps|
  {
    hide Inv, SafeToPush, Next;
    if steps != [] {
      ReplicationSafe(s, steps[..|steps| - 1], labels, allowed);
      StepKeepsInv(After(s, steps[..|steps| - 1], labels, allowed), steps[|steps| - 1], labels, allowed);
    }
  }

  /** No run, careful or not, writes a row of a model outside the allowed ones. */
  lemma {:induction false} OnlyAllowedModels(s: System, steps: seq<Step>, labels: seq<string>, allowed: set<string>, k: Key)
    requires k.0 !in allowed
    ensures k in After(s, steps, labels, allowed).cloud <==> k in s.cloud
    ensures k in s.cloud ==> After(s, steps, labels, allowed).cloud[k] == s.cloud[k]
    decreases |steps|
  {
    hide Delivered, Applied, Put, Remove;
    if steps != [] {
      OnlyAllowedModels(s, steps[..|steps| - 1], labels, allowed, k);
      var before, step := After(s, steps[..|steps| - 1], labels, allowed), steps[|steps| - 1];
      if step.Push? {
        var run := Run(labels, allowed, step.limit, step.broken);
        DeliveredRows(before.db, before.cursor, run);
        AppliedFrame(before.cloud, Delivered(before.db, before.cursor, run), k);
      }
    }
  }

  // ------------------------------------------------------------- the runs heal

  /** Every eligible row of the models is on the cloud in its current version. */
  predicate Complete(s: System, labels: seq<string>) {
    forall r :: r in s.db && Eligible(r) && r.model in labels ==> Current(s.cloud, r)
  }

  lemma CompleteStays(s: System, run: Run)
    requires UniqueKeys(s.db) && Complete(s, run.labels)
    ensures Complete(Sync(s, run), run.labels)
  {
    hide Delivered, Applied, UniqueKeys, NextCursor;
    forall r | r in s.db && Eligible(r) && r.model in run.labels
      ensures Current(Sync(s, run).cloud, r)
    {
      StaysCurrent(s.db, s.cloud, s.cursor, run, r);
    }
  }

  lemma FullExportCompletes(s: System, run: Run)
    requires UniqueKeys(s.db) && s.cursor.None? && Fits(s.db, None, run) && NothingRaises(s.db, run)
    ensures Complete(Sync(s, run), run.labels)
  {
    hide Delivered, Applied, UniqueKeys, NextCursor, Fits, NothingRaises;
    FittingRunDelivers(s.db, None, run);
    forall r | r in s.db && Eligible(r) && r.model in run.labels
      ensures Current(Sync(s, run).cloud, r)
    {
      BecomesCurrent(s.db, s.cloud, s.cursor, run, r);
    }
  }

  lemma {:induction false} SelectShrinks(db: seq<Row>, model: string, since: Option<int>)
    ensures |Select(db, model, since)| <= |Select(db, model, None)|
  {
    if db != [] {
      SelectShrinks(db[1..], model, since);
    }
  }

  lemma FitsLater(db: seq<Row>, cursor: Option<int>, run: Run)
    requires Fits(db, None, run)
    ensures Fits(db, cursor, run)
  {
    hide Select, Clamp;
    forall l | l in run.labels ensures |Select(db, l, cursor)| <= Clamp(run.limit) {
      SelectShrinks(db, l, cursor);
    }
  }

  /** After a complete delta, a run finds no newer stamped row and forgets the cursor. */
  lemma SecondRunForgets(s: System, run: Run)
    requires s.cursor.Some? && Fits(s.db, None, run) && NothingRaises(s.db, run)
    requires Sync(s, run).cursor.Some?
    ensures Sync(Sync(s, run), run).cursor.None?
  {
    hide Delivered, Applied, Fits, NothingRaises, Latest;
    var t := Sync(s, run);
    FitsLater(s.db, s.cursor, run);
    FittingRunDelivers(s.db, s.cursor, run);
    DeliveredRows(s.db, s.cursor, run);
    LatestIsLargest(None, Delivered(s.db, s.cursor, run));
    DeliveredRows(t.db, t.cursor, run);
    LatestIsLargest(None, Delivered(t.db, t.cursor, run));
  }

  /** Three runs without edits or failures repair any cloud, whatever was lost before, when
      the tables fit the limit: an empty delta resets the cursor, and the run after that
      exports everything. */
  lemma ThreeRunsHeal(s: System, run: Run)
    requires UniqueKeys(s.db) && Fits(s.db, None, run) && NothingRaises(s.db, run)
    ensures Complete(Sync(Sync(Sync(s, run), run), run), run.labels)
  {
    hide Delivered, Applied, Fits, NothingRaises, Complete, UniqueKeys;
    var one := Sync(s, run);
    var two := Sync(one, run);
    if s.cursor.None? {
      FullExportCompletes(s, run);
      CompleteStays(one, run);
      CompleteStays(two, run);
    } else if one.cursor.None? {
      FullExportCompletes(one, run);
      CompleteStays(two, run);
    } else {
      SecondRunForgets(s, run);
      FullExportCompletes(two, run);
    }
  }
}
