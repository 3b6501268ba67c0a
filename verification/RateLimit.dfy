/**
  The request rate limiter: a counter with a time to live, kept in a shared cache, that
  concurrent requests create, increment or (when the increment raises) read and rewrite.
 */
module RateLimit {
  import opened Wrappers

  /** A cache entry and the time from which it is gone. */
  datatype Entry = Entry(count: int, expires: int)

  predicate Live(e: Option<Entry>, now: int) { e.Some? && now < e.value.expires }

  /** The window of a rule; a missing or zero one counts as a minute. */
  function Window(configured: int): int { if configured == 0 then 60 else configured }

  // ------------------------------------------------------- one request after another

  /** The shared cache, each call atomic. */
  class Cache {
    var entries: map<string, Entry>

    constructor ()
      ensures entries == map[]
    {
      entries := map[];
    }

    ghost function At(key: string): Option<Entry>
      reads this
    {
      if key in entries then Some(entries[key]) else None
    }

    method Add(key: string, value: int, timeout: int, now: int) returns (created: bool)
      modifies this
      ensures created == !old(Live(At(key), now))
      ensures entries == if created then old(entries)[key := Entry(value, now + timeout)] else old(entries)
    {
      created := !(key in entries && now < entries[key].expires);
      if created {
        entries := entries[key := Entry(value, now + timeout)];
      }
    }

    /** The increment keeps the time to live; it raises when the key is gone, and on a
        backend without increments. */
    method Incr(key: string, now: int, supported: bool) returns (count: Option<int>)
      modifies this
      ensures count.Some? <==> supported && old(Live(At(key), now))
      ensures count.Some? ==> key in old(entries)
      ensures count.Some? ==> count.value == old(entries)[key].count + 1
      ensures count.Some? ==> entries == old(entries)[key := old(entries)[key].(count := count.value)]
      ensures count.None? ==> entries == old(entries)
    {
      if supported && key in entries && now < entries[key].expires {
        count := Some(entries[key].count + 1);
        entries := entries[key := entries[key].(count := count.value)];
      } else {
        count := None;
      }
    }

    method Get(key: string, now: int) returns (count: int)
      ensures count == if Live(At(key), now) then entries[key].count else 0
    {
      count := if key in entries && now < entries[key].expires then entries[key].count else 0;
    }

    method Set(key: string, value: int, timeout: int, now: int)
      modifies this
      ensures entries == old(entries)[key := Entry(value, now + timeout)]
    {
      entries := entries[key := Entry(value, now + timeout)];
    }

    /** `_consume_quota` for a request that runs alone: it behaves as the four steps of a
        process do, taken in a row, and touches no other key. */
    method ConsumeQuota(key: string, limit: int, configured: int, now: int, supported: bool)
      returns (allowed: bool)
      modifies this
      ensures limit <= 0 ==> allowed && entries == old(entries)
      ensures limit > 0 ==> (At(key), Done(allowed)) == Alone(old(At(key)), limit, Window(configured), now, supported)
      ensures forall k :: k != key ==> At(k) == old(At(k))
    {
      if limit <= 0 {
        return true;
      }
      var window := if configured == 0 then 60 else configured;
      var created := Add(key, 1, window, now);
      if created {
        return true;
      }
      var count := Incr(key, now, supported);
      if count.None? {
        var value := Get(key, now);
        count := Some(value + 1);
        Set(key, value + 1, window, now);
      }
      return count.value <= limit;
    }
  }

  // ------------------------------------------------------------- interleaved requests

  /** Where a request stands between its cache calls. */
  datatype Pc = Start | NeedIncr | NeedGet | NeedSet(value: int) | Done(allowed: bool)

  /** One cache call of a request at its turn. */
  function Turn(e: Option<Entry>, pc: Pc, limit: int, window: int, now: int, supported: bool): (Option<Entry>, Pc) {
    match pc
    case Start =>
      if Live(e, now) then (e, NeedIncr) else (Some(Entry(1, now + window)), Done(true))
    case NeedIncr =>
      if supported && Live(e, now)
      then (Some(e.value.(count := e.value.count + 1)), Done(e.value.count + 1 <= limit))
      else (e, NeedGet)
    case NeedGet => (e, NeedSet(if Live(e, now) then e.value.count else 0))
    case NeedSet(v) => (Some(Entry(v + 1, now + window)), Done(v + 1 <= limit))
    case Done(_) => (e, pc)
  }

  function Alone(e: Option<Entry>, limit: int, window: int, now: int, supported: bool): (Option<Entry>, Pc) {
    var (e1, p1) := Turn(e, Start, limit, window, now, supported);
    var (e2, p2) := Turn(e1, p1, limit, window, now, supported);
    var (e3, p3) := Turn(e2, p2, limit, window, now, supported);
    Turn(e3, p3, limit, window, now, supported)
  }

  /** The rule in force. */
  datatype Rule = Rule(limit: int, window: int)

  /** The scheduler lets request `p` make its next call at time `now`. */
  datatype Event = Event(p: nat, now: int, supported: bool)

  datatype System = System(entry: Option<Entry>, procs: map<nat, Pc>)

  function PcOf(s: System, p: nat): Pc { if p in s.procs then s.procs[p] else Start }

  function Step(s: System, ev: Event, rule: Rule): System {
    var (e, pc) := Turn(s.entry, PcOf(s, ev.p), rule.limit, rule.window, ev.now, ev.supported);
    System(e, s.procs[ev.p := pc])
  }

  function Exec(s: System, evs: seq<Event>, rule: Rule): System
    decreases |evs|
  {
    if evs == [] then s else Exec(Step(s, evs[0], rule), evs[1..], rule)
  }

  /** The request is answered at this event, and how. */
  predicate Answers(s: System, ev: Event, rule: Rule) {
    !PcOf(s, ev.p).Done? && PcOf(Step(s, ev, rule), ev.p).Done?
  }

  predicate Admits(s: System, ev: Event, rule: Rule) {
    Answers(s, ev, rule) && PcOf(Step(s, ev, rule), ev.p).allowed
  }

  /** The event starts a new entry where there was none alive. */
  predicate Creates(s: System, ev: Event) {
    (PcOf(s, ev.p).Start? || PcOf(s, ev.p).NeedSet?) && !Live(s.entry, ev.now)
  }

  /** The event overwrites a live counter with a value read before that counter changed. */
  predicate Stale(s: System, ev: Event) {
    PcOf(s, ev.p).NeedSet? && Live(s.entry, ev.now) && s.entry.value.count != PcOf(s, ev.p).value
  }

  function Count(b: bool): nat { if b then 1 else 0 }

  function Admitted(s: System, evs: seq<Event>, rule: Rule): nat
    decreases |evs|
  {
    if evs == [] then 0 else Count(Admits(s, evs[0], rule)) + Admitted(Step(s, evs[0], rule), evs[1..], rule)
  }

  function Answered(s: System, evs: seq<Event>, rule: Rule): nat
    decreases |evs|
  {
    if evs == [] then 0 else Count(Answers(s, evs[0], rule)) + Answered(Step(s, evs[0], rule), evs[1..], rule)
  }

  function Created(s: System, evs: seq<Event>, rule: Rule): nat
    decreases |evs|
  {
    if evs == [] then 0 else Count(Creates(s, evs[0])) + Created(Step(s, evs[0], rule), evs[1..], rule)
  }

  function StaleWrites(s: System, evs: seq<Event>, rule: Rule): nat
    decreases |evs|
  {
    if evs == [] then 0 else Count(Stale(s, evs[0])) + StaleWrites(Step(s, evs[0], rule), evs[1..], rule)
  }

  /** Counters are never negative, nor the values requests have read. */
  predicate Sane(s: System) {
    && (s.entry.Some? ==> s.entry.value.count >= 0)
    && forall p :: p in s.procs && s.procs[p].NeedSet? ==> s.procs[p].value >= 0
  }

  lemma StepSane(s: System, ev: Event, rule: Rule)
    requires Sane(s)
    ensures Sane(Step(s, ev, rule))
  {
  }

  // ------------------------------------------------------------------ the bound

  /** How many more requests the present counter can admit. */
  function Room(e: Option<Entry>, limit: int): nat {
    if e.Some? && e.value.count < limit then limit - e.value.count else 0
  }

  lemma StepBudget(s: System, ev: Event, rule: Rule)
    requires Sane(s) && rule.limit >= 1
    ensures Count(Admits(s, ev, rule)) + Room(Step(s, ev, rule).entry, rule.limit)
         <= Room(s.entry, rule.limit) + (if Creates(s, ev) || Stale(s, ev) then rule.limit else 0)
  {
    var pc := PcOf(s, ev.p);
    if pc.NeedSet? {
      assert pc.value >= 0;
    }
  }

  /** Over every interleaving: each entry lifetime, and each stale overwrite, admits at most
      `limit` requests. */
  lemma {:induction false} AdmittedBudget(s: System, evs: seq<Event>, rule: Rule)
    requires Sane(s) && rule.limit >= 1
    ensures Admitted(s, evs, rule) + Room(Exec(s, evs, rule).entry, rule.limit)
         <= Room(s.entry, rule.limit) + rule.limit * (Created(s, evs, rule) + StaleWrites(s, evs, rule))
    decreases |evs|
  {
    hide Admits, Creates, Stale, Room, Step, Sane;
    if evs != [] {
      var t := Step(s, evs[0], rule);
      StepSane(s, evs[0], rule);
      StepBudget(s, evs[0], rule);
      AdmittedBudget(t, evs[1..], rule);
      NotBoth(s, evs[0]);
      var c, w := Created(t, evs[1..], rule), StaleWrites(t, evs[1..], rule);
      var d := Count(Creates(s, evs[0])) + Count(Stale(s, evs[0]));
      assert rule.limit * (d + c + w) == rule.limit * d + rule.limit * (c + w);
    }
  }

  lemma NotBoth(s: System, ev: Event)
    ensures !(Creates(s, ev) && Stale(s, ev))
  {
  }

  /** Clocks do not run backwards, and all events are in `[from, from + length)`. */
  predicate Within(evs: seq<Event>, from: int, length: int) {
    && (forall k :: 0 <= k < |evs| ==> from <= evs[k].now < from + length)
    && forall j, k :: 0 <= j < k < |evs| ==> evs[j].now <= evs[k].now
  }

  /** A write inside a time span as long as the window lives to the end of the span. */
  lemma {:induction false} NoMoreCreations(s: System, evs: seq<Event>, rule: Rule, from: int)
    requires Within(evs, from, rule.window)
    requires s.entry.Some? && s.entry.value.expires >= from + rule.window
    ensures Created(s, evs, rule) == 0
    decreases |evs|
  {
    if evs != [] {
      assert forall k :: 0 <= k < |evs[1..]| ==> evs[1..][k] == evs[k + 1];
      NoMoreCreations(Step(s, evs[0], rule), evs[1..], rule, from);
    }
  }

  lemma {:induction false} AtMostOneCreation(s: System, evs: seq<Event>, rule: Rule, from: int)
    requires Within(evs, from, rule.window)
    ensures Created(s, evs, rule) <= 1
    decreases |evs|
  {
    if evs != [] {
      assert forall k :: 0 <= k < |evs[1..]| ==> evs[1..][k] == evs[k + 1];
      var t := Step(s, evs[0], rule);
      if Creates(s, evs[0]) {
        NoMoreCreations(t, evs[1..], rule, from);
      } else {
        AtMostOneCreation(t, evs[1..], rule, from);
      }
    }
  }

  /** The quota over every interleaving: in any span of time as long as the window, at most
      twice the limit is admitted, plus one limit for each stale overwrite. */
  lemma QuotaBound(s: System, evs: seq<Event>, rule: Rule, from: int)
    requires Sane(s) && rule.limit >= 1 && Within(evs, from, rule.window)
    ensures Admitted(s, evs, rule) <= rule.limit * (2 + StaleWrites(s, evs, rule))
  {
    hide *;
    AdmittedBudget(s, evs, rule);
    AtMostOneCreation(s, evs, rule, from);
    RoomBelowLimit(s, rule.limit);
    LimitTimes(rule.limit, Created(s, evs, rule), StaleWrites(s, evs, rule));
  }

  lemma LimitTimes(limit: int, c: nat, w: nat)
    requires limit >= 1 && c <= 1
    ensures limit * (c + w) + limit <= limit * (2 + w)
  {
    assert limit * (c + w) + limit == limit * (c + w + 1);
  }

  lemma RoomBelowLimit(s: System, limit: int)
    requires Sane(s) && limit >= 1
    ensures Room(s.entry, limit) <= limit
  {
  }

  // --------------------------------------------------- runs without stale overwrites

  /** Every increment finds its entry alive: atomic increments, and no expiry between the
      add and the increment of one request. */
  predicate NoFallback(s: System, evs: seq<Event>, rule: Rule)
    decreases |evs|
  {
    evs == [] ||
    ((PcOf(s, evs[0].p).NeedIncr? ==> evs[0].supported && Live(s.entry, evs[0].now))
     && NoFallback(Step(s, evs[0], rule), evs[1..], rule))
  }

  predicate NobodyFallsBack(s: System) {
    forall p :: p in s.procs ==> !s.procs[p].NeedGet? && !s.procs[p].NeedSet?
  }

  lemma {:induction false} NoFallbackNoStale(s: System, evs: seq<Event>, rule: Rule)
    requires NobodyFallsBack(s) && NoFallback(s, evs, rule)
    ensures StaleWrites(s, evs, rule) == 0
    decreases |evs|
  {
    if evs != [] {
      NoFallbackNoStale(Step(s, evs[0], rule), evs[1..], rule);
    }
  }

  /** A request that reads the counter rewrites it before anyone else moves. */
  predicate Undisturbed(s: System, evs: seq<Event>, rule: Rule)
    decreases |evs|
  {
    evs == [] ||
    ((PcOf(s, evs[0].p).NeedGet? && |evs| > 1 ==> evs[1].p == evs[0].p)
     && Undisturbed(Step(s, evs[0], rule), evs[1..], rule))
  }

  /** Nobody holds a read value, or only the next request does, and it was just read. */
  predicate FreshReads(s: System, evs: seq<Event>) {
    && (forall p :: p in s.procs && s.procs[p].NeedSet? ==> evs == [] || evs[0].p == p)
    && (evs != [] && PcOf(s, evs[0].p).NeedSet? && Live(s.entry, evs[0].now) ==>
          s.entry.value.count == PcOf(s, evs[0].p).value)
  }

  lemma {:induction false} UndisturbedNoStale(s: System, evs: seq<Event>, rule: Rule)
    requires FreshReads(s, evs) && Undisturbed(s, evs, rule)
    requires forall j, k :: 0 <= j < k < |evs| ==> evs[j].now <= evs[k].now
    ensures StaleWrites(s, evs, rule) == 0
    decreases |evs|
  {
    if evs != [] {
      var t := Step(s, evs[0], rule);
      assert forall k :: 0 <= k < |evs[1..]| ==> evs[1..][k] == evs[k + 1];
      assert |evs| > 1 ==> evs[0].now <= evs[1].now;
      UndisturbedNoStale(t, evs[1..], rule);
    }
  }

  /** With atomic increments and no expiry between one request's two calls, any span of time
      as long as the window admits at most twice the limit. */
  lemma QuotaBoundAtomic(s: System, evs: seq<Event>, rule: Rule, from: int)
    requires Sane(s) && NobodyFallsBack(s) && NoFallback(s, evs, rule)
    requires rule.limit >= 1 && Within(evs, from, rule.window)
    ensures Admitted(s, evs, rule) <= 2 * rule.limit
  {
    hide Sane, NobodyFallsBack, NoFallback, Within;
    NoFallbackNoStale(s, evs, rule);
    QuotaBound(s, evs, rule, from);
  }

  /** The same bound without increments at all, when reads and rewrites are not disturbed,
      although each rewrite starts the time to live again. */
  lemma QuotaBoundFallback(s: System, evs: seq<Event>, rule: Rule, from: int)
    requires Sane(s) && FreshReads(s, evs) && Undisturbed(s, evs, rule)
    requires rule.limit >= 1 && Within(evs, from, rule.window)
    ensures Admitted(s, evs, rule) <= 2 * rule.limit
  {
    hide Sane, FreshReads, Undisturbed;
    UndisturbedNoStale(s, evs, rule);
    QuotaBound(s, evs, rule, from);
  }

  // ------------------------------------------------------------ exactness of a lifetime

  function Min(a: int, b: int): int { if a <= b then a else b }

  /** From an entry on, while it lives and nothing stale is written, its counter counts the
      answered requests, and exactly those up to the limit are admitted: the n-th answer of
      the lifetime is yes if and only if n is at most the limit. */
  lemma {:induction false} LifetimeExact(s: System, evs: seq<Event>, rule: Rule)
    requires s.entry.Some? && Created(s, evs, rule) == 0 && StaleWrites(s, evs, rule) == 0
    ensures Exec(s, evs, rule).entry.Some?
    ensures Exec(s, evs, rule).entry.value.count == s.entry.value.count + Answered(s, evs, rule)
    ensures Admitted(s, evs, rule)
         == Min(rule.limit, Exec(s, evs, rule).entry.value.count) - Min(rule.limit, s.entry.value.count)
    decreases |evs|
  {
    if evs != [] {
      LifetimeExact(Step(s, evs[0], rule), evs[1..], rule);
    }
  }

  /** A lifetime admits exactly the smaller of the limit and the number of its requests. */
  lemma LifetimeAdmits(s: System, first: Event, evs: seq<Event>, rule: Rule)
    requires rule.limit >= 1 && PcOf(s, first.p).Start? && !Live(s.entry, first.now)
    requires Created(Step(s, first, rule), evs, rule) == 0 && StaleWrites(Step(s, first, rule), evs, rule) == 0
    ensures Admitted(s, [first] + evs, rule) == Min(rule.limit, Answered(s, [first] + evs, rule))
  {
    assert ([first] + evs)[1..] == evs;
    LifetimeExact(Step(s, first, rule), evs, rule);
  }

  /** Running one list of events and then another. */
  lemma {:induction false} RunConcat(s: System, a: seq<Event>, b: seq<Event>, rule: Rule)
    ensures Exec(s, a + b, rule) == Exec(Exec(s, a, rule), b, rule)
    ensures Admitted(s, a + b, rule) == Admitted(s, a, rule) + Admitted(Exec(s, a, rule), b, rule)
    ensures Answered(s, a + b, rule) == Answered(s, a, rule) + Answered(Exec(s, a, rule), b, rule)
    ensures Created(s, a + b, rule) == Created(s, a, rule) + Created(Exec(s, a, rule), b, rule)
    ensures StaleWrites(s, a + b, rule) == StaleWrites(s, a, rule) + StaleWrites(Exec(s, a, rule), b, rule)
    decreases |a|
  {
    hide Step, Admits, Answers, Creates, Stale;
    if a == [] {
      assert a + b == b;
    } else {
      assert (a + b)[1..] == a[1..] + b;
      RunConcat(Step(s, a[0], rule), a[1..], b, rule);
    }
  }

  lemma OneEvent(s: System, ev: Event, rule: Rule)
    ensures Exec(s, [ev], rule) == Step(s, ev, rule)
    ensures Admitted(s, [ev], rule) == Count(Admits(s, ev, rule))
    ensures Answered(s, [ev], rule) == Count(Answers(s, ev, rule))
    ensures Created(s, [ev], rule) == Count(Creates(s, ev))
    ensures StaleWrites(s, [ev], rule) == Count(Stale(s, ev))
  {
    hide Step, Admits, Answers, Creates, Stale;
    assert [ev][1..] == [];
  }

  /** The earliest answers of a lifetime are the admitted ones: behind the request that created
      the entry, an answer is yes if and only if no more than the limit have been given by then. */
  lemma LifetimeEarliestFirst(s: System, first: Event, evs: seq<Event>, rule: Rule, k: nat)
    requires rule.limit >= 1 && PcOf(s, first.p).Start? && !Live(s.entry, first.now) && k < |evs|
    requires Created(Step(s, first, rule), evs, rule) == 0 && StaleWrites(Step(s, first, rule), evs, rule) == 0
    ensures var t := Step(s, first, rule);
      && Admits(s, first, rule)
      && (Answers(Exec(t, evs[..k], rule), evs[k], rule) ==>
            (Admits(Exec(t, evs[..k], rule), evs[k], rule) <==> Answered(s, [first] + evs[..k + 1], rule) <= rule.limit))
  {
    hide *;
    var t := Step(s, first, rule);
    FirstIsAdmitted(s, first, rule);
    OneEvent(s, first, rule);
    assert evs == evs[..k] + ([evs[k]] + evs[k + 1..]) && evs[..k + 1] == evs[..k] + [evs[k]];
    RunConcat(t, evs[..k], [evs[k]] + evs[k + 1..], rule);
    var u := Exec(t, evs[..k], rule);
    RunConcat(u, [evs[k]], evs[k + 1..], rule);
    RunConcat(t, evs[..k], [evs[k]], rule);
    RunConcat(s, [first], evs[..k + 1], rule);
    OneEvent(u, evs[k], rule);
    LifetimeExact(t, evs[..k], rule);
    CountsOnce(Answers(u, evs[k], rule), Creates(u, evs[k]), Stale(u, evs[k]));
    if Answers(u, evs[k], rule) {
      AnswerCounts(u, evs[k], rule);
    }
  }

  lemma CountsOnce(a: bool, c: bool, d: bool)
    ensures Count(true) == 1 && (a ==> Count(a) == 1)
    ensures (Count(c) == 0 ==> !c) && (Count(d) == 0 ==> !d)
  {
  }

  lemma FirstIsAdmitted(s: System, first: Event, rule: Rule)
    requires rule.limit >= 1 && PcOf(s, first.p).Start? && !Live(s.entry, first.now)
    ensures Admits(s, first, rule) && Answers(s, first, rule)
    ensures Step(s, first, rule).entry.Some? && Step(s, first, rule).entry.value.count == 1
  {
  }

  lemma AnswerCounts(u: System, ev: Event, rule: Rule)
    requires u.entry.Some? && !Creates(u, ev) && !Stale(u, ev) && Answers(u, ev, rule)
    ensures Admits(u, ev, rule) <==> u.entry.value.count + 1 <= rule.limit
  {
  }

  // ------------------------------------------------------------- the bound needs care

  /** Requests `p` to `n` make their next call, one after the other. */
  function Round(p: nat, n: nat, now: int, supported: bool): seq<Event>
    decreases n - p
  {
    if p >= n then [] else [Event(p, now, supported)] + Round(p + 1, n, now, supported)
  }

  /** A call that leaves the cache alone and takes every waiting request from `a` to `b`. */
  predicate Waits(e: Option<Entry>, a: Pc, b: Pc, now: int, supported: bool) {
    match a
    case Start => Live(e, now) && b == NeedIncr
    case NeedIncr => !(supported && Live(e, now)) && b == NeedGet
    case NeedGet => b == NeedSet(if Live(e, now) then e.value.count else 0)
    case _ => false
  }

  lemma WaitingStep(s: System, p: nat, a: Pc, b: Pc, now: int, supported: bool, rule: Rule)
    requires Waits(s.entry, a, b, now, supported) && PcOf(s, p) == a
    ensures var t := Step(s, Event(p, now, supported), rule);
      && t.entry == s.entry && PcOf(t, p) == b && !Admits(s, Event(p, now, supported), rule)
      && forall q :: q != p ==> PcOf(t, q) == PcOf(s, q)
  {
  }

  lemma WritingStep(s: System, p: nat, v: int, now: int, supported: bool, rule: Rule)
    requires PcOf(s, p) == NeedSet(v) && v + 1 <= rule.limit
    ensures var t := Step(s, Event(p, now, supported), rule);
      Admits(s, Event(p, now, supported), rule) && forall q :: q != p ==> PcOf(t, q) == PcOf(s, q)
  {
  }

  lemma {:induction false} RoundOfWaits(s: System, p: nat, n: nat, a: Pc, b: Pc, now: int, supported: bool, rule: Rule)
    requires Waits(s.entry, a, b, now, supported) && forall q :: p <= q < n ==> PcOf(s, q) == a
    ensures var t := Exec(s, Round(p, n, now, supported), rule);
      t.entry == s.entry && (forall q :: p <= q < n ==> PcOf(t, q) == b)
    ensures forall q :: 0 <= q < p ==> PcOf(Exec(s, Round(p, n, now, supported), rule), q) == PcOf(s, q)
    ensures Admitted(s, Round(p, n, now, supported), rule) == 0
    decreases n - p
  {
    hide Waits, Step, PcOf, Admits;
    if p < n {
      var ev := Event(p, now, supported);
      var t := Step(s, ev, rule);
      WaitingStep(s, p, a, b, now, supported, rule);
      assert ([ev] + Round(p + 1, n, now, supported))[1..] == Round(p + 1, n, now, supported);
      RoundOfWaits(t, p + 1, n, a, b, now, supported, rule);
    }
  }

  lemma {:induction false} RoundOfWrites(s: System, p: nat, n: nat, v: int, now: int, supported: bool, rule: Rule)
    requires p <= n && v + 1 <= rule.limit && forall q :: p <= q < n ==> PcOf(s, q) == NeedSet(v)
    ensures Admitted(s, Round(p, n, now, supported), rule) == n - p
    decreases n - p
  {
    hide Step, PcOf, Admits;
    if p < n {
      var ev := Event(p, now, supported);
      WritingStep(s, p, v, now, supported, rule);
      assert ([ev] + Round(p + 1, n, now, supported))[1..] == Round(p + 1, n, now, supported);
      RoundOfWrites(Step(s, ev, rule), p + 1, n, v, now, supported, rule);
    }
  }

  lemma {:induction false} RoundNow(p: nat, n: nat, now: int, supported: bool)
    ensures forall k :: 0 <= k < |Round(p, n, now, supported)| ==> Round(p, n, now, supported)[k].now == now
    decreases n - p
  {
    if p < n { RoundNow(p + 1, n, now, supported); }
  }

  /** Three rounds at one moment: the increments fail, all requests read the same value, and all
      write one more. */
  function Race(n: nat, now: int, supported: bool): seq<Event> {
    Round(0, n, now, supported) + (Round(0, n, now, supported) + Round(0, n, now, supported))
  }

  lemma RaceWithin(n: nat, now: int, supported: bool, from: int, length: int)
    requires from <= now < from + length
    ensures Within(Race(n, now, supported), from, length)
  {
    RoundNow(0, n, now, supported);
  }

  /** What the requests of a race read. */
  function Seen(e: Option<Entry>, now: int): int { if Live(e, now) then e.value.count else 0 }

  lemma RaceIsRounds(e: Option<Entry>, n: nat, now: int, supported: bool)
    ensures var r := Round(0, n, now, supported); Race(n, now, supported) == r + (r + r)
    ensures !(supported && Live(e, now)) ==> Waits(e, NeedIncr, NeedGet, now, supported)
    ensures Waits(e, NeedGet, NeedSet(Seen(e, now)), now, supported)
  {
  }

  lemma RaceAdmitsAll(s: System, n: nat, now: int, supported: bool, rule: Rule)
    requires forall q :: 0 <= q < n ==> PcOf(s, q) == NeedIncr
    requires !(supported && Live(s.entry, now)) && Seen(s.entry, now) < rule.limit
    ensures Admitted(s, Race(n, now, supported), rule) == n
  {
    hide *;
    var r, v := Round(0, n, now, supported), Seen(s.entry, now);
    RaceIsRounds(s.entry, n, now, supported);
    RoundOfWaits(s, 0, n, NeedIncr, NeedGet, now, supported, rule);
    var t := Exec(s, r, rule);
    RoundOfWaits(t, 0, n, NeedGet, NeedSet(v), now, supported, rule);
    RoundOfWrites(Exec(t, r, rule), 0, n, v, now, supported, rule);
    RunConcat(s, r, r + r, rule);
    RunConcat(t, r, r, rule);
  }

  /** A request creates the entry, and `n` others find it there at time `now`. */
  lemma Gathered(rule: Rule, n: nat, now: int) returns (before: seq<Event>)
    requires 0 <= now < rule.window
    ensures var s := Exec(System(None, map[]), before, rule);
      s.entry == Some(Entry(1, rule.window)) && forall q :: 0 <= q < n ==> PcOf(s, q) == NeedIncr
  {
    var first := Event(n, 0, true);
    before := [first] + Round(0, n, now, true);
    var s := Step(System(None, map[]), first, rule);
    assert s.entry == Some(Entry(1, rule.window));
    OneEvent(System(None, map[]), first, rule);
    RunConcat(System(None, map[]), [first], Round(0, n, now, true), rule);
    RoundOfWaits(s, 0, n, Start, NeedIncr, now, true, rule);
  }

  /** When the entry can expire between the add and the increment of a request, no rule bounds
      what is admitted: for every rule and every number of requests, some run from an empty cache
      goes on to admit all of them at one moment, although increments are atomic. */
  lemma ExpiryRaceAdmitsAll(rule: Rule, n: nat)
    requires rule.limit >= 1 && rule.window >= 1
    ensures exists before: seq<Event>, evs: seq<Event> ::
              Within(evs, rule.window, rule.window) && (forall k :: 0 <= k < |evs| ==> evs[k].supported)
              && Admitted(Exec(System(None, map[]), before, rule), evs, rule) == n
  {
    var before := Gathered(rule, n, rule.window - 1);
    RaceAdmitsAll(Exec(System(None, map[]), before, rule), n, rule.window, true, rule);
    RaceWithin(n, rule.window, true, rule.window, rule.window);
    RoundSupported(0, n, rule.window, true);
    assert forall k :: 0 <= k < |Race(n, rule.window, true)| ==> Race(n, rule.window, true)[k].supported;
  }

  lemma {:induction false} RoundSupported(p: nat, n: nat, now: int, supported: bool)
    ensures forall k :: 0 <= k < |Round(p, n, now, supported)| ==> Round(p, n, now, supported)[k].supported == supported
    decreases n - p
  {
    if p < n { RoundSupported(p + 1, n, now, supported); }
  }

  /** So "no expiry inside a request" is needed for the bound under every rule. */
  lemma ExpiryRaceExceedsTwice(rule: Rule)
    requires rule.limit >= 1 && rule.window >= 1
    ensures exists before: seq<Event>, evs: seq<Event> ::
              Within(evs, rule.window, rule.window)
              && Admitted(Exec(System(None, map[]), before, rule), evs, rule) > 2 * rule.limit
  {
    ExpiryRaceAdmitsAll(rule, 2 * rule.limit + 1);
  }

  /** Nor is the fallback bounded when reads and rewrites interleave, for any limit above one. */
  lemma StaleRaceAdmitsAll(rule: Rule, n: nat)
    requires rule.limit >= 2 && rule.window >= 1
    ensures exists before: seq<Event>, evs: seq<Event> ::
              Within(evs, 0, rule.window)
              && Admitted(Exec(System(None, map[]), before, rule), evs, rule) == n
  {
    var before := Gathered(rule, n, 0);
    RaceAdmitsAll(Exec(System(None, map[]), before, rule), n, 0, false, rule);
    RaceWithin(n, 0, false, 0, rule.window);
  }
}
