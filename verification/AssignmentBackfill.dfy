/**
  Filling in the teacher assignments of imported result sheets.  Each sheet without an active
  assignment copies a teacher from elsewhere in the session; an assignment created for one
  sheet can be the source for a later one.
 */
module AssignmentBackfill {

  datatype Term = First | Second | Third

  /** An active assignment has one teacher per subject, class and term of the session. */
  datatype Key = Key(subject: nat, level: nat, term: Term)

  type Teacher = nat

  // `order_by("-term__name")` compares the names FIRST, SECOND and THIRD
  function Rank(t: Term): nat {
    match t case First => 0 case Second => 1 case Third => 2
  }

  predicate Taught(active: map<Key, Teacher>, subject: nat) { exists k :: k in active && k.subject == subject }

  /** The assignment is one of its subject in the latest term in which the subject is taught. */
  ghost predicate IsLatest(active: map<Key, Teacher>, source: Key) {
    source in active && forall k :: k in active && k.subject == source.subject ==> Rank(k.term) <= Rank(source.term)
  }

  /** Where the teacher of a created assignment comes from, in terms of the assignments that
      were there before the pass. */
  ghost predicate Origin(before: map<Key, Teacher>, k: Key, teacher: Teacher) {
    if k.term == First && k.(term := Second) in before then teacher == before[k.(term := Second)]
    else if k.(term := Third) in before then teacher == before[k.(term := Third)]
    else exists source :: IsLatest(before, source) && source.subject == k.subject && before[source] == teacher
  }

  /** How many of the sheets belong to a subject that nobody teaches. */
  ghost function Orphans(before: map<Key, Teacher>, sheets: seq<Key>): nat {
    if sheets == [] then 0
    else Orphans(before, sheets[..|sheets| - 1]) + if Taught(before, sheets[|sheets| - 1].subject) then 0 else 1
  }

  /** The keys that a pass creates. */
  function Missing(before: map<Key, Teacher>, sheets: seq<Key>): (s: set<Key>)
    ensures forall k :: k in s <==> k in sheets && k !in before && Taught(before, k.subject)
  {
    set k | k in sheets && k !in before && Taught(before, k.subject)
  }

  ghost predicate Kept(before: map<Key, Teacher>, after: map<Key, Teacher>) {
    forall k :: k in before ==> k in after && after[k] == before[k]
  }

  ghost predicate Sourced(before: map<Key, Teacher>, made: set<Key>, after: map<Key, Teacher>) {
    forall k :: k in made ==> k in after && Origin(before, k, after[k])
  }

  /** What one pass over the sheets does, whatever their order. */
  ghost predicate Pass(before: map<Key, Teacher>, sheets: seq<Key>, after: map<Key, Teacher>, created: nat, unresolved: nat) {
    && after.Keys == before.Keys + Missing(before, sheets)
    && Kept(before, after)
    && Sourced(before, Missing(before, sheets), after)
    && created == |Missing(before, sheets)|
    && unresolved == Orphans(before, sheets)
  }

  /** The source rules: the same class in the second term (for first-term sheets), the same class
      in the third term, or any assignment in the latest term in which the subject is taught. */
  ghost predicate IsSource(now: map<Key, Teacher>, sheet: Key, source: Key) {
    if sheet.term == First && sheet.(term := Second) in now then source == sheet.(term := Second)
    else if sheet.(term := Third) in now then source == sheet.(term := Third)
    else source.subject == sheet.subject && IsLatest(now, source)
  }

  /** One turn of the loop, with any of the sources that tie. */
  ghost predicate Turn(now: map<Key, Teacher>, sheet: Key, next: map<Key, Teacher>) {
    if sheet in now || !Taught(now, sheet.subject) then next == now
    else exists source :: IsSource(now, sheet, source) && source in now && next == now[sheet := now[source]]
  }

  /** Some run over the sheets, one after the other, ends with these assignments. */
  ghost predicate Reaches(before: map<Key, Teacher>, sheets: seq<Key>, after: map<Key, Teacher>) {
    if sheets == [] then after == before
    else
      var sheet := sheets[|sheets| - 1];
      exists now :: Reaches(before, sheets[..|sheets| - 1], now) && Turn(now, sheet, after)
  }

  class Assignments {
    var active: map<Key, Teacher>

    constructor (active: map<Key, Teacher>)
      ensures this.active == active
    {
      this.active := active;
    }

    /** The source of one sheet: the same class in the second term (for first-term sheets), the
        same class in the third term, or the latest term in which the subject is taught. */
    method Source(sheet: Key) returns (found: bool, source: Key)
      ensures found <==> Taught(active, sheet.subject)
      ensures found ==> source in active && IsSource(active, sheet, source)
    {
      source := sheet;
      if sheet.term == First && sheet.(term := Second) in active {
        return true, sheet.(term := Second);
      }
      if sheet.(term := Third) in active {
        return true, sheet.(term := Third);
      }
      var candidates := set k | k in active && k.subject == sheet.subject;
      assert forall k :: k in active && k.subject == sheet.subject ==> k in candidates;
      if candidates == {} {
        return false, sheet;
      }
      LatestExists(candidates);
      var latest :| latest in candidates && forall k :: k in candidates ==> Rank(k.term) <= Rank(latest.term);
      return true, latest;
    }

    /** `sync_historical_teacher_assignments` */
    method Backfill(sheets: seq<Key>) returns (created: nat, unresolved: nat)
      requires forall s :: s in sheets ==> s.term != Third
      modifies this
      ensures Pass(old(active), sheets, active, created, unresolved)
      ensures Reaches(old(active), sheets, active)
    {
      ghost var before := active;
      created, unresolved := 0, 0;
      for i := 0 to |sheets|
        invariant Pass(before, sheets[..i], active, created, unresolved)
        invariant Reaches(before, sheets[..i], active)
      {
        var sheet := sheets[i];
        assert sheets[..i + 1] == sheets[..i] + [sheet];
        hide Origin, Taught, Reaches, Pass, IsSource;
        SubjectsStay(before, sheets[..i], active, created, unresolved, sheet.subject);
        if sheet in active {
          NothingToDo(before, sheets[..i], active, created, unresolved, sheet);
          OneTurn(before, sheets[..i], active, sheet, active);
          continue;
        }
        var found, source := Source(sheet);
        if !found {
          NoSource(before, sheets[..i], active, created, unresolved, sheet);
          OneTurn(before, sheets[..i], active, sheet, active);
          unresolved := unresolved + 1;
          continue;
        }
        SourceHasOrigin(before, sheets[..i], active, created, unresolved, sheet, source);
        OneCreated(before, sheets[..i], active, created, unresolved, sheet, active[source]);
        OneTurn(before, sheets[..i], active, sheet, active[sheet := active[source]]);
        active := active[sheet := active[source]];
        created := created + 1;
      }
      assert sheets[..|sheets|] == sheets;
    }
  }

  lemma LatestExists(candidates: set<Key>)
    requires candidates != {}
    ensures exists latest :: latest in candidates && forall k :: k in candidates ==> Rank(k.term) <= Rank(latest.term)
  {
    if third :| third in candidates && third.term == Third {
      assert forall k :: k in candidates ==> Rank(k.term) <= Rank(third.term);
    } else if second :| second in candidates && second.term == Second {
      assert forall k :: k in candidates ==> Rank(k.term) <= Rank(second.term);
    } else {
      var first :| first in candidates;
      assert forall k :: k in candidates ==> Rank(k.term) <= Rank(first.term);
    }
  }

  lemma OneTurn(before: map<Key, Teacher>, sheets: seq<Key>, now: map<Key, Teacher>, sheet: Key, next: map<Key, Teacher>)
    requires Reaches(before, sheets, now) && Turn(now, sheet, next)
    ensures Reaches(before, sheets + [sheet], next)
  {
    hide Turn;
    var all := sheets + [sheet];
    assert all[..|all| - 1] == sheets && all[|all| - 1] == sheet;
  }

  /** Created assignments add no subject. */
  lemma SubjectsStay(before: map<Key, Teacher>, sheets: seq<Key>, after: map<Key, Teacher>, created: nat, unresolved: nat, subject: nat)
    requires Pass(before, sheets, after, created, unresolved)
    ensures Taught(after, subject) <==> Taught(before, subject)
  {
    if Taught(after, subject) {
      var k :| k in after && k.subject == subject;
      assert k in after.Keys;
    }
    if Taught(before, subject) {
      var k :| k in before && k.subject == subject;
      assert k in before.Keys && k in after.Keys;
    }
  }

  lemma NothingToDo(before: map<Key, Teacher>, sheets: seq<Key>, after: map<Key, Teacher>, created: nat, unresolved: nat, sheet: Key)
    requires Pass(before, sheets, after, created, unresolved) && sheet in after
    requires Taught(after, sheet.subject) <==> Taught(before, sheet.subject)
    ensures Pass(before, sheets + [sheet], after, created, unresolved)
  {
    hide Taught, Origin;
    assert (sheets + [sheet])[..|sheets|] == sheets;
    assert Taught(after, sheet.subject) by { KeyTaught(after, sheet); }
    assert sheet in after.Keys;
    assert Missing(before, sheets + [sheet]) == Missing(before, sheets);
  }

  lemma KeyTaught(active: map<Key, Teacher>, k: Key)
    requires k in active
    ensures Taught(active, k.subject)
  {
  }

  lemma NoSource(before: map<Key, Teacher>, sheets: seq<Key>, after: map<Key, Teacher>, created: nat, unresolved: nat, sheet: Key)
    requires Pass(before, sheets, after, created, unresolved) && !Taught(before, sheet.subject)
    ensures Pass(before, sheets + [sheet], after, created, unresolved + 1)
  {
    hide Taught, Origin;
    assert (sheets + [sheet])[..|sheets|] == sheets;
    assert Missing(before, sheets + [sheet]) == Missing(before, sheets);
  }

  lemma OneMoreSheet(before: map<Key, Teacher>, sheets: seq<Key>, sheet: Key)
    ensures Orphans(before, sheets + [sheet]) == Orphans(before, sheets) + if Taught(before, sheet.subject) then 0 else 1
    ensures Missing(before, sheets + [sheet])
         == if sheet !in before && Taught(before, sheet.subject) then Missing(before, sheets) + {sheet} else Missing(before, sheets)
  {
    hide Taught;
    assert (sheets + [sheet])[..|sheets|] == sheets;
  }

  lemma OneCreated(before: map<Key, Teacher>, sheets: seq<Key>, after: map<Key, Teacher>, created: nat, unresolved: nat,
                   sheet: Key, teacher: Teacher)
    requires Pass(before, sheets, after, created, unresolved) && sheet !in after
    requires Taught(before, sheet.subject) && Origin(before, sheet, teacher)
    ensures Pass(before, sheets + [sheet], after[sheet := teacher], created + 1, unresolved)
  {
    hide Taught, Origin, Orphans, Missing, Kept, Sourced;
    var missing := Missing(before, sheets);
    OneMoreSheet(before, sheets, sheet);
    OneMoreKey(before.Keys, missing, after, sheet, teacher);
    MoreKept(before, missing, after, sheet, teacher);
  }

  lemma OneMoreKey(known: set<Key>, missing: set<Key>, after: map<Key, Teacher>, sheet: Key, teacher: Teacher)
    requires after.Keys == known + missing && sheet !in after
    ensures sheet !in known && |missing + {sheet}| == |missing| + 1
    ensures after[sheet := teacher].Keys == known + (missing + {sheet})
  {
    assert sheet !in after.Keys;
  }

  lemma MoreKept(before: map<Key, Teacher>, made: set<Key>, after: map<Key, Teacher>, sheet: Key, teacher: Teacher)
    requires Kept(before, after) && Sourced(before, made, after) && sheet !in after && Origin(before, sheet, teacher)
    ensures Kept(before, after[sheet := teacher]) && Sourced(before, made + {sheet}, after[sheet := teacher])
  {
    hide Origin;
  }

  /** Every assignment in the middle of the pass was there before, unchanged, or has its origin
      there; the third term never changes. */
  lemma NowFromBefore(before: map<Key, Teacher>, sheets: seq<Key>, now: map<Key, Teacher>, created: nat, unresolved: nat, k: Key)
    requires Pass(before, sheets, now, created, unresolved) && forall s :: s in sheets ==> s.term != Third
    ensures k in before ==> k in now && now[k] == before[k]
    ensures k in now && k !in before ==> k.term != Third && Origin(before, k, now[k])
  {
    hide Taught, Orphans, Origin;
    assert k in before ==> k in before.Keys && k in now.Keys;
    assert k in now ==> k in now.Keys;
  }

  /** A source found in the middle of the pass still goes back to the assignments before it. */
  lemma SourceHasOrigin(before: map<Key, Teacher>, sheets: seq<Key>, now: map<Key, Teacher>, created: nat, unresolved: nat,
                        sheet: Key, source: Key)
    requires Pass(before, sheets, now, created, unresolved) && forall s :: s in sheets ==> s.term != Third
    requires sheet !in now && sheet.term != Third && source in now && IsSource(now, sheet, source)
    ensures Origin(before, sheet, now[source])
  {
    hide Pass;
    NowFromBefore(before, sheets, now, created, unresolved, sheet.(term := Second));
    NowFromBefore(before, sheets, now, created, unresolved, sheet.(term := Third));
    NowFromBefore(before, sheets, now, created, unresolved, source);
    if !(sheet.term == First && sheet.(term := Second) in now) && sheet.(term := Third) !in now {
      forall k | k in before && k.subject == sheet.subject ensures k in now && Rank(k.term) <= Rank(source.term) {
        NowFromBefore(before, sheets, now, created, unresolved, k);
      }
      LatestOrigin(before, sheet, source, now[source]);
    } else if source !in before {
      SecondOrigin(before, sheet, now[source]);
    }
  }

  /** A latest source: there before, or created from a latest one that was. */
  lemma LatestOrigin(before: map<Key, Teacher>, sheet: Key, source: Key, teacher: Teacher)
    requires source.subject == sheet.subject && sheet.(term := Third) !in before
    requires !(sheet.term == First && sheet.(term := Second) in before)
    requires forall k :: k in before && k.subject == sheet.subject ==> Rank(k.term) <= Rank(source.term)
    requires if source in before then before[source] == teacher else source.term != Third && Origin(before, source, teacher)
    ensures Origin(before, sheet, teacher)
  {
    if source in before {
      assert IsLatest(before, source);
    } else {
      var second, third := source.(term := Second), source.(term := Third);
      assert third !in before && (source.term == First ==> second !in before);
      var latest :| IsLatest(before, latest) && latest.subject == source.subject && before[latest] == teacher;
    }
  }

  /** The second-term assignment of the class, created in the same pass. */
  lemma SecondOrigin(before: map<Key, Teacher>, sheet: Key, teacher: Teacher)
    requires sheet.term == First && sheet.(term := Second) !in before && Origin(before, sheet.(term := Second), teacher)
    ensures Origin(before, sheet, teacher)
  {
    assert sheet.(term := Second).(term := Third) == sheet.(term := Third);
  }

  // ------------------------------------------------------------------ what it means

  /** After the pass a sheet has an assignment exactly when someone taught its subject. */
  lemma ResolvedExactly(before: map<Key, Teacher>, sheets: seq<Key>, after: map<Key, Teacher>, created: nat, unresolved: nat, sheet: Key)
    requires Pass(before, sheets, after, created, unresolved) && sheet in sheets
    ensures sheet in after <==> Taught(before, sheet.subject)
  {
    assert sheet in after.Keys <==> sheet in before.Keys || sheet in Missing(before, sheets);
  }

  lemma {:induction false} OrphansSplit(before: map<Key, Teacher>, sheets: seq<Key>, i: nat)
    requires i < |sheets|
    ensures Orphans(before, sheets)
         == Orphans(before, sheets[..i] + sheets[i + 1..]) + if Taught(before, sheets[i].subject) then 0 else 1
    decreases |sheets|
  {
    hide Taught;
    var front := sheets[..|sheets| - 1];
    if i < |front| {
      OrphansSplit(before, front, i);
      var rest := sheets[..i] + sheets[i + 1..];
      assert rest[..|rest| - 1] == front[..i] + front[i + 1..];
    } else {
      assert sheets[..i] + sheets[i + 1..] == front;
    }
  }

  lemma MultisetTail(a: multiset<Key>, b: multiset<Key>, last: Key)
    requires a + multiset{last} == b + multiset{last}
    ensures a == b
  {
    assert a == (a + multiset{last}) - multiset{last} && b == (b + multiset{last}) - multiset{last};
  }

  lemma SameWithoutLast(a: seq<Key>, b: seq<Key>) returns (i: nat)
    requires a != [] && multiset(a) == multiset(b)
    ensures i < |b| && b[i] == a[|a| - 1] && multiset(b[..i] + b[i + 1..]) == multiset(a[..|a| - 1])
  {
    var front, last := a[..|a| - 1], a[|a| - 1];
    assert a == front + [last];
    assert multiset(a) == multiset(front) + multiset{last};
    assert last in multiset(b);
    i :| 0 <= i < |b| && b[i] == last;
    assert b == b[..i] + [b[i]] + b[i + 1..];
    assert multiset(b) == multiset(b[..i] + b[i + 1..]) + multiset{last};
    MultisetTail(multiset(b[..i] + b[i + 1..]), multiset(front), last);
  }

  lemma {:induction false} OrphansPermute(before: map<Key, Teacher>, a: seq<Key>, b: seq<Key>)
    requires multiset(a) == multiset(b)
    ensures Orphans(before, a) == Orphans(before, b)
    decreases |a|
  {
    hide Taught;
    if a == [] {
      assert b == [] by { assert |multiset(b)| == 0; }
    } else {
      var front, last := a[..|a| - 1], a[|a| - 1];
      var i := SameWithoutLast(a, b);
      OrphansSplit(before, b, i);
      OrphansPermute(before, front, b[..i] + b[i + 1..]);
    }
  }

  /** Passes over the same sheets in different orders create the same assignments (up to the
      teacher) and leave the same number of sheets without one. */
  lemma OrderDoesNotMatter(before: map<Key, Teacher>, a: seq<Key>, b: seq<Key>, after: map<Key, Teacher>, other: map<Key, Teacher>,
                           c: nat, d: nat, u: nat, v: nat)
    requires multiset(a) == multiset(b)
    requires Pass(before, a, after, c, u) && Pass(before, b, other, d, v)
    ensures after.Keys == other.Keys && c == d && u == v
  {
    hide Taught, Origin, Orphans;
    forall k ensures k in a <==> k in b {
      assert k in a <==> k in multiset(a);
    }
    assert Missing(before, a) == Missing(before, b);
    OrphansPermute(before, a, b);
  }

  /** A second pass, over the same sheets in any order, creates nothing. */
  lemma SecondPassIdle(before: map<Key, Teacher>, sheets: seq<Key>, after: map<Key, Teacher>, created: nat, unresolved: nat,
                       again: seq<Key>, last: map<Key, Teacher>, created2: nat, unresolved2: nat)
    requires Pass(before, sheets, after, created, unresolved) && multiset(again) == multiset(sheets)
    requires Pass(after, again, last, created2, unresolved2)
    ensures last == after && created2 == 0 && unresolved2 == unresolved
  {
    hide Origin, Taught, Orphans;
    forall subject ensures Taught(after, subject) <==> Taught(before, subject) {
      SubjectsStay(before, sheets, after, created, unresolved, subject);
    }
    forall k ensures k in again <==> k in sheets {
      assert k in again <==> k in multiset(again);
    }
    forall k | k in again && k !in after ensures !Taught(after, k.subject) {
      assert k !in after.Keys;
    }
    assert Missing(after, again) == {};
    assert last.Keys == after.Keys;
    OrphansSame(before, after, again);
    OrphansPermute(before, again, sheets);
  }

  lemma {:induction false} OrphansSame(before: map<Key, Teacher>, after: map<Key, Teacher>, sheets: seq<Key>)
    requires forall subject :: Taught(after, subject) <==> Taught(before, subject)
    ensures Orphans(after, sheets) == Orphans(before, sheets)
    decreases |sheets|
  {
    hide Taught;
    if sheets != [] { OrphansSame(before, after, sheets[..|sheets| - 1]); }
  }

  // ------------------------------------------------- when the teacher is settled, exactly

  /** All teachers that the source rules can lead to are one. */
  ghost predicate Settled(before: map<Key, Teacher>, k: Key) {
    forall t, u :: Origin(before, k, t) && Origin(before, k, u) ==> t == u
  }

  /** What a run does is a pass. */
  lemma {:induction false} RunIsPass(before: map<Key, Teacher>, sheets: seq<Key>, after: map<Key, Teacher>)
    requires Reaches(before, sheets, after) && forall s :: s in sheets ==> s.term != Third
    ensures Pass(before, sheets, after, |Missing(before, sheets)|, Orphans(before, sheets))
    decreases |sheets|
  {
    hide Origin, Taught, Turn;
    if sheets != [] {
      var front, sheet := sheets[..|sheets| - 1], sheets[|sheets| - 1];
      assert sheets == front + [sheet];
      var now :| Reaches(before, front, now) && Turn(now, sheet, after);
      RunIsPass(before, front, now);
      TurnIsPass(before, front, now, |Missing(before, front)|, Orphans(before, front), sheet, after);
    }
  }

  lemma TurnIsPass(before: map<Key, Teacher>, sheets: seq<Key>, now: map<Key, Teacher>, created: nat, unresolved: nat,
                   sheet: Key, next: map<Key, Teacher>)
    requires Pass(before, sheets, now, created, unresolved) && Turn(now, sheet, next)
    requires sheet.term != Third && forall s :: s in sheets ==> s.term != Third
    ensures Pass(before, sheets + [sheet], next, |Missing(before, sheets + [sheet])|, Orphans(before, sheets + [sheet]))
  {
    hide Origin, Taught, Orphans, Missing, Kept, Sourced, IsSource;
    SubjectsStay(before, sheets, now, created, unresolved, sheet.subject);
    if sheet in now {
      NothingToDo(before, sheets, now, created, unresolved, sheet);
    } else if !Taught(now, sheet.subject) {
      NoSource(before, sheets, now, created, unresolved, sheet);
    } else {
      var source :| IsSource(now, sheet, source) && source in now && next == now[sheet := now[source]];
      SourceHasOrigin(before, sheets, now, created, unresolved, sheet, source);
      OneCreated(before, sheets, now, created, unresolved, sheet, now[source]);
    }
  }

  /** The class itself had a teacher in a later term. */
  predicate LaterTeacher(before: map<Key, Teacher>, k: Key) {
    (k.term == First && k.(term := Second) in before) || k.(term := Third) in before
  }

  /** Every assignment that was made for the subject of `x` in a class without a later teacher
      has the teacher of `x`. */
  ghost predicate AllLike(before: map<Key, Teacher>, now: map<Key, Teacher>, x: Key)
    requires x in before
  {
    forall k :: k in now && k !in before && k.subject == x.subject && !LaterTeacher(before, k) ==> now[k] == before[x]
  }

  /** A source that keeps them so. */
  lemma SourceLike(before: map<Key, Teacher>, sheets: seq<Key>, now: map<Key, Teacher>, created: nat, unresolved: nat, sheet: Key, x: Key)
    returns (source: Key)
    requires Pass(before, sheets, now, created, unresolved) && forall s :: s in sheets ==> s.term != Third
    requires IsLatest(before, x) && AllLike(before, now, x) && Taught(now, sheet.subject)
    ensures IsSource(now, sheet, source) && source in now
    ensures sheet.subject == x.subject && !LaterTeacher(before, sheet) ==> now[source] == before[x]
  {
    hide Pass, Taught;
    NowFromBefore(before, sheets, now, created, unresolved, sheet.(term := Second));
    NowFromBefore(before, sheets, now, created, unresolved, sheet.(term := Third));
    NowFromBefore(before, sheets, now, created, unresolved, x);
    if sheet.term == First && sheet.(term := Second) in now {
      source := sheet.(term := Second);
      assert source.(term := Third) == sheet.(term := Third);
    } else if sheet.(term := Third) in now {
      source := sheet.(term := Third);
    } else if sheet.subject == x.subject && IsLatest(now, x) {
      source := x;
    } else {
      source := LatestOf(now, sheet.subject);
      NowFromBefore(before, sheets, now, created, unresolved, source);
      if sheet.subject == x.subject { LaterThan(before, now, source, x); }
    }
  }

  lemma LatestOf(now: map<Key, Teacher>, subject: nat) returns (latest: Key)
    requires Taught(now, subject)
    ensures latest.subject == subject && IsLatest(now, latest)
  {
    var candidates := set c | c in now && c.subject == subject;
    var some :| some in now && some.subject == subject;
    assert some in candidates;
    LatestExists(candidates);
    latest :| latest in candidates && forall c :: c in candidates ==> Rank(c.term) <= Rank(latest.term);
  }

  /** What is later than the latest assignment before the pass was made for a class without a later teacher. */
  lemma LaterThan(before: map<Key, Teacher>, now: map<Key, Teacher>, source: Key, x: Key)
    requires IsLatest(before, x) && IsLatest(now, source) && source.subject == x.subject && !IsLatest(now, x) && x in now
    requires source !in before ==> source.term != Third
    ensures source !in before && !LaterTeacher(before, source)
  {
  }

  /** For a latest assignment there is a run in which every class without a later teacher gets its teacher. */
  lemma {:induction false} RunWith(before: map<Key, Teacher>, sheets: seq<Key>, x: Key) returns (after: map<Key, Teacher>)
    requires IsLatest(before, x) && forall s :: s in sheets ==> s.term != Third
    ensures Reaches(before, sheets, after) && AllLike(before, after, x)
    decreases |sheets|
  {
    hide Taught, IsSource, IsLatest, Pass;
    if sheets == [] {
      after := before;
    } else {
      var front, sheet := sheets[..|sheets| - 1], sheets[|sheets| - 1];
      assert sheets == front + [sheet];
      var now := RunWith(before, front, x);
      RunIsPass(before, front, now);
      if sheet in now || !Taught(now, sheet.subject) {
        after := now;
      } else {
        var source := SourceLike(before, front, now, |Missing(before, front)|, Orphans(before, front), sheet, x);
        after := now[sheet := now[source]];
      }
      OneTurn(before, front, now, sheet, after);
    }
  }

  /** The teacher of `k` is one and the same in all runs over the two orders of the sheets. */
  ghost predicate OneTeacher(before: map<Key, Teacher>, a: seq<Key>, b: seq<Key>, k: Key) {
    forall after, other :: Reaches(before, a, after) && Reaches(before, b, other) ==>
      k in after && k in other && after[k] == other[k]
  }

  /** The class had a later teacher, or all latest assignments of the subject have one teacher. */
  ghost predicate SettledByTable(before: map<Key, Teacher>, k: Key) {
    LaterTeacher(before, k)
    || forall x, y :: IsLatest(before, x) && IsLatest(before, y) && x.subject == y.subject == k.subject ==> before[x] == before[y]
  }

  lemma TableSettles(before: map<Key, Teacher>, k: Key)
    requires SettledByTable(before, k)
    ensures Settled(before, k)
  {
  }

  lemma Rivals(before: map<Key, Teacher>, k: Key) returns (x: Key, y: Key)
    requires !SettledByTable(before, k)
    ensures IsLatest(before, x) && IsLatest(before, y) && x in before && y in before && before[x] != before[y]
    ensures x.subject == y.subject == k.subject && !LaterTeacher(before, k)
  {
    x, y :| IsLatest(before, x) && IsLatest(before, y) && x.subject == y.subject == k.subject && before[x] != before[y];
  }

  /** The teacher of a created assignment is the same in every run over the sheets, in whatever
      order and whichever of the sources that tie is taken, if and only if the assignments before
      the pass settle it. */
  lemma TeacherSettledExactly(before: map<Key, Teacher>, a: seq<Key>, b: seq<Key>, k: Key)
    requires multiset(a) == multiset(b) && k in Missing(before, a) && forall s :: s in a ==> s.term != Third
    ensures SettledByTable(before, k) <==> OneTeacher(before, a, b, k)
  {
    hide Origin, Taught, Missing, Reaches, LaterTeacher, IsLatest, AllLike;
    MissingPermutes(before, a, b);
    if SettledByTable(before, k) {
      TableSettles(before, k);
      forall after, other | Reaches(before, a, after) && Reaches(before, b, other)
        ensures k in after && k in other && after[k] == other[k]
      {
        RunOrigin(before, a, after, k);
        RunOrigin(before, b, other, k);
      }
    } else {
      var x, y := Rivals(before, k);
      var after := RunWith(before, a, x);
      var other := RunWith(before, b, y);
      MadeLike(before, a, after, k, x);
      MadeLike(before, b, other, k, y);
    }
  }

  lemma RunOrigin(before: map<Key, Teacher>, sheets: seq<Key>, after: map<Key, Teacher>, k: Key)
    requires Reaches(before, sheets, after) && k in Missing(before, sheets) && forall s :: s in sheets ==> s.term != Third
    ensures k in after && Origin(before, k, after[k])
  {
    hide Origin, Taught, Orphans, Missing, Reaches;
    RunIsPass(before, sheets, after);
  }

  lemma MadeLike(before: map<Key, Teacher>, sheets: seq<Key>, after: map<Key, Teacher>, k: Key, x: Key)
    requires Reaches(before, sheets, after) && k in Missing(before, sheets) && forall s :: s in sheets ==> s.term != Third
    requires IsLatest(before, x) && AllLike(before, after, x) && k.subject == x.subject && !LaterTeacher(before, k)
    ensures k in after && after[k] == before[x]
  {
    hide Origin, Taught, Orphans, Reaches, LaterTeacher;
    RunIsPass(before, sheets, after);
  }

  /** One table that does not settle it: two teachers of the subject in the latest term.  One
      sheet of a third class can end with either. */
  lemma TwoTeachersDiffer(subject: nat)
    ensures var x, y, k := Key(subject, 1, Second), Key(subject, 2, Second), Key(subject, 3, Second);
      var before: map<Key, Teacher> := map[x := 10, y := 20];
      Reaches(before, [k], before[k := 10]) && Reaches(before, [k], before[k := 20])
  {
    var x, y, k := Key(subject, 1, Second), Key(subject, 2, Second), Key(subject, 3, Second);
    var before: map<Key, Teacher> := map[x := 10, y := 20];
    assert IsLatest(before, x) && IsLatest(before, y);
    KeyTaught(before, x);
    TurnWith(before, k, x);
    TurnWith(before, k, y);
    OneTurn(before, [], before, k, before[k := 10]);
    OneTurn(before, [], before, k, before[k := 20]);
    assert [] + [k] == [k];
  }

  lemma TurnWith(now: map<Key, Teacher>, sheet: Key, source: Key)
    requires sheet !in now && Taught(now, sheet.subject) && IsSource(now, sheet, source) && source in now
    ensures Turn(now, sheet, now[sheet := now[source]])
  {
    hide Taught, IsSource;
  }

  lemma MissingPermutes(before: map<Key, Teacher>, a: seq<Key>, b: seq<Key>)
    requires multiset(a) == multiset(b)
    ensures Missing(before, a) == Missing(before, b) && forall k :: k in a <==> k in b
  {
    hide Taught;
    forall k ensures k in a <==> k in b {
      assert k in a <==> k in multiset(a);
    }
  }

  /** When the class itself had a later teacher, the order has no say in the teacher. */
  lemma ClassTeacherWins(before: map<Key, Teacher>, a: seq<Key>, b: seq<Key>, after: map<Key, Teacher>, other: map<Key, Teacher>,
                         c: nat, d: nat, u: nat, v: nat, k: Key)
    requires multiset(a) == multiset(b) && k in a && k !in before && LaterTeacher(before, k)
    requires Pass(before, a, after, c, u) && Pass(before, b, other, d, v)
    ensures k in after && k in other && after[k] == other[k]
  {
    TableSettles(before, k);
    KeyTaught(before, if k.term == First && k.(term := Second) in before then k.(term := Second) else k.(term := Third));
    hide Taught, Origin, Orphans;
    MissingPermutes(before, a, b);
    assert k in Missing(before, a);
  }
}
