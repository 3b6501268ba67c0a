/**
  Rebuilding the objective questions of an exam in place.  The database refuses two links of
  one exam with the same sort order, so the theory links are parked on high numbers, the old
  objective links deleted, the new ones created, and the theory links brought back behind
  them.  Every write goes through a call that keeps the constraint or fails.
 */
module ExamRebuild {
  import opened Wrappers
  import MarkSplit

  datatype Kind = Objective | MultiSelect | Written

  datatype Question = Question(kind: Kind, stem: string, marks: int, options: map<string, string>, correct: set<string>)

  /** A link of this exam: its question, its place and its marks in cents. */
  datatype Link = Link(question: nat, order: nat, marks: int)

  /** A validated source row. */
  datatype Item = Item(stem: string, options: map<string, string>, key: string)

  datatype Failure = HasAttempts | OrderTaken | NoRows

  const PARKING: nat := 10000

  predicate ValidItem(i: Item) {
    i.options.Keys == {"A", "B", "C", "D"} && i.key in i.options
  }

  // ----------------------------------------------------------- link tables, as values

  predicate DistinctOrders(links: map<nat, Link>) {
    forall a, b :: a in links && b in links && a != b ==> links[a].order != links[b].order
  }

  predicate NoRepeats(ids: seq<nat>) { forall j, k :: 0 <= j < k < |ids| ==> ids[j] != ids[k] }

  /** The links `ids` put on `base + 1, base + 2, ...` in their order. */
  function Renumbered(links: map<nat, Link>, ids: seq<nat>, base: nat): map<nat, Link>
    requires forall k :: 0 <= k < |ids| ==> ids[k] in links
  {
    if ids == [] then links
    else
      var last := ids[|ids| - 1];
      var front := Renumbered(links, ids[..|ids| - 1], base);
      front[last := links[last].(order := base + |ids|)]
  }

  /** No link outside `ids` stands on this number. */
  predicate SlotFree(links: map<nat, Link>, ids: seq<nat>, order: nat) {
    forall id :: id in links && id !in ids ==> links[id].order != order
  }

  /** Every link that stands on one of the new numbers is itself one of `ids`, and not behind the
      one that the number is for: so it has moved away, or moves now, when the number is given. */
  predicate SlotsClear(links: map<nat, Link>, ids: seq<nat>, base: nat) {
    forall id :: id in links && base < links[id].order <= base + |ids| ==> id in ids[..links[id].order - base]
  }

  /** One link more: its number must be free of all links that are still to come or do not move. */
  lemma OneMoreSlot(links: map<nat, Link>, ids: seq<nat>, base: nat)
    requires ids != []
    ensures SlotsClear(links, ids, base) <==> SlotsClear(links, ids[..|ids| - 1], base) && SlotFree(links, ids, base + |ids|)
  {
    var front := ids[..|ids| - 1];
    assert forall m :: 0 <= m < |ids| ==> front[..m] == ids[..m];
    assert ids[..|ids|] == ids;
  }

  lemma ClearPrefix(links: map<nat, Link>, ids: seq<nat>, base: nat, k: nat)
    requires SlotsClear(links, ids, base) && k <= |ids|
    ensures SlotsClear(links, ids[..k], base)
  {
    assert forall m :: 0 <= m <= k ==> ids[..k][..m] == ids[..m];
  }

  lemma {:induction false} RenumberedLinks(links: map<nat, Link>, ids: seq<nat>, base: nat)
    requires NoRepeats(ids) && forall k :: 0 <= k < |ids| ==> ids[k] in links
    ensures Renumbered(links, ids, base).Keys == links.Keys
    ensures forall k :: 0 <= k < |ids| ==>
              Renumbered(links, ids, base)[ids[k]] == links[ids[k]].(order := base + k + 1)
    ensures forall id :: id in links && id !in ids ==> Renumbered(links, ids, base)[id] == links[id]
    decreases |ids|
  {
    if ids != [] {
      var front := ids[..|ids| - 1];
      assert forall k :: 0 <= k < |front| ==> front[k] == ids[k];
      RenumberedLinks(links, front, base);
      assert forall id :: id !in ids ==> id !in front;
    }
  }

  /** Selection sort of some links by their order: `rest` is still to come. */
  ghost predicate SortedSoFar(links: map<nat, Link>, ids: set<nat>, sorted: seq<nat>, rest: set<nat>) {
    && (forall id :: id in ids ==> id in links) && NoRepeats(sorted)
    && (forall id :: id in sorted <==> id in ids && id !in rest)
    && (forall j, k :: 0 <= j < k < |sorted| ==> links[sorted[j]].order < links[sorted[k]].order)
    && (forall j, id :: 0 <= j < |sorted| && id in rest && id in ids ==> links[sorted[j]].order < links[id].order)
  }

  lemma NothingSorted(links: map<nat, Link>, ids: set<nat>)
    requires forall id :: id in ids ==> id in links
    ensures SortedSoFar(links, ids, [], ids)
  {
  }

  lemma LeastNext(links: map<nat, Link>, ids: set<nat>, sorted: seq<nat>, rest: set<nat>, least: nat)
    requires DistinctOrders(links) && SortedSoFar(links, ids, sorted, rest) && rest <= ids
    requires least in rest && forall id :: id in rest ==> links[least].order <= links[id].order
    ensures SortedSoFar(links, ids, sorted + [least], rest - {least})
  {
    forall id | id in rest && id != least ensures links[least].order < links[id].order {
      assert least in links && id in links;
    }
  }

  lemma AllSorted(links: map<nat, Link>, ids: set<nat>, sorted: seq<nat>)
    requires SortedSoFar(links, ids, sorted, {})
    ensures NoRepeats(sorted) && forall id :: id in sorted <==> id in ids
    ensures forall j, k :: 0 <= j < k < |sorted| ==> links[sorted[j]].order < links[sorted[k]].order
  {
  }

  /** No link stands on the places 1 to `n`. */
  predicate PlacesFree(links: map<nat, Link>, n: nat) {
    forall id :: id in links ==> !(1 <= links[id].order <= n)
  }

  lemma NoPlaces(links: map<nat, Link>) ensures PlacesFree(links, 0) { }

  lemma PlacesTaken(links: map<nat, Link>, k: nat, n: nat)
    requires !PlacesFree(links, k) && k <= n
    ensures !PlacesFree(links, n)
  {
  }

  /** Every old question is there, unchanged. */
  predicate Keeps(before: map<nat, Question>, after: map<nat, Question>) {
    forall q :: q in before ==> q in after && after[q] == before[q]
  }

  /** Only the theory links are left, parked in their order. */
  ghost predicate Parked(before: map<nat, Link>, links: map<nat, Link>, theory: seq<nat>) {
    && (forall id :: id in links <==> id in theory)
    && forall k :: 0 <= k < |theory| ==>
         theory[k] in before && links[theory[k]] == before[theory[k]].(order := PARKING + k + 1)
  }

  // --------------------------------------------------------------------- the store

  class Exam {
    var links: map<nat, Link>            // the links of this exam, by id
    var questions: map<nat, Question>    // all questions, by id
    var elsewhere: set<nat>              // questions linked by other exams
    var attempts: bool                   // a student has attempted the exam
    var nextLink: nat
    var nextQuestion: nat

    constructor (links: map<nat, Link>, questions: map<nat, Question>, elsewhere: set<nat>, attempts: bool,
                 nextLink: nat, nextQuestion: nat)
      requires DistinctOrders(links)
      requires forall id :: id in links ==> links[id].question in questions && id < nextLink
      requires forall q :: q in questions ==> q < nextQuestion
      requires forall a, b :: a in links && b in links && a != b ==> links[a].question != links[b].question
      ensures Valid() && this.links == links && this.questions == questions && this.elsewhere == elsewhere
      ensures this.attempts == attempts
    {
      this.links, this.questions, this.elsewhere, this.attempts := links, questions, elsewhere, attempts;
      this.nextLink, this.nextQuestion := nextLink, nextQuestion;
    }

    /** The constraints of the tables: one place per link, one link per question, foreign
        keys, and ids handed out once. */
    ghost predicate Valid()
      reads this
    {
      && DistinctOrders(links)
      && (forall id :: id in links ==> links[id].question in questions && id < nextLink)
      && (forall q :: q in questions ==> q < nextQuestion)
      && (forall a, b :: a in links && b in links && a != b ==> links[a].question != links[b].question)
    }

    predicate IsTheory(id: nat)
      requires id in links && links[id].question in questions
      reads this
    {
      questions[links[id].question].kind == Written
    }

    // ------------------------------------------------------------- database calls

    /** `link.save(update_fields=["sort_order"])` */
    method SaveOrder(id: nat, order: nat) returns (ok: bool)
      requires Valid() && id in links
      modifies this`links
      ensures Valid()
      ensures ok <==> forall other :: other in old(links) && other != id ==> old(links)[other].order != order
      ensures links == if ok then old(links)[id := old(links)[id].(order := order)] else old(links)
    {
      ok := forall other :: other in links && other != id ==> links[other].order != order;
      if ok {
        links := links[id := links[id].(order := order)];
      }
    }

    /** Creates a question and its link. */
    method CreateLinked(q: Question, order: nat, marks: int) returns (ok: bool)
      requires Valid()
      modifies this`links, this`questions, this`nextLink, this`nextQuestion
      ensures Valid()
      ensures ok <==> forall other :: other in old(links) ==> old(links)[other].order != order
      ensures nextQuestion == old(nextQuestion) + 1
      ensures questions == old(questions)[old(nextQuestion) := q]
      ensures ok ==> nextLink == old(nextLink) + 1
      ensures links == if ok then old(links)[old(nextLink) := Link(old(nextQuestion), order, marks)] else old(links)
    {
      questions := questions[nextQuestion := q];
      nextQuestion := nextQuestion + 1;
      ok := forall other :: other in links ==> links[other].order != order;
      if ok {
        links := links[nextLink := Link(nextQuestion - 1, order, marks)];
        nextLink := nextLink + 1;
      }
    }

    /** `_delete_links`: deletes links, then those of their questions that no exam links. */
    method DeleteLinks(ids: set<nat>)
      requires Valid() && forall id :: id in ids ==> id in links
      modifies this`links, this`questions
      ensures Valid()
      ensures links == map id | id in old(links) && id !in ids :: old(links)[id]
      ensures forall q :: q in questions <==>
                q in old(questions) && !(q !in elsewhere && exists id :: id in ids && old(links)[id].question == q)
      ensures forall q :: q in questions ==> questions[q] == old(questions)[q]
    {
      var candidates := set id | id in ids :: links[id].question;
      links := map id | id in links && id !in ids :: links[id];
      var linked := set id | id in links :: links[id].question;
      var orphans := set q | q in candidates && q !in elsewhere && q !in linked;
      questions := map q | q in questions && q !in orphans :: questions[q];
      OrphansOnly(old(links), ids, elsewhere, orphans);
    }

    /** `order_by("sort_order")` on some links. */
    method InOrder(ids: set<nat>) returns (sorted: seq<nat>)
      requires Valid() && forall id :: id in ids ==> id in links
      ensures NoRepeats(sorted) && forall id :: id in sorted <==> id in ids
      ensures forall j, k :: 0 <= j < k < |sorted| ==> links[sorted[j]].order < links[sorted[k]].order
    {
      assert DistinctOrders(links);
      hide *;
      sorted := [];
      var rest := ids;
      NothingSorted(links, ids);
      while rest != {}
        invariant rest <= ids && SortedSoFar(links, ids, sorted, rest)
        decreases rest
      {
        LeastExists(links, rest);
        var least :| least in rest && forall id :: id in rest ==> links[least].order <= links[id].order;
        LeastNext(links, ids, sorted, rest, least);
        rest := rest - {least};
        sorted := sorted + [least];
      }
      AllSorted(links, ids, sorted);
    }

    // ------------------------------------------------------------------ the phases

    /** Saves the links one by one on `base + 1, base + 2, ...`. */
    method Renumber(ids: seq<nat>, base: nat) returns (ok: bool)
      requires Valid() && NoRepeats(ids) && forall k :: 0 <= k < |ids| ==> ids[k] in links
      modifies this`links
      ensures Valid()
      ensures ok <==> SlotsClear(old(links), ids, base)
      ensures ok ==> links == Renumbered(old(links), ids, base)
    {
      hide Renumbered, SlotFree, NoRepeats, DistinctOrders;
      ok := true;
      NothingRenumbered(old(links), ids, base);
      for k := 0 to |ids|
        invariant Valid() && ok
        invariant links == Renumbered(old(links), ids[..k], base)
        invariant SlotsClear(old(links), ids[..k], base)
      {
        PrefixRenumbered(old(links), ids, base, k);
        ghost var before := links;
        ok := SaveOrder(ids[k], base + k + 1);
        SlotStep(old(links), before, ids, base, k);
        if !ok {
          return;
        }
      }
      assert ids[..|ids|] == ids;
    }

    /** Creates the objective questions with their marks on the places `1, 2, ...`. */
    method CreateObjectives(rows: seq<Item>) returns (ok: bool)
      requires Valid() && |rows| > 0 && forall k :: 0 <= k < |rows| ==> ValidItem(rows[k])
      modifies this`links, this`questions, this`nextLink, this`nextQuestion
      ensures Valid()
      ensures ok <==> PlacesFree(old(links), |rows|)
      ensures ok ==> links == WithObjectives(old(links), old(nextLink), old(nextQuestion), |rows|, |rows|)
      ensures ok ==> questions == WithQuestions(old(questions), old(nextQuestion), rows, |rows|)
      ensures Keeps(old(questions), questions)
    {
      hide *;
      ghost var l0, q0, firstLink, firstQuestion := links, questions, nextLink, nextQuestion;
      IdsAreOld(this);
      var marks := MarkSplit.ObjectiveMarks(|rows|);
      ok := true;
      NoPlaces(links);
      NoObjectives(links, nextLink, nextQuestion, |rows|);
      NoQuestions(questions, nextQuestion, rows);
      for k := 0 to |rows|
        invariant Valid() && ok
        invariant nextLink == firstLink + k && nextQuestion == firstQuestion + k
        invariant links == WithObjectives(l0, firstLink, firstQuestion, |rows|, k)
        invariant PlacesFree(l0, k)
        invariant questions == WithQuestions(q0, firstQuestion, rows, k)
      {
        OldQuestions(q0, firstQuestion, rows, k + 1);
        ok := CreateNext(rows, marks, k, l0, q0, firstLink, firstQuestion);
        if !ok {
          PlacesTaken(l0, k + 1, |rows|);
          return;
        }
      }
      OldQuestions(q0, firstQuestion, rows, |rows|);
    }

    method CreateNext(rows: seq<Item>, marks: seq<int>, k: nat, ghost l0: map<nat, Link>, ghost q0: map<nat, Question>,
                      ghost firstLink: nat, ghost firstQuestion: nat)
      returns (ok: bool)
      requires Valid() && k < |rows| && marks == MarkSplit.ObjectiveMarks(|rows|)
      requires forall id :: id in l0 ==> id < firstLink
      requires nextLink == firstLink + k && nextQuestion == firstQuestion + k
      requires links == WithObjectives(l0, firstLink, firstQuestion, |rows|, k)
      requires PlacesFree(l0, k)
      requires questions == WithQuestions(q0, firstQuestion, rows, k)
      modifies this`links, this`questions, this`nextLink, this`nextQuestion
      ensures Valid()
      ensures ok <==> PlacesFree(l0, k + 1)
      ensures questions == WithQuestions(q0, firstQuestion, rows, k + 1)
      ensures nextQuestion == firstQuestion + k + 1
      ensures ok ==> nextLink == firstLink + k + 1
      ensures ok ==> links == WithObjectives(l0, firstLink, firstQuestion, |rows|, k + 1)
    {
      hide WithObjectives, WithQuestions, Valid, DistinctOrders;
      CreatedLinks(l0, firstLink, firstQuestion, |rows|, k);
      CreateStep(l0, links, firstLink, k);
      OneObjective(l0, firstLink, firstQuestion, |rows|, k);
      OneQuestion(q0, firstQuestion, rows, k);
      var item := rows[k];
      ok := CreateLinked(Question(Objective, item.stem, marks[k], item.options, {item.key}), k + 1, marks[k]);
    }

    /** Parks the theory links and deletes all others. */
    method Clear(theory: seq<nat>) returns (ok: bool)
      requires Valid() && IsTheoryOrder(theory)
      modifies this`links, this`questions
      ensures Valid()
      ensures ok <==> SlotsClear(old(links), theory, PARKING)
      ensures ok ==> Parked(old(links), links, theory)
      ensures forall q :: q in elsewhere && q in old(questions) ==> q in questions && questions[q] == old(questions)[q]
    {
      hide SlotsClear, Renumbered, DistinctOrders;
      ghost var start := links;
      ok := Renumber(theory, PARKING);
      if !ok {
        return;
      }
      RenumberedLinks(start, theory, PARKING);
      var oldLinks := set id | id in links && !IsTheory(id);
      DeleteLinks(oldLinks);
    }

    /** Fills the cleared exam and brings the theory links back. */
    method Refill(ghost before: map<nat, Link>, theory: seq<nat>, rows: seq<Item>) returns (ok: bool)
      requires Valid() && NoRepeats(theory) && Parked(before, links, theory)
      requires |rows| > 0 && forall k :: 0 <= k < |rows| ==> ValidItem(rows[k])
      modifies this`links, this`questions, this`nextLink, this`nextQuestion
      ensures Valid()
      ensures ok <==> theory == [] || |rows| <= PARKING
      ensures ok ==> Rebuilt(before, links, questions, old(nextLink), old(nextQuestion), theory, rows)
      ensures Keeps(old(questions), questions)
    {
      hide SlotsClear, Renumbered, DistinctOrders, WithObjectives, WithQuestions, Rebuilt, NoRepeats;
      ghost var alone := links;
      ParkedIsHigh(alone, theory, |rows|);
      RebuiltState(before, alone, nextLink, nextQuestion, theory, rows, questions);
      ok := CreateObjectives(rows);
      if !ok {
        return;
      }
      CreatedLinks(alone, old(nextLink), old(nextQuestion), |rows|, |rows|);
      BackIsClear(alone, links, theory, |rows|, old(nextLink));
      ok := Renumber(theory, |rows|);
    }

    /** `rebuild_objectives` */
    method Rebuild(rows: seq<Item>) returns (r: Result<nat, Failure>)
      requires Valid() && forall k :: 0 <= k < |rows| ==> ValidItem(rows[k])
      modifies this`links, this`questions, this`nextLink, this`nextQuestion
      ensures Valid()
      ensures r.Err? && r.error == HasAttempts <==> attempts
      ensures attempts ==> links == old(links) && questions == old(questions)
      ensures !attempts ==> exists theory: seq<nat> ::
                && old(IsTheoryOrder(theory))
                && (r.Ok? <==> SlotsClear(old(links), theory, PARKING) && |rows| > 0
                               && (theory == [] || |rows| <= PARKING))
                && (r == Err(NoRows) <==> SlotsClear(old(links), theory, PARKING) && rows == [])
                && (r.Ok? ==> r.value == |rows| && Rebuilt(old(links), links, questions, old(nextLink), old(nextQuestion), theory, rows))
      ensures forall q :: q in elsewhere && q in old(questions) ==> q in questions && questions[q] == old(questions)[q]
    {
      hide SlotsClear, DistinctOrders, ValidItem, Rebuilt, Parked, NoRepeats;
      if attempts {
        return Err(HasAttempts);
      }
      var theoryIds := set id | id in links && IsTheory(id);
      var theory := InOrder(theoryIds);
      ghost var start := links;
      var cleared := Clear(theory);
      if !cleared {
        return Err(OrderTaken);
      }
      if |rows| == 0 {
        return Err(NoRows);
      }
      var filled := Refill(start, theory, rows);
      return if filled then Ok(|rows|) else Err(OrderTaken);
    }

    /** The theory links of the exam, in their order. */
    ghost predicate IsTheoryOrder(ids: seq<nat>)
      requires Valid()
      reads this
    {
      && NoRepeats(ids)
      && (forall id :: id in ids <==> id in links && IsTheory(id))
      && forall j, k :: 0 <= j < k < |ids| ==> links[ids[j]].order < links[ids[k]].order
    }
  }

  /** The end state: the objective questions on 1..n with their marks, options and keys, then
      the theory links on n+1..n+m in the order they had, otherwise unchanged. */
  ghost predicate Rebuilt(before: map<nat, Link>, links: map<nat, Link>, questions: map<nat, Question>,
                          firstLink: nat, firstQuestion: nat, theory: seq<nat>, rows: seq<Item>)
    requires |rows| > 0
  {
    && (forall id :: id in links <==> id in theory || firstLink <= id < firstLink + |rows|)
    && (forall k :: 0 <= k < |theory| ==>
          theory[k] in before && links[theory[k]] == before[theory[k]].(order := |rows| + k + 1))
    && (forall id :: firstLink <= id < firstLink + |rows| ==>
          links[id] == NewLink(firstLink, firstQuestion, |rows|, id))
    && (forall id :: firstQuestion <= id < firstQuestion + |rows| ==>
          id in questions && questions[id] == NewQuestion(rows, id - firstQuestion))
  }

  lemma RebuiltState(before: map<nat, Link>, alone: map<nat, Link>, firstLink: nat, firstQuestion: nat,
                     theory: seq<nat>, rows: seq<Item>, questions: map<nat, Question>)
    requires |rows| > 0 && NoRepeats(theory) && Parked(before, alone, theory)
    requires forall id :: id in alone ==> id < firstLink
    ensures var full := WithObjectives(alone, firstLink, firstQuestion, |rows|, |rows|);
      && (forall k :: 0 <= k < |theory| ==> theory[k] in full)
      && Rebuilt(before, Renumbered(full, theory, |rows|),
                 WithQuestions(questions, firstQuestion, rows, |rows|), firstLink, firstQuestion, theory, rows)
  {
    hide WithObjectives, Renumbered, WithQuestions, NewQuestion, MarkSplit.Share;
    var n := |rows|;
    var full := WithObjectives(alone, firstLink, firstQuestion, n, n);
    CreatedLinks(alone, firstLink, firstQuestion, n, n);
    RenumberedLinks(full, theory, n);
    CreatedQuestions(questions, firstQuestion, rows, n);
    var last := Renumbered(full, theory, n);
    forall id | firstLink <= id < firstLink + n ensures last[id] == full[id] {
      assert id !in alone;
    }
  }

  function NewQuestion(rows: seq<Item>, k: nat): Question
    requires k < |rows|
  {
    Question(Objective, rows[k].stem, MarkSplit.Share(|rows|, k), rows[k].options, {rows[k].key})
  }

  /** The link of the new objective question on its place, with its share of the marks. */
  function NewLink(firstLink: nat, firstQuestion: nat, count: nat, id: nat): Link
    requires count > 0 && firstLink <= id
  {
    var k := id - firstLink;
    Link(firstQuestion + k, k + 1, MarkSplit.Share(count, k))
  }

  /** The links with the first `n` of `count` objective links added. */
  function WithObjectives(links: map<nat, Link>, firstLink: nat, firstQuestion: nat, count: nat, n: nat): map<nat, Link>
    requires count > 0
  {
    if n == 0 then links
    else WithObjectives(links, firstLink, firstQuestion, count, n - 1)
      [firstLink + n - 1 := NewLink(firstLink, firstQuestion, count, firstLink + n - 1)]
  }

  // ------------------------------------------------------------------- the lemmas

  lemma IdsAreOld(e: Exam)
    requires e.Valid()
    ensures forall id :: id in e.links ==> id < e.nextLink
    ensures forall q :: q in e.questions ==> q < e.nextQuestion
  {
  }

  /** With one link per question, the questions of deleted links that no link is left for are
      all of them but those of other exams. */
  lemma OrphansOnly(links: map<nat, Link>, ids: set<nat>, elsewhere: set<nat>, orphans: set<nat>)
    requires forall a, b :: a in links && b in links && a != b ==> links[a].question != links[b].question
    requires forall id :: id in ids ==> id in links
    requires orphans == set q | q in (set id | id in ids :: links[id].question) && q !in elsewhere
                                && q !in (set id | id in links && id !in ids :: links[id].question)
    ensures forall q :: q in orphans <==> q !in elsewhere && exists id :: id in ids && links[id].question == q
  {
    forall q ensures q in orphans <==> q !in elsewhere && exists id :: id in ids && links[id].question == q {
      if id :| id in ids && links[id].question == q {
        assert forall b :: b in links && b != id ==> links[b].question != q;
      }
    }
  }

  lemma {:induction false} LeastExists(links: map<nat, Link>, ids: set<nat>)
    requires ids != {} && forall id :: id in ids ==> id in links
    ensures exists least :: least in ids && forall id :: id in ids ==> links[least].order <= links[id].order
    decreases ids
  {
    var x :| x in ids;
    if ids == {x} {
      assert forall id :: id in ids ==> id == x;
    } else {
      LeastExists(links, ids - {x});
      var y :| y in ids - {x} && forall id :: id in ids - {x} ==> links[y].order <= links[id].order;
      var least := if links[x].order < links[y].order then x else y;
      assert forall id :: id in ids ==> id == x || id in ids - {x};
      assert least in ids && forall id :: id in ids ==> links[least].order <= links[id].order;
    }
  }

  lemma NothingRenumbered(links: map<nat, Link>, ids: seq<nat>, base: nat)
    ensures ids[..0] == [] && Renumbered(links, [], base) == links
  {
  }

  lemma PrefixRenumbered(links: map<nat, Link>, ids: seq<nat>, base: nat, k: nat)
    requires NoRepeats(ids) && k < |ids| && forall j :: 0 <= j < |ids| ==> ids[j] in links
    ensures ids[k] in Renumbered(links, ids[..k], base) && Renumbered(links, ids[..k], base)[ids[k]] == links[ids[k]]
    ensures Renumbered(links, ids[..k], base).Keys == links.Keys
    ensures Renumbered(links, ids[..k + 1], base)
         == Renumbered(links, ids[..k], base)[ids[k] := links[ids[k]].(order := base + k + 1)]
  {
    RenumberedLinks(links, ids[..k], base);
    assert ids[..k + 1][..k] == ids[..k];
  }

  /** Saving the k-th link succeeds exactly when its slot is free. */
  lemma SlotStep(links: map<nat, Link>, now: map<nat, Link>, ids: seq<nat>, base: nat, k: nat)
    requires NoRepeats(ids) && k < |ids| && forall j :: 0 <= j < |ids| ==> ids[j] in links
    requires now == Renumbered(links, ids[..k], base) && SlotsClear(links, ids[..k], base)
    ensures (forall other :: other in now && other != ids[k] ==> now[other].order != base + k + 1)
       <==> SlotsClear(links, ids[..k + 1], base)
    ensures !SlotsClear(links, ids[..k + 1], base) ==> !SlotsClear(links, ids, base)
  {
    hide Renumbered;
    var done := ids[..k];
    RenumberedLinks(links, done, base);
    assert ids[..k + 1] == done + [ids[k]] && ids[..k + 1][..k] == done;
    OneMoreSlot(links, ids[..k + 1], base);
    hide SlotsClear;
    if SlotsClear(links, ids, base) {
      ClearPrefix(links, ids, base, k + 1);
    }
    if SlotFree(links, ids[..k + 1], base + k + 1) {
      forall other | other in now && other != ids[k] ensures now[other].order != base + k + 1 {
        if other in done {
          var j :| 0 <= j < k && done[j] == other;
          assert now[done[j]].order == base + j + 1;
        }
      }
    }
  }

  lemma {:induction false} CreatedLinks(links: map<nat, Link>, firstLink: nat, firstQuestion: nat, count: nat, n: nat)
    requires count > 0 && forall id :: id in links ==> id < firstLink
    ensures var w := WithObjectives(links, firstLink, firstQuestion, count, n);
      && (forall id :: id in w <==> id in links || firstLink <= id < firstLink + n)
      && (forall id :: id in links ==> w[id] == links[id])
      && forall id :: firstLink <= id < firstLink + n ==> w[id] == NewLink(firstLink, firstQuestion, count, id)
  {
    if n > 0 {
      CreatedLinks(links, firstLink, firstQuestion, count, n - 1);
    }
  }

  /** The questions with the first `n` new ones added. */
  function WithQuestions(questions: map<nat, Question>, first: nat, rows: seq<Item>, n: nat): map<nat, Question>
    requires n <= |rows|
  {
    if n == 0 then questions
    else WithQuestions(questions, first, rows, n - 1)[first + n - 1 := NewQuestion(rows, n - 1)]
  }

  lemma NoQuestions(questions: map<nat, Question>, first: nat, rows: seq<Item>)
    ensures WithQuestions(questions, first, rows, 0) == questions
  {
  }

  lemma OneQuestion(questions: map<nat, Question>, first: nat, rows: seq<Item>, k: nat)
    requires k < |rows|
    ensures WithQuestions(questions, first, rows, k + 1)
         == WithQuestions(questions, first, rows, k)[first + k := NewQuestion(rows, k)]
  {
  }

  lemma {:induction false} OldQuestions(questions: map<nat, Question>, first: nat, rows: seq<Item>, n: nat)
    requires n <= |rows| && forall q :: q in questions ==> q < first
    ensures Keeps(questions, WithQuestions(questions, first, rows, n))
  {
    if n > 0 {
      OldQuestions(questions, first, rows, n - 1);
    }
  }

  lemma {:induction false} CreatedQuestions(questions: map<nat, Question>, first: nat, rows: seq<Item>, n: nat)
    requires n <= |rows|
    ensures forall id :: first <= id < first + n ==>
              id in WithQuestions(questions, first, rows, n)
              && WithQuestions(questions, first, rows, n)[id] == NewQuestion(rows, id - first)
  {
    if n > 0 {
      CreatedQuestions(questions, first, rows, n - 1);
    }
  }

  lemma NoObjectives(links: map<nat, Link>, firstLink: nat, firstQuestion: nat, count: nat)
    requires count > 0
    ensures WithObjectives(links, firstLink, firstQuestion, count, 0) == links
  {
  }

  lemma OneObjective(links: map<nat, Link>, firstLink: nat, firstQuestion: nat, count: nat, k: nat)
    requires count > 0
    ensures WithObjectives(links, firstLink, firstQuestion, count, k + 1)
         == WithObjectives(links, firstLink, firstQuestion, count, k)
              [firstLink + k := Link(firstQuestion + k, k + 1, MarkSplit.Share(count, k))]
  {
  }

  /** A new link gets its place unless an old one stands there. */
  lemma CreateStep(links: map<nat, Link>, now: map<nat, Link>, firstLink: nat, k: nat)
    requires forall id :: id in now <==> id in links || firstLink <= id < firstLink + k
    requires forall id :: id in links ==> now[id] == links[id]
    requires forall id :: firstLink <= id < firstLink + k ==> now[id].order == id - firstLink + 1
    requires PlacesFree(links, k)
    ensures (forall other :: other in now ==> now[other].order != k + 1) <==> PlacesFree(links, k + 1)
  {
  }

  /** The parked links are out of the way of the new ones, unless there are too many of those. */
  lemma ParkedIsHigh(alone: map<nat, Link>, theory: seq<nat>, n: nat)
    requires forall id :: id in alone <==> id in theory
    requires forall k :: 0 <= k < |theory| ==> alone[theory[k]].order == PARKING + k + 1
    ensures theory == [] || n <= PARKING
       <==> PlacesFree(alone, n)
  {
    if theory != [] {
      assert theory[0] in alone;
    }
    forall id | id in alone && n <= PARKING ensures !(1 <= alone[id].order <= n) {
      var k :| 0 <= k < |theory| && theory[k] == id;
    }
  }

  lemma BackIsClear(alone: map<nat, Link>, full: map<nat, Link>, theory: seq<nat>, n: nat, firstLink: nat)
    requires forall id :: id in alone <==> id in theory
    requires forall k :: 0 <= k < |theory| ==> alone[theory[k]].order == PARKING + k + 1
    requires forall id :: id in full <==> id in alone || firstLink <= id < firstLink + n
    requires forall id :: id in alone ==> full[id] == alone[id]
    requires forall id :: firstLink <= id < firstLink + n ==> full[id].order == id - firstLink + 1
    requires theory == [] || n <= PARKING
    ensures SlotsClear(full, theory, n)
  {
    forall id | id in full && n < full[id].order <= n + |theory| ensures id in theory[..full[id].order - n] {
      assert id in alone;
      var j :| 0 <= j < |theory| && theory[j] == id;
      assert theory[..full[id].order - n][j] == id;
    }
  }

  /** Theory links that stand in their order above the parking base are never in front of their
      parking place. */
  lemma {:induction false} StandsBehind(links: map<nat, Link>, theory: seq<nat>, k: nat)
    requires forall j :: 0 <= j < |theory| ==> theory[j] in links && links[theory[j]].order > PARKING
    requires forall i, j :: 0 <= i < j < |theory| ==> links[theory[i]].order < links[theory[j]].order
    requires k < |theory|
    ensures links[theory[k]].order >= PARKING + k + 1
  {
    if k > 0 { StandsBehind(links, theory, k - 1); }
  }

  /** Theory links that are all above the parking base already can be parked exactly when no other
      link stands in the parking area. */
  lemma ParkedAgain(links: map<nat, Link>, theory: seq<nat>)
    requires forall j :: 0 <= j < |theory| ==> theory[j] in links && links[theory[j]].order > PARKING
    requires forall i, j :: 0 <= i < j < |theory| ==> links[theory[i]].order < links[theory[j]].order
    ensures SlotsClear(links, theory, PARKING) <==>
              forall id :: id in links && id !in theory ==> !(PARKING < links[id].order <= PARKING + |theory|)
  {
    forall id | id in theory && PARKING < links[id].order <= PARKING + |theory|
      ensures id in theory[..links[id].order - PARKING]
    {
      var k :| 0 <= k < |theory| && theory[k] == id;
      StandsBehind(links, theory, k);
      assert theory[..links[id].order - PARKING][k] == id;
    }
  }

  /** A theory link in the parking area blocks an earlier one that is still below it: links on 5
      and 10001 cannot be parked. */
  lemma MixedTheoryBlocks(a: Link, b: Link)
    requires a.order == 5 && b.order == PARKING + 1
    ensures !SlotsClear(map[1 := a, 2 := b], [1, 2], PARKING)
  {
    var links: map<nat, Link> := map[1 := a, 2 := b];
    assert 2 in links && [1, 2][..1] == [1];
  }

  /** The objective links of a rebuilt exam stand on 1 to n with distinct new questions, their
      marks total exactly twenty, and each question is keyed to one of its own options, the one
      its row names. */
  lemma RebuiltMarks(before: map<nat, Link>, links: map<nat, Link>, questions: map<nat, Question>,
                     firstLink: nat, firstQuestion: nat, theory: seq<nat>, rows: seq<Item>)
    requires |rows| > 0 && Rebuilt(before, links, questions, firstLink, firstQuestion, theory, rows)
    requires forall k :: 0 <= k < |rows| ==> ValidItem(rows[k])
    ensures forall id :: firstLink <= id < firstLink + |rows| ==> id in links && links[id].order == id - firstLink + 1
    ensures MarkSplit.Sum(seq(|rows|, k requires 0 <= k < |rows| => links[firstLink + k].marks)) == MarkSplit.TOTAL
    ensures forall k :: 0 <= k < |rows| ==>
              links[firstLink + k].question in questions
              && var q := questions[links[firstLink + k].question];
                 q.stem == rows[k].stem && q.options == rows[k].options && q.marks == links[firstLink + k].marks
                 && q.correct == {rows[k].key} && rows[k].key in q.options
  {
    hide MarkSplit.Share, ValidItem;
    MarkSplit.MarksAreExact(|rows|);
    assert forall id :: firstLink <= id < firstLink + |rows| ==> id in links;
    forall k | 0 <= k < |rows|
      ensures firstQuestion + k in questions && questions[firstQuestion + k] == NewQuestion(rows, k) && rows[k].key in rows[k].options
    {
      var id := firstQuestion + k;
      assert id in questions && questions[id] == NewQuestion(rows, id - firstQuestion);
      KeyIsAnOption(rows[k]);
    }
    assert seq(|rows|, k requires 0 <= k < |rows| => links[firstLink + k].marks) == MarkSplit.ObjectiveMarks(|rows|);
  }

  lemma KeyIsAnOption(i: Item)
    requires ValidItem(i)
    ensures i.key in i.options
  {
  }
}
