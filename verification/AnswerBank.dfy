/**
  Storing the accepted questions of a subject in a fresh bank by bulk inserts, and linking each
  to its correct option through the ids the database handed out.
 */
module AnswerBank {
  import opened Wrappers
  import opened AnswerInference
  import opened QuestionCollector

  datatype QuestionRow = QuestionRow(id: nat, stem: string)
  datatype OptionRow = OptionRow(id: nat, question: nat, place: nat, text: string)
  datatype AnswerRow = AnswerRow(id: nat, question: nat)

  /** The tables after the import of `items`, ids counting up from the given ones. */
  ghost predicate Stored(items: seq<Item>, questions: seq<QuestionRow>, options: seq<OptionRow>,
                         answers: seq<AnswerRow>, links: seq<(nat, nat)>, q: nat, o: nat, a: nat) {
    && QuestionsStored(items, questions, q) && OptionsStored(items, options, q, o)
    && AnswersStored(items, answers, q, a) && LinksStored(items, links, o, a)
  }

  ghost predicate QuestionsStored(items: seq<Item>, questions: seq<QuestionRow>, q: nat) {
    |questions| == |items| && forall k :: 0 <= k < |items| ==> questions[k] == QuestionRow(q + k, items[k].stem)
  }

  ghost predicate OptionsStored(items: seq<Item>, options: seq<OptionRow>, q: nat, o: nat) {
    |options| == 4 * |items| && OptionsSoFar(items, options, q, o)
  }

  ghost predicate OptionsSoFar(items: seq<Item>, options: seq<OptionRow>, q: nat, o: nat) {
    |options| <= 4 * |items|
    && forall m :: 0 <= m < |options| ==>
         |items[m / 4].options| == 4 && options[m] == OptionRow(o + m, q + m / 4, m % 4, items[m / 4].options[m % 4])
  }

  ghost predicate AnswersStored(items: seq<Item>, answers: seq<AnswerRow>, q: nat, a: nat) {
    |answers| == |items| && forall k :: 0 <= k < |items| ==> answers[k] == AnswerRow(a + k, q + k)
  }

  ghost predicate LinksStored(items: seq<Item>, links: seq<(nat, nat)>, o: nat, a: nat) {
    |links| == |items| && forall k :: 0 <= k < |items| ==> links[k] == (a + k, o + 4 * k + items[k].place)
  }

  predicate Storable(items: seq<Item>) {
    forall k :: 0 <= k < |items| ==> |items[k].options| == 4 && items[k].place < 4
  }

  class Bank {
    var questions: seq<QuestionRow>   // the rows of this bank, in order of their ids
    var options: seq<OptionRow>
    var answers: seq<AnswerRow>
    var links: seq<(nat, nat)>        // answer id, option id
    var nextQuestion: nat
    var nextOption: nat
    var nextAnswer: nat

    /** A new bank; the id counters belong to the database. */
    constructor (nextQuestion: nat, nextOption: nat, nextAnswer: nat)
      ensures questions == [] && options == [] && answers == [] && links == []
      ensures this.nextQuestion == nextQuestion && this.nextOption == nextOption && this.nextAnswer == nextAnswer
    {
      questions, options, answers, links := [], [], [], [];
      this.nextQuestion, this.nextOption, this.nextAnswer := nextQuestion, nextOption, nextAnswer;
    }

    method CreateQuestions(items: seq<Item>)
      requires questions == []
      modifies this`questions, this`nextQuestion
      ensures QuestionsStored(items, questions, old(nextQuestion))
    {
      ghost var q := nextQuestion;
      for k := 0 to |items|
        invariant QuestionsStored(items[..k], questions, q) && nextQuestion == q + k
      {
        questions := questions + [QuestionRow(nextQuestion, items[k].stem)];
        nextQuestion := nextQuestion + 1;
      }
      assert items[..|items|] == items;
    }

    method CreateOptions(items: seq<Item>, ghost q: nat)
      requires Storable(items) && options == [] && QuestionsStored(items, questions, q)
      modifies this`options, this`nextOption
      ensures OptionsStored(items, options, q, old(nextOption))
    {
      hide OptionsSoFar;
      ghost var o := nextOption;
      NoOptions(items, q, o);
      for k := 0 to |items|
        invariant |options| == 4 * k && nextOption == o + 4 * k && OptionsSoFar(items, options, q, o)
      {
        for place := 0 to |items[k].options|
          invariant |options| == 4 * k + place && nextOption == o + 4 * k + place && OptionsSoFar(items, options, q, o)
        {
          var option := OptionRow(nextOption, questions[k].id, place, items[k].options[place]);
          OneMoreOption(items, options, q, o, k, place, option);
          options := options + [option];
          nextOption := nextOption + 1;
        }
      }
    }

    method CreateAnswers(items: seq<Item>, ghost q: nat)
      requires QuestionsStored(items, questions, q) && answers == []
      modifies this`answers, this`nextAnswer
      ensures AnswersStored(items, answers, q, old(nextAnswer))
    {
      ghost var a := nextAnswer;
      for k := 0 to |items|
        invariant AnswersStored(items[..k], answers, q, a) && nextAnswer == a + k
      {
        answers := answers + [AnswerRow(nextAnswer, questions[k].id)];
        nextAnswer := nextAnswer + 1;
      }
      assert items[..|items|] == items;
    }

    /** The dictionary from question to the place of its correct option. */
    method CorrectPlaces(items: seq<Item>, ghost q: nat) returns (places: map<nat, nat>)
      requires QuestionsStored(items, questions, q)
      ensures forall id :: q <= id < q + |items| ==> id in places && places[id] == items[id - q].place
    {
      places := map[];
      for k := 0 to |items|
        invariant forall id :: q <= id < q + k ==> id in places && places[id] == items[id - q].place
      {
        places := places[questions[k].id := items[k].place];
      }
    }

    /** The dictionary from question and place to option id. */
    method OptionIds(ghost items: seq<Item>, ghost q: nat, ghost o: nat) returns (ids: map<(nat, nat), nat>)
      requires OptionsStored(items, options, q, o)
      ensures forall m :: 0 <= m < 4 * |items| ==> Key(q, m) in ids && ids[Key(q, m)] == o + m
    {
      ids := map[];
      for m := 0 to |options|
        invariant forall j :: 0 <= j < m ==> Key(q, j) in ids && ids[Key(q, j)] == o + j
      {
        var option := options[m];
        assert (option.question, option.place) == Key(q, m);
        ids := ids[(option.question, option.place) := option.id];
      }
    }

    method LinkAnswers(items: seq<Item>, ghost q: nat, ghost o: nat, ghost a: nat)
      requires Storable(items) && QuestionsStored(items, questions, q) && OptionsStored(items, options, q, o)
      requires AnswersStored(items, answers, q, a) && links == []
      modifies this`links
      ensures LinksStored(items, links, o, a)
    {
      hide OptionsSoFar;
      var places := CorrectPlaces(items, q);
      var ids := OptionIds(items, q, o);
      for k := 0 to |answers|
        invariant LinksStored(items[..k], links, o, a)
      {
        var answer := answers[k];
        var place := places[answer.question];
        assert (answer.question, place) == Key(q, 4 * k + place);
        links := links + [(answer.id, ids[(answer.question, place)])];
      }
      assert items[..|items|] == items;
    }

    /** `bulk_create_subject_questions` */
    method BulkCreate(items: seq<Item>)
      requires Storable(items)
      requires questions == [] && options == [] && answers == [] && links == []
      modifies this
      ensures Stored(items, questions, options, answers, links, old(nextQuestion), old(nextOption), old(nextAnswer))
    {
      hide QuestionsStored, OptionsStored, AnswersStored, LinksStored, Storable;
      CreateQuestions(items);
      CreateOptions(items, old(nextQuestion));
      CreateAnswers(items, old(nextQuestion));
      LinkAnswers(items, old(nextQuestion), old(nextOption), old(nextAnswer));
    }
  }

  /** Question id and place of the m-th option. */
  function Key(q: nat, m: nat): (nat, nat) { (q + m / 4, m % 4) }

  lemma NoOptions(items: seq<Item>, q: nat, o: nat)
    ensures OptionsSoFar(items, [], q, o)
  {
  }

  lemma OneMoreOption(items: seq<Item>, options: seq<OptionRow>, q: nat, o: nat, k: nat, place: nat, option: OptionRow)
    requires OptionsSoFar(items, options, q, o) && k < |items| && |items[k].options| == 4 && place < 4
    requires |options| == 4 * k + place && option == OptionRow(o + |options|, q + k, place, items[k].options[place])
    ensures OptionsSoFar(items, options + [option], q, o)
  {
    assert |options| / 4 == k && |options| % 4 == place;
  }

  // ------------------------------------------------------------------ what it means

  /** Each stored question has exactly the four options of its row, one answer, and one link,
      which names the option carrying the correct text of the row. */
  lemma OneCorrectLink(items: seq<Item>, questions: seq<QuestionRow>, options: seq<OptionRow>, answers: seq<AnswerRow>,
                       links: seq<(nat, nat)>, q: nat, o: nat, a: nat, k: nat)
    requires Storable(items) && Stored(items, questions, options, answers, links, q, o, a) && k < |items|
    requires items[k].options[items[k].place] == items[k].correctText
    ensures (set m | 0 <= m < |options| && options[m].question == questions[k].id) == {4 * k, 4 * k + 1, 4 * k + 2, 4 * k + 3}
    ensures forall place :: 0 <= place < 4 ==>
              options[4 * k + place].place == place && options[4 * k + place].text == items[k].options[place]
    ensures (set m | 0 <= m < |answers| && answers[m].question == questions[k].id) == {k}
    ensures (set m | 0 <= m < |links| && links[m].0 == answers[k].id) == {k}
    ensures var correct := 4 * k + items[k].place;
      && links[k].1 == options[correct].id && options[correct].text == items[k].correctText
      && forall m :: 0 <= m < |options| && options[m].id == links[k].1 ==> m == correct
  {
    forall place | 0 <= place < 4
      ensures options[4 * k + place] == OptionRow(o + 4 * k + place, q + k, place, items[k].options[place])
    {
      var m := 4 * k + place;
      assert m / 4 == k && m % 4 == place;
    }
    assert questions[k].id == q + k;
    forall m | 0 <= m < |options| ensures options[m].question == questions[k].id <==> m in {4 * k, 4 * k + 1, 4 * k + 2, 4 * k + 3} {
      assert options[m].question == q + m / 4;
    }
  }

  /** From the download to the bank: every stored question comes from an accepted raw row, has
      that row's options, and its one correct link names the option the explanation points to. */
  lemma AnswerKeysAreRight(payload: seq<Raw>, places: seq<nat>, items: seq<Item>, t: Texts,
                           questions: seq<QuestionRow>, options: seq<OptionRow>, answers: seq<AnswerRow>,
                           links: seq<(nat, nat)>, q: nat, o: nat, a: nat, k: nat)
    requires AllFit(payload, places, items, t) && k < |items|
    requires forall m :: 0 <= m < |places| && places[m] < |payload| ==> RejectReason(payload[places[m]], t).None?
    requires Stored(items, questions, options, answers, links, q, o, a)
    ensures Storable(items) && |questions| == |links| == |items| && |options| == 4 * |items|
    ensures var raw, correct := payload[places[k]], 4 * k + items[k].place;
      && questions[k].stem == raw.stem
      && multiset{options[4 * k].text, options[4 * k + 1].text, options[4 * k + 2].text, options[4 * k + 3].text}
         == multiset(raw.options)
      && links[k].1 == options[correct].id
      && Answer(raw, t).Some? && Answer(raw, t).value < |raw.options|
      && options[correct].text == raw.options[Answer(raw, t).value]
  {
    hide RejectReason, Stored, Answer, Rotated;
    AllStorable(payload, places, items, t);
    var raw, item := payload[places[k]], items[k];
    assert Fits(raw, item, t);
    StoredAnswerIsInferred(raw, item, t);
    StoredTables(items, questions, options, answers, links, q, o, a, k);
    OneCorrectLink(items, questions, options, answers, links, q, o, a, k);
    assert item.options == [item.options[0], item.options[1], item.options[2], item.options[3]];
    assert options[4 * k + 0].text == item.options[0];
    FitsAnswer(raw, item, t);
  }

  lemma FitsAnswer(raw: Raw, item: Item, t: Texts)
    requires Fits(raw, item, t)
    ensures Answer(raw, t).Some? && Answer(raw, t).value < |raw.options|
    ensures item.correctText == raw.options[Answer(raw, t).value]
  {
  }

  lemma AllStorable(payload: seq<Raw>, places: seq<nat>, items: seq<Item>, t: Texts)
    requires AllFit(payload, places, items, t)
    ensures Storable(items)
  {
    hide Answer;
  }

  lemma StoredTables(items: seq<Item>, questions: seq<QuestionRow>, options: seq<OptionRow>, answers: seq<AnswerRow>,
                     links: seq<(nat, nat)>, q: nat, o: nat, a: nat, k: nat)
    requires Stored(items, questions, options, answers, links, q, o, a) && k < |items|
    ensures |questions| == |answers| == |links| == |items| && |options| == 4 * |items|
    ensures questions[k].stem == items[k].stem
  {
  }
}
