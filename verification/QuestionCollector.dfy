/**
  Sorting the raw practice questions of a download into accepted and rejected rows: a question
  is kept when nothing is wrong with it, its answer can be inferred, and no kept question of
  the subject has the same stem.
 */
module QuestionCollector {
  import opened Wrappers
  import opened Chars
  import opened AnswerInference

  /** A downloaded question after clean-up of its texts, with what the textual checks found. */
  datatype Raw = Raw(subject: string, stem: string, options: seq<string>, explanation: string,
                     badToken: bool, namesDiagram: bool, images: seq<bool>, leaksAnswer: bool)

  datatype Reason = TooShort | BadEncoding | BlankOption | DuplicateOptions | NoDiagramImage | DiagramImageMissing
                  | AnswerLeak | AmbiguousAnswer | DuplicateStem

  /** An accepted row: the turned options, the place of the correct one, and its text. */
  datatype Item = Item(stem: string, options: seq<string>, place: nat, correctText: string)

  /** The text functions of the importer: signatures, comparison of an option with an
      explanation, and the number taken from the hash of a stem. */
  datatype Texts = Texts(sig: string -> string, look: string -> string -> Evidence, seed: string -> nat)

  predicate DistinctBy(options: seq<string>, sig: string -> string) {
    forall j, k :: 0 <= j < k < |options| ==> sig(options[j]) != sig(options[k])
  }

  /** `reject_reason` */
  function RejectReason(raw: Raw, t: Texts): Option<Reason> {
    if WordCount(raw.stem) <= 5 || |raw.stem| < 18 then Some(TooShort)
    else if raw.badToken then Some(BadEncoding)
    else if |raw.options| != 4 || "" in raw.options then Some(BlankOption)
    else if !DistinctBy(raw.options, t.sig) then Some(DuplicateOptions)
    else if raw.namesDiagram && raw.images == [] then Some(NoDiagramImage)
    else if raw.namesDiagram && !raw.images[0] then Some(DiagramImageMissing)
    else if raw.leaksAnswer then Some(AnswerLeak)
    else None
  }

  ghost function Answer(raw: Raw, t: Texts): Option<nat> { Inferred(raw.options, t.look(raw.explanation)) }

  /** Nothing is wrong with the question itself. */
  ghost predicate Clean(raw: Raw, subjects: set<string>, t: Texts) {
    raw.subject in subjects && RejectReason(raw, t).None? && Answer(raw, t).Some?
  }

  predicate SameStem(a: Raw, b: Raw, t: Texts) { a.subject == b.subject && t.sig(a.stem) == t.sig(b.stem) }

  /** Clean, and the first of its stem that is. */
  ghost predicate Accepts(payload: seq<Raw>, k: nat, subjects: set<string>, t: Texts)
    requires k < |payload|
  {
    Clean(payload[k], subjects, t)
    && forall j :: 0 <= j < k && Clean(payload[j], subjects, t) ==> !SameStem(payload[j], payload[k], t)
  }

  ghost function Why(raw: Raw, t: Texts): Reason {
    if RejectReason(raw, t).Some? then RejectReason(raw, t).value
    else if Answer(raw, t).None? then AmbiguousAnswer
    else DuplicateStem
  }

  /** The accepted rows of a subject among the first n, in order. */
  ghost function AcceptedOf(payload: seq<Raw>, n: nat, subject: string, subjects: set<string>, t: Texts): seq<nat>
    requires n <= |payload|
  {
    if n == 0 then []
    else
      AcceptedOf(payload, n - 1, subject, subjects, t)
      + if payload[n - 1].subject == subject && Accepts(payload, n - 1, subjects, t) then [n - 1] else []
  }

  /** The rejected rows of all requested subjects, in order. */
  ghost function RejectedAt(payload: seq<Raw>, n: nat, subjects: set<string>, t: Texts): seq<nat>
    requires n <= |payload|
  {
    if n == 0 then []
    else
      RejectedAt(payload, n - 1, subjects, t)
      + if payload[n - 1].subject in subjects && !Accepts(payload, n - 1, subjects, t) then [n - 1] else []
  }

  predicate Increasing(s: seq<nat>, n: nat) {
    (forall a, b :: 0 <= a < b < |s| ==> s[a] < s[b]) && forall k :: k in s ==> k < n
  }

  lemma Extended(s: seq<nat>, n: nat)
    requires Increasing(s, n)
    ensures Increasing(s + [], n + 1) && Increasing(s + [n], n + 1)
    ensures forall k: nat :: k in s + [n] <==> k in s || k == n
    ensures s + [] == s
  {
    forall a, b | 0 <= a < b < |s + [n]| ensures (s + [n])[a] < (s + [n])[b] {
      assert s[a] in s;
    }
  }

  lemma {:induction false} AcceptedMembers(payload: seq<Raw>, n: nat, subject: string, subjects: set<string>, t: Texts)
    requires n <= |payload|
    ensures Increasing(AcceptedOf(payload, n, subject, subjects, t), n)
    ensures forall k: nat :: k in AcceptedOf(payload, n, subject, subjects, t)
                        <==> k < n && payload[k].subject == subject && Accepts(payload, k, subjects, t)
  {
    hide Accepts;
    if n > 0 {
      AcceptedMembers(payload, n - 1, subject, subjects, t);
      Extended(AcceptedOf(payload, n - 1, subject, subjects, t), n - 1);
    }
  }

  lemma {:induction false} RejectedMembers(payload: seq<Raw>, n: nat, subjects: set<string>, t: Texts)
    requires n <= |payload|
    ensures Increasing(RejectedAt(payload, n, subjects, t), n)
    ensures forall k: nat :: k in RejectedAt(payload, n, subjects, t)
                        <==> k < n && payload[k].subject in subjects && !Accepts(payload, k, subjects, t)
  {
    hide Accepts;
    if n > 0 {
      RejectedMembers(payload, n - 1, subjects, t);
      Extended(RejectedAt(payload, n - 1, subjects, t), n - 1);
    }
  }

  /** The row made of an accepted question. */
  ghost predicate Fits(raw: Raw, item: Item, t: Texts) {
    && |raw.options| == 4 && Answer(raw, t).Some? && Answer(raw, t).value < 4
    && item.stem == raw.stem
    && item.options == Rotated(raw.options, t.seed(raw.stem) % 4)
    && item.correctText == raw.options[Answer(raw, t).value]
    && item.place < 4 && item.options[item.place] == item.correctText
    && (forall k :: 0 <= k < 4 && item.options[k] == item.correctText ==> k == item.place)
  }

  ghost predicate AllFit(payload: seq<Raw>, places: seq<nat>, items: seq<Item>, t: Texts) {
    |items| == |places| && forall m :: 0 <= m < |items| ==> places[m] < |payload| && Fits(payload[places[m]], items[m], t)
  }

  ghost predicate AllRejected(payload: seq<Raw>, places: seq<nat>, rejected: seq<(Raw, Reason)>, t: Texts) {
    |rejected| == |places|
    && forall m :: 0 <= m < |places| ==>
         places[m] < |payload| && rejected[m] == (payload[places[m]], Why(payload[places[m]], t))
  }

  /** The signatures seen are those of the clean questions so far. */
  ghost predicate SeenIs(payload: seq<Raw>, n: nat, subject: string, subjects: set<string>, t: Texts, seen: set<string>)
    requires n <= |payload|
  {
    forall s :: s in seen <==>
      exists j :: 0 <= j < n && Clean(payload[j], subjects, t) && payload[j].subject == subject && t.sig(payload[j].stem) == s
  }

  // ------------------------------------------------------------------- the loop

  method MakeItem(raw: Raw, index: nat, t: Texts) returns (item: Item)
    requires RejectReason(raw, t).None? && Answer(raw, t) == Some(index) && index < |raw.options|
    ensures Fits(raw, item, t)
  {
    forall j, k | 0 <= j < k < 4 ensures raw.options[j] != raw.options[k] {
      assert t.sig(raw.options[j]) != t.sig(raw.options[k]);
    }
    var rotated, place := RotateOptions(raw.options, t.seed(raw.stem), index);
    RotationKeepsTheAnswer(raw.options, t.seed(raw.stem) % 4, t.look(raw.explanation), place);
    item := Item(raw.stem, rotated, place, raw.options[index]);
  }

  /** `collect_rows` */
  method CollectRows(payload: seq<Raw>, subjects: set<string>, t: Texts)
    returns (rows: map<string, seq<Item>>, rejected: seq<(Raw, Reason)>)
    ensures rows.Keys == subjects
    ensures forall s :: s in subjects ==> AllFit(payload, AcceptedOf(payload, |payload|, s, subjects, t), rows[s], t)
    ensures AllRejected(payload, RejectedAt(payload, |payload|, subjects, t), rejected, t)
  {
    hide AllFit, AllRejected, SeenIs, Accepts, RejectReason, AcceptedOf, RejectedAt, Clean, Fits;
    rows := map s | s in subjects :: [];
    rejected := [];
    var seen: map<string, set<string>> := map s | s in subjects :: {};
    NothingYet(payload, subjects, t);
    for k := 0 to |payload|
      invariant rows.Keys == subjects && seen.Keys == subjects
      invariant forall s :: s in subjects ==> AllFit(payload, AcceptedOf(payload, k, s, subjects, t), rows[s], t)
      invariant forall s :: s in subjects ==> SeenIs(payload, k, s, subjects, t, seen[s])
      invariant AllRejected(payload, RejectedAt(payload, k, subjects, t), rejected, t)
    {
      var raw := payload[k];
      if raw.subject !in rows {
        SkippedStep(payload, k, subjects, t);
        continue;
      }
      var reason := RejectReason(raw, t);
      var index: Option<nat> := None;
      if reason.None? {
        index := InferCorrectIndex(raw.options, t.look(raw.explanation));
        WinnerIsUnique(Scores(raw.options, t.look(raw.explanation)), index, Answer(raw, t));
      }
      if index.None? && reason.None? {
        reason := Some(AmbiguousAnswer);
      }
      if t.sig(raw.stem) in seen[raw.subject] && reason.None? {
        reason := Some(DuplicateStem);
      }
      Verdict(payload, k, subjects, t, seen[raw.subject], index, reason);
      forall s | s in subjects && s != raw.subject
        ensures AcceptedOf(payload, k + 1, s, subjects, t) == AcceptedOf(payload, k, s, subjects, t)
        ensures SeenIs(payload, k + 1, s, subjects, t, seen[s])
      {
        OtherSubject(payload, k, s, subjects, t, seen[s]);
      }
      if reason.Some? {
        RejectedStep(payload, k, subjects, t, rejected, seen[raw.subject]);
        rejected := rejected + [(raw, reason.value)];
        continue;
      }
      var item := MakeItem(raw, index.value, t);
      AcceptedStep(payload, k, subjects, t, rows[raw.subject], seen[raw.subject], item);
      seen := seen[raw.subject := seen[raw.subject] + {t.sig(raw.stem)}];
      rows := rows[raw.subject := rows[raw.subject] + [item]];
    }
  }

  lemma NothingYet(payload: seq<Raw>, subjects: set<string>, t: Texts)
    ensures forall s :: AllFit(payload, AcceptedOf(payload, 0, s, subjects, t), [], t)
    ensures forall s :: SeenIs(payload, 0, s, subjects, t, {})
    ensures AllRejected(payload, RejectedAt(payload, 0, subjects, t), [], t)
  {
  }

  lemma SkippedStep(payload: seq<Raw>, k: nat, subjects: set<string>, t: Texts)
    requires k < |payload| && payload[k].subject !in subjects
    ensures forall s :: s in subjects ==> AcceptedOf(payload, k + 1, s, subjects, t) == AcceptedOf(payload, k, s, subjects, t)
    ensures forall s, seen :: s in subjects && SeenIs(payload, k, s, subjects, t, seen) ==> SeenIs(payload, k + 1, s, subjects, t, seen)
    ensures RejectedAt(payload, k + 1, subjects, t) == RejectedAt(payload, k, subjects, t)
  {
    forall s, seen | s in subjects && SeenIs(payload, k, s, subjects, t, seen)
      ensures SeenIs(payload, k + 1, s, subjects, t, seen)
    {
      OtherSubject(payload, k, s, subjects, t, seen);
    }
  }

  lemma OtherSubject(payload: seq<Raw>, k: nat, s: string, subjects: set<string>, t: Texts, seen: set<string>)
    requires k < |payload| && payload[k].subject != s && SeenIs(payload, k, s, subjects, t, seen)
    ensures AcceptedOf(payload, k + 1, s, subjects, t) == AcceptedOf(payload, k, s, subjects, t)
    ensures SeenIs(payload, k + 1, s, subjects, t, seen)
  {
    hide Clean, Accepts;
    forall x | x in seen
      ensures exists j :: 0 <= j < k + 1 && Clean(payload[j], subjects, t) && payload[j].subject == s && t.sig(payload[j].stem) == x
    {
    }
  }

  /** The reason found for one row is right: none exactly for the accepted ones. */
  lemma Verdict(payload: seq<Raw>, k: nat, subjects: set<string>, t: Texts, seen: set<string>,
                index: Option<nat>, reason: Option<Reason>)
    requires k < |payload| && payload[k].subject in subjects
    requires SeenIs(payload, k, payload[k].subject, subjects, t, seen)
    requires RejectReason(payload[k], t).None? ==> index == Answer(payload[k], t)
    requires reason == if RejectReason(payload[k], t).Some? then RejectReason(payload[k], t)
                       else if index.None? then Some(AmbiguousAnswer)
                       else if t.sig(payload[k].stem) in seen then Some(DuplicateStem)
                       else None
    ensures reason.None? <==> Accepts(payload, k, subjects, t)
    ensures reason.Some? ==> reason.value == Why(payload[k], t)
    ensures reason.None? ==> RejectReason(payload[k], t).None? && index.Some? && index.value < |payload[k].options|
  {
    hide RejectReason, Inferred;
    var raw := payload[k];
    if Clean(raw, subjects, t) {
      AnswerInRange(raw, t);
      if t.sig(raw.stem) in seen {
        var j :| 0 <= j < k && Clean(payload[j], subjects, t) && payload[j].subject == raw.subject && t.sig(payload[j].stem) == t.sig(raw.stem);
        assert SameStem(payload[j], raw, t);
      }
    }
  }

  lemma AnswerInRange(raw: Raw, t: Texts)
    requires Answer(raw, t).Some?
    ensures Answer(raw, t).value < |raw.options|
  {
    assert IsWinner(Scores(raw.options, t.look(raw.explanation)), Answer(raw, t));
  }

  lemma RejectedStep(payload: seq<Raw>, k: nat, subjects: set<string>, t: Texts, rejected: seq<(Raw, Reason)>,
                     seen: set<string>)
    requires k < |payload| && payload[k].subject in subjects && !Accepts(payload, k, subjects, t)
    requires AllRejected(payload, RejectedAt(payload, k, subjects, t), rejected, t)
    requires SeenIs(payload, k, payload[k].subject, subjects, t, seen)
    ensures AllRejected(payload, RejectedAt(payload, k + 1, subjects, t), rejected + [(payload[k], Why(payload[k], t))], t)
    ensures AcceptedOf(payload, k + 1, payload[k].subject, subjects, t) == AcceptedOf(payload, k, payload[k].subject, subjects, t)
    ensures SeenIs(payload, k + 1, payload[k].subject, subjects, t, seen)
  {
    hide Clean, Why;
    var raw := payload[k];
    assert RejectedAt(payload, k + 1, subjects, t) == RejectedAt(payload, k, subjects, t) + [k];
    if Clean(raw, subjects, t) {
      var j :| 0 <= j < k && Clean(payload[j], subjects, t) && SameStem(payload[j], raw, t);
      assert t.sig(raw.stem) in seen;
    }
  }

  lemma AcceptedStep(payload: seq<Raw>, k: nat, subjects: set<string>, t: Texts, items: seq<Item>,
                     seen: set<string>, item: Item)
    requires k < |payload| && payload[k].subject in subjects && Accepts(payload, k, subjects, t)
    requires AllFit(payload, AcceptedOf(payload, k, payload[k].subject, subjects, t), items, t) && Fits(payload[k], item, t)
    requires SeenIs(payload, k, payload[k].subject, subjects, t, seen)
    ensures RejectedAt(payload, k + 1, subjects, t) == RejectedAt(payload, k, subjects, t)
    ensures AllFit(payload, AcceptedOf(payload, k + 1, payload[k].subject, subjects, t), items + [item], t)
    ensures SeenIs(payload, k + 1, payload[k].subject, subjects, t, seen + {t.sig(payload[k].stem)})
  {
    hide Fits, Answer, RejectReason, SeenIs, AllFit, Clean;
    var s := payload[k].subject;
    var places := AcceptedOf(payload, k, s, subjects, t);
    assert AcceptedOf(payload, k + 1, s, subjects, t) == places + [k];
    FitsOneMore(payload, places, items, t, k, item);
    AcceptedIsClean(payload, k, subjects, t);
    SeenGrows(payload, k, s, subjects, t, seen);
  }

  lemma AcceptedIsClean(payload: seq<Raw>, k: nat, subjects: set<string>, t: Texts)
    requires k < |payload| && Accepts(payload, k, subjects, t)
    ensures Clean(payload[k], subjects, t)
  {
  }

  lemma FitsOneMore(payload: seq<Raw>, places: seq<nat>, items: seq<Item>, t: Texts, k: nat, item: Item)
    requires AllFit(payload, places, items, t) && k < |payload| && Fits(payload[k], item, t)
    ensures AllFit(payload, places + [k], items + [item], t)
  {
    hide Fits;
  }

  lemma SeenGrows(payload: seq<Raw>, k: nat, subject: string, subjects: set<string>, t: Texts, seen: set<string>)
    requires k < |payload| && payload[k].subject == subject && Clean(payload[k], subjects, t)
    requires SeenIs(payload, k, subject, subjects, t, seen)
    ensures SeenIs(payload, k + 1, subject, subjects, t, seen + {t.sig(payload[k].stem)})
  {
    hide Clean;
  }

  // ------------------------------------------------------------------ what it means

  /** Every raw row of a requested subject is accepted for that subject or rejected, never both;
      rows of other subjects are neither. */
  lemma EveryRowOnce(payload: seq<Raw>, k: nat, subjects: set<string>, t: Texts)
    requires k < |payload|
    ensures payload[k].subject in subjects ==>
              (k in AcceptedOf(payload, |payload|, payload[k].subject, subjects, t)
               <==> k !in RejectedAt(payload, |payload|, subjects, t))
    ensures payload[k].subject !in subjects ==> k !in RejectedAt(payload, |payload|, subjects, t)
    ensures forall s :: s != payload[k].subject || s !in subjects ==> k !in AcceptedOf(payload, |payload|, s, subjects, t)
    ensures Increasing(RejectedAt(payload, |payload|, subjects, t), |payload|)
    ensures forall s :: Increasing(AcceptedOf(payload, |payload|, s, subjects, t), |payload|)
  {
    hide RejectReason, Answer, AcceptedOf, RejectedAt, Increasing;
    RejectedMembers(payload, |payload|, subjects, t);
    forall s {
      AcceptedMembers(payload, |payload|, s, subjects, t);
    }
  }

  /** The accepted stems of a subject have pairwise different signatures. */
  lemma DistinctStems(payload: seq<Raw>, subject: string, subjects: set<string>, t: Texts, items: seq<Item>, a: nat, b: nat)
    requires AllFit(payload, AcceptedOf(payload, |payload|, subject, subjects, t), items, t)
    requires a < b < |items|
    ensures t.sig(items[a].stem) != t.sig(items[b].stem)
  {
    hide Clean, Answer, AcceptedOf, Rotated;
    var places := AcceptedOf(payload, |payload|, subject, subjects, t);
    AcceptedMembers(payload, |payload|, subject, subjects, t);
    assert places[a] in places && places[b] in places;
    assert Accepts(payload, places[b], subjects, t) && Accepts(payload, places[a], subjects, t);
    assert !SameStem(payload[places[a]], payload[places[b]], t);
    assert Fits(payload[places[a]], items[a], t) && Fits(payload[places[b]], items[b], t);
  }

  /** No clean question is lost: one with its stem is accepted, at its place or before. */
  lemma {:induction false} CleanStemsSurvive(payload: seq<Raw>, k: nat, subjects: set<string>, t: Texts)
    requires k < |payload| && Clean(payload[k], subjects, t)
    ensures exists j: nat :: j <= k && Accepts(payload, j, subjects, t) && SameStem(payload[j], payload[k], t)
    decreases k
  {
    hide Clean;
    if Accepts(payload, k, subjects, t) {
      assert SameStem(payload[k], payload[k], t);
    } else {
      var j :| 0 <= j < k && Clean(payload[j], subjects, t) && SameStem(payload[j], payload[k], t);
      CleanStemsSurvive(payload, j, subjects, t);
      var i: nat :| i <= j && Accepts(payload, i, subjects, t) && SameStem(payload[i], payload[j], t);
      assert SameStem(payload[i], payload[k], t);
    }
  }

  /** Inference on the row as stored, with its turned options, gives the stored answer again. */
  lemma StoredAnswerIsInferred(raw: Raw, item: Item, t: Texts)
    requires RejectReason(raw, t).None? && Fits(raw, item, t)
    ensures Inferred(item.options, t.look(raw.explanation)) == Some(item.place)
    ensures multiset(item.options) == multiset(raw.options)
  {
    forall j, k | 0 <= j < k < |raw.options| ensures raw.options[j] != raw.options[k] {
      assert t.sig(raw.options[j]) != t.sig(raw.options[k]);
    }
    var shift := t.seed(raw.stem) % 4;
    RotationKeepsTheAnswer(raw.options, shift, t.look(raw.explanation), item.place);
    assert raw.options == raw.options[..shift] + raw.options[shift..];
  }
}
