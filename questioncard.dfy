/**
 * The question card: the results calculation that turns a session's answers
 * into per-note resonance and an overall vibrancy, and the handlers that
 * select an option, continue and go back. Timers and rendering are not
 * modelled; a handler's delayed store call happens at once here.
 */
module QuestionCard {
  import opened Types
  import opened SessionStore

  /** The position of a level from the strongest (0) to the weakest (4). */
  function Rank(r: ResonanceLevel): nat {
    match r
    case High => 0
    case MidHigh => 1
    case Mid => 2
    case MidLow => 3
    case Low => 4
  }

  /** The score of a resonance level: one for the strongest, a quarter less per step down. */
  function Weight(r: ResonanceLevel): (w: real)
    ensures w == 1.0 - 0.25 * (Rank(r) as real)
    ensures 0.0 <= w <= 1.0
  {
    match r
    case High => 1.0
    case MidHigh => 0.75
    case Mid => 0.5
    case MidLow => 0.25
    case Low => 0.0
  }

  /**
   * The first element of `xs` whose identifier, read by `idOf`, is `id`: the
   * lookup of an answer's question among the session questions, and of its
   * option among that question's options.
   */
  function FindById<T(==)>(xs: seq<T>, id: string, idOf: T -> string): (r: Option<T>)
    ensures r.None? <==> forall k :: 0 <= k < |xs| ==> idOf(xs[k]) != id
    ensures r.Some? ==> idOf(r.value) == id && r.value in xs
  {
    if xs == [] then None
    else if idOf(xs[0]) == id then Some(xs[0])
    else FindById(xs[1..], id, idOf)
  }

  /** The lookup returns the element at the first position whose identifier matches. */
  lemma {:induction false} FindByIdIsFirstMatch<T>(xs: seq<T>, id: string, idOf: T -> string, k: nat)
    requires k < |xs| && idOf(xs[k]) == id
    requires forall m :: 0 <= m < k ==> idOf(xs[m]) != id
    ensures FindById(xs, id, idOf) == Some(xs[k])
  {
    if k > 0 {
      assert idOf(xs[0]) != id;
      FindByIdIsFirstMatch(xs[1..], id, idOf, k - 1);
    }
  }

  function QuestionId(q: Question): string { q.id }

  function OptionId(o: AnswerOption): string { o.id }

  /**
   * The note an answer scores and the weight it adds: none when its
   * question is not in the session's list or its option is not among that
   * question's options.
   */
  function Resolve(a: Answer, qs: seq<Question>): (r: Option<(Note, real)>)
    ensures r.Some? <==> FindById(qs, a.questionId, QuestionId).Some? && FindById(FindById(qs, a.questionId, QuestionId).value.options, a.optionId, OptionId).Some?
    ensures r.Some? ==> 0.0 <= r.value.1 <= 1.0
  {
    match FindById(qs, a.questionId, QuestionId)
    case None => None
    case Some(q) =>
      match FindById(q.options, a.optionId, OptionId)
      case None => None
      case Some(o) => Some((q.note, Weight(o.resonance)))
  }

  /** Whether answer `a` resolves and scores note `n`. */
  predicate Scores(a: Answer, qs: seq<Question>, n: Note) {
    Resolve(a, qs).Some? && Resolve(a, qs).value.0 == n
  }

  /** How many of `answers` resolve and score note `n`. */
  function NoteCount(answers: seq<Answer>, qs: seq<Question>, n: Note): nat {
    if answers == [] then 0
    else
      var last := answers[|answers| - 1];
      NoteCount(answers[..|answers| - 1], qs, n) + (if Scores(last, qs, n) then 1 else 0)
  }

  /** The summed weight of the answers that resolve and score note `n`. */
  function NoteTotal(answers: seq<Answer>, qs: seq<Question>, n: Note): real {
    if answers == [] then 0.0
    else
      var last := answers[|answers| - 1];
      NoteTotal(answers[..|answers| - 1], qs, n) + (if Scores(last, qs, n) then Resolve(last, qs).value.1 else 0.0)
  }

  /** The mean weight, or the neutral 0.5 when nothing was counted. */
  function NoteValue(total: real, count: nat): real {
    if count > 0 then total / (count as real) else 0.5
  }

  /** The resonance of note `n` over `answers`. */
  function NoteResult(answers: seq<Answer>, qs: seq<Question>, n: Note): NoteResonance {
    var count := NoteCount(answers, qs, n);
    NoteResonance(NoteValue(NoteTotal(answers, qs, n), count), None, count)
  }

  /** The resonance of every note. */
  function NoteResults(answers: seq<Answer>, qs: seq<Question>): (r: map<Note, NoteResonance>)
    ensures forall n: Note :: n in r && r[n] == NoteResult(answers, qs, n)
  {
    NoteKeysListEachNote();
    map n: Note | n in NOTE_KEYS :: NoteResult(answers, qs, n)
  }

  /** The summed value of the notes among `ks` that have at least one answer. */
  function AnsweredSum(ks: seq<Note>, answers: seq<Answer>, qs: seq<Question>): real {
    if ks == [] then 0.0
    else
      var r := NoteResult(answers, qs, ks[|ks| - 1]);
      AnsweredSum(ks[..|ks| - 1], answers, qs) + (if r.questionsAnswered > 0 then r.value else 0.0)
  }

  /** How many notes among `ks` have at least one answer. */
  function AnsweredNotes(ks: seq<Note>, answers: seq<Answer>, qs: seq<Question>): nat {
    if ks == [] then 0
    else
      var r := NoteResult(answers, qs, ks[|ks| - 1]);
      AnsweredNotes(ks[..|ks| - 1], answers, qs) + (if r.questionsAnswered > 0 then 1 else 0)
  }

  /** The mean value of the answered notes, or 0.5 when no note has an answer. */
  function Vibrancy(answers: seq<Answer>, qs: seq<Question>): real {
    var count := AnsweredNotes(NOTE_KEYS, answers, qs);
    if count > 0 then AnsweredSum(NOTE_KEYS, answers, qs) / (count as real) else 0.5
  }

  /**
   * The results of a session at time `now`: no note results and vibrancy
   * 0.5 without a session; per-domain results are always empty.
   */
  function SessionResults(session: Option<TuningSession>, qs: seq<Question>, now: int): TuningResults {
    if session.None? then TuningResults(map[], map[], 0.5, now)
    else
      var answers := session.value.answers;
      TuningResults(NoteResults(answers, qs), map[], Vibrancy(answers, qs), now)
  }

  /**
   * The tally loop: per note, the summed weight and the number of the
   * answers that resolve to it.
   */
  method TallyAnswers(answers: seq<Answer>, qs: seq<Question>) returns (totals: map<Note, real>, counts: map<Note, nat>)
    ensures forall n: Note :: n in totals && totals[n] == NoteTotal(answers, qs, n)
    ensures forall n: Note :: n in counts && counts[n] == NoteCount(answers, qs, n)
  {
    totals := map[Safety := 0.0, Pleasure := 0.0, Power := 0.0, Light := 0.0, Now := 0.0, Heat := 0.0];
    counts := map[Safety := 0, Pleasure := 0, Power := 0, Light := 0, Now := 0, Heat := 0];
    assert answers[..0] == [];
    forall n: Note ensures n in totals && n in counts && totals[n] == 0.0 && counts[n] == 0 {
      match n
      case Safety => case Pleasure => case Power => case Light => case Now => case Heat =>
    }
    for i := 0 to |answers|
      invariant forall n: Note :: n in totals && totals[n] == NoteTotal(answers[..i], qs, n)
      invariant forall n: Note :: n in counts && counts[n] == NoteCount(answers[..i], qs, n)
    {
      var a := answers[i];
      TallyStep(answers, i, qs);
      var q := FindById(qs, a.questionId, QuestionId);
      if q.Some? {
        var option := FindById(q.value.options, a.optionId, OptionId);
        if option.Some? {
          var n := q.value.note;
          assert Resolve(a, qs) == Some((n, Weight(option.value.resonance)));
          totals := totals[n := totals[n] + Weight(option.value.resonance)];
          counts := counts[n := counts[n] + 1];
        } else {
          assert Resolve(a, qs).None?;
        }
      } else {
        assert Resolve(a, qs).None?;
      }
    }
    assert answers[..|answers|] == answers;
  }

  /**
   * The averaging loop: over the notes in declaration order, each note's
   * mean (or 0.5 without answers), and the sum and number of the means of
   * the notes that have answers.
   */
  method AverageNotes(answers: seq<Answer>, qs: seq<Question>, totals: map<Note, real>, counts: map<Note, nat>)
    returns (notes: map<Note, NoteResonance>, totalVibrancy: real, noteCount: nat)
    requires forall n: Note :: n in totals && totals[n] == NoteTotal(answers, qs, n)
    requires forall n: Note :: n in counts && counts[n] == NoteCount(answers, qs, n)
    ensures notes == NoteResults(answers, qs)
    ensures totalVibrancy == AnsweredSum(NOTE_KEYS, answers, qs)
    ensures noteCount == AnsweredNotes(NOTE_KEYS, answers, qs)
  {
    notes := map[];
    totalVibrancy := 0.0;
    noteCount := 0;
    for k := 0 to |NOTE_KEYS|
      invariant forall n: Note :: n in notes <==> n in NOTE_KEYS[..k]
      invariant forall n: Note :: n in notes ==> notes[n] == NoteResult(answers, qs, n)
      invariant totalVibrancy == AnsweredSum(NOTE_KEYS[..k], answers, qs)
      invariant noteCount == AnsweredNotes(NOTE_KEYS[..k], answers, qs)
    {
      var n := NOTE_KEYS[k];
      AveragingStep(NOTE_KEYS, k, answers, qs);
      var count := counts[n];
      var value := if count > 0 then totals[n] / (count as real) else 0.5;
      notes := notes[n := NoteResonance(value, None, count)];
      if count > 0 {
        totalVibrancy := totalVibrancy + value;
        noteCount := noteCount + 1;
      }
    }
    assert NOTE_KEYS[..|NOTE_KEYS|] == NOTE_KEYS;
  }

  /** The results calculation: the tally loop, then the averaging loop over the notes. */
  method CalculateResults(session: Option<TuningSession>, qs: seq<Question>, now: int) returns (r: TuningResults)
    ensures r == SessionResults(session, qs, now)
  {
    if session.None? {
      return TuningResults(map[], map[], 0.5, now);
    }
    var answers := session.value.answers;
    var totals, counts := TallyAnswers(answers, qs);
    var notes, totalVibrancy, noteCount := AverageNotes(answers, qs, totals, counts);
    r := TuningResults(notes, map[], if noteCount > 0 then totalVibrancy / (noteCount as real) else 0.5, now);
  }


  /** One more answer adds its weight and one to the note it scores, and nothing to the others. */
  lemma TallyStep(answers: seq<Answer>, i: nat, qs: seq<Question>)
    requires i < |answers|
    ensures forall n: Note ::
      NoteTotal(answers[..i + 1], qs, n) == NoteTotal(answers[..i], qs, n) + (if Scores(answers[i], qs, n) then Resolve(answers[i], qs).value.1 else 0.0)
    ensures forall n: Note ::
      NoteCount(answers[..i + 1], qs, n) == NoteCount(answers[..i], qs, n) + (if Scores(answers[i], qs, n) then 1 else 0)
  {
    assert answers[..i + 1][..i] == answers[..i];
  }

  /** One more note adds its value and one when it has answers, and nothing otherwise. */
  lemma AveragingStep(ks: seq<Note>, k: nat, answers: seq<Answer>, qs: seq<Question>)
    requires k < |ks|
    ensures AnsweredSum(ks[..k + 1], answers, qs) == AnsweredSum(ks[..k], answers, qs)
      + (if NoteCount(answers, qs, ks[k]) > 0 then NoteResult(answers, qs, ks[k]).value else 0.0)
    ensures AnsweredNotes(ks[..k + 1], answers, qs) == AnsweredNotes(ks[..k], answers, qs)
      + (if NoteCount(answers, qs, ks[k]) > 0 then 1 else 0)
  {
    assert ks[..k + 1][..k] == ks[..k];
  }

  // ---------- What the results promise ----------

  /** The weight summed for a note lies between zero and the number of answers counted for it. */
  lemma {:induction false} TotalWithinCount(answers: seq<Answer>, qs: seq<Question>, n: Note)
    ensures 0.0 <= NoteTotal(answers, qs, n) <= NoteCount(answers, qs, n) as real
  {
    if answers != [] {
      TotalWithinCount(answers[..|answers| - 1], qs, n);
    }
  }

  /** A sum of `count` values from the 0-1 scale, divided by `count`, is on the 0-1 scale. */
  lemma MeanOfUnitValues(sum: real, count: nat)
    requires count > 0 && 0.0 <= sum <= count as real
    ensures 0.0 <= sum / (count as real) <= 1.0
  {
    var c := count as real;
    var m := sum / c;
    assert m * c == sum;
    assert (m - 1.0) * c == sum - c;
  }

  /** Every note value lies on the 0-1 scale. */
  lemma NoteValueInUnitInterval(answers: seq<Answer>, qs: seq<Question>, n: Note)
    ensures 0.0 <= NoteResult(answers, qs, n).value <= 1.0
  {
    TotalWithinCount(answers, qs, n);
    var count := NoteCount(answers, qs, n);
    if count > 0 {
      MeanOfUnitValues(NoteTotal(answers, qs, n), count);
    }
  }

  /** The sum over answered notes lies between zero and their number. */
  lemma {:induction false} AnsweredSumWithinCount(ks: seq<Note>, answers: seq<Answer>, qs: seq<Question>)
    ensures 0.0 <= AnsweredSum(ks, answers, qs) <= AnsweredNotes(ks, answers, qs) as real
  {
    if ks != [] {
      AnsweredSumWithinCount(ks[..|ks| - 1], answers, qs);
      NoteValueInUnitInterval(answers, qs, ks[|ks| - 1]);
    }
  }

  /** The overall vibrancy lies on the 0-1 scale. */
  lemma VibrancyInUnitInterval(answers: seq<Answer>, qs: seq<Question>)
    ensures 0.0 <= Vibrancy(answers, qs) <= 1.0
  {
    AnsweredSumWithinCount(NOTE_KEYS, answers, qs);
    var count := AnsweredNotes(NOTE_KEYS, answers, qs);
    if count > 0 {
      MeanOfUnitValues(AnsweredSum(NOTE_KEYS, answers, qs), count);
    }
  }

  /**
   * Every note result and the overall vibrancy lie on the 0-1 scale, and no
   * per-domain result is ever produced.
   */
  lemma ResultsInUnitInterval(session: Option<TuningSession>, qs: seq<Question>, now: int)
    ensures SessionResults(session, qs, now).domains == map[]
    ensures 0.0 <= SessionResults(session, qs, now).overallVibrancy <= 1.0
    ensures forall n :: n in SessionResults(session, qs, now).notes ==> 0.0 <= SessionResults(session, qs, now).notes[n].value <= 1.0
  {
    if session.Some? {
      var answers := session.value.answers;
      forall n: Note ensures 0.0 <= NoteResult(answers, qs, n).value <= 1.0 {
        NoteValueInUnitInterval(answers, qs, n);
      }
      VibrancyInUnitInterval(answers, qs);
    }
  }

  /** With no answers, every note reads 0.5 with none answered, and so does the vibrancy. */
  lemma NoAnswersReadNeutral(session: TuningSession, qs: seq<Question>, now: int)
    requires session.answers == []
    ensures forall n: Note :: SessionResults(Some(session), qs, now).notes[n] == NoteResonance(0.5, None, 0)
    ensures SessionResults(Some(session), qs, now).overallVibrancy == 0.5
  {
    assert AnsweredNotes(NOTE_KEYS, [], qs) == 0 by {
      AnsweredNotesNone(NOTE_KEYS, qs);
    }
  }

  lemma {:induction false} AnsweredNotesNone(ks: seq<Note>, qs: seq<Question>)
    ensures AnsweredNotes(ks, [], qs) == 0
  {
    if ks != [] {
      AnsweredNotesNone(ks[..|ks| - 1], qs);
    }
  }

  /** An answer whose question or option cannot be found changes no note result. */
  lemma UnresolvedAnswerIsSkipped(answers: seq<Answer>, a: Answer, qs: seq<Question>, n: Note)
    requires Resolve(a, qs).None?
    ensures NoteResult(answers + [a], qs, n) == NoteResult(answers, qs, n)
  {
    assert (answers + [a])[..|answers|] == answers;
  }

  /** Every answer resolves, and to the same weight `w`. */
  ghost predicate UniformAnswers(answers: seq<Answer>, qs: seq<Question>, w: real) {
    forall k :: 0 <= k < |answers| ==> Resolve(answers[k], qs).Some? && Resolve(answers[k], qs).value.1 == w
  }

  /** `w` added up `c` times. */
  function Scaled(w: real, c: nat): real {
    if c == 0 then 0.0 else Scaled(w, c - 1) + w
  }

  /** `w` added up `c` times, divided by `c`, is `w`. */
  lemma {:induction false} ScaledMean(w: real, c: nat)
    requires c > 0
    ensures Scaled(w, c) / (c as real) == w
  {
    ScaledIsProduct(w, c);
    assert Scaled(w, c) == w * (c as real);
  }

  lemma {:induction false} ScaledIsProduct(w: real, c: nat)
    ensures Scaled(w, c) == w * (c as real)
  {
    if c > 0 {
      ScaledIsProduct(w, c - 1);
    }
  }

  /** When every answer weighs `w`, a note's total is `w` counted once per answer of that note. */
  lemma {:induction false} UniformTotal(answers: seq<Answer>, qs: seq<Question>, w: real, n: Note)
    requires UniformAnswers(answers, qs, w)
    ensures NoteTotal(answers, qs, n) == Scaled(w, NoteCount(answers, qs, n))
  {
    if answers != [] {
      var init := answers[..|answers| - 1];
      var last := answers[|answers| - 1];
      UniformPrefix(answers, qs, w);
      UniformTotal(init, qs, w, n);
      var scores := Scores(last, qs, n);
      assert NoteTotal(answers, qs, n) == NoteTotal(init, qs, n) + (if scores then w else 0.0);
      assert NoteCount(answers, qs, n) == NoteCount(init, qs, n) + (if scores then 1 else 0);
    }
  }

  /** Dropping the last answer keeps the answers uniform. */
  lemma UniformPrefix(answers: seq<Answer>, qs: seq<Question>, w: real)
    requires answers != [] && UniformAnswers(answers, qs, w)
    ensures UniformAnswers(answers[..|answers| - 1], qs, w)
  {
    var init := answers[..|answers| - 1];
    forall k | 0 <= k < |init| ensures Resolve(init[k], qs).Some? && Resolve(init[k], qs).value.1 == w {
      assert init[k] == answers[k];
    }
  }


  /** When every answered note reads `w`, their sum is `w` counted once per answered note. */
  lemma {:induction false} UniformSum(ks: seq<Note>, answers: seq<Answer>, qs: seq<Question>, w: real)
    requires forall n: Note :: NoteCount(answers, qs, n) > 0 ==> NoteResult(answers, qs, n).value == w
    ensures AnsweredSum(ks, answers, qs) == Scaled(w, AnsweredNotes(ks, answers, qs))
  {
    if ks != [] {
      UniformSum(ks[..|ks| - 1], answers, qs, w);
    }
  }

  /** When every answer weighs `w`, every answered note reads `w`. */
  lemma UniformNoteValues(answers: seq<Answer>, qs: seq<Question>, w: real)
    requires UniformAnswers(answers, qs, w)
    ensures forall n: Note :: NoteCount(answers, qs, n) > 0 ==> NoteResult(answers, qs, n).value == w
  {
    forall n: Note | NoteCount(answers, qs, n) > 0 ensures NoteResult(answers, qs, n).value == w {
      UniformTotal(answers, qs, w, n);
      ScaledMean(w, NoteCount(answers, qs, n));
    }
  }

  /**
   * When every answer resolves to the same weight `w` and there is at least
   * one, every answered note and the overall vibrancy read exactly `w`.
   */
  lemma UniformAnswersReadTheirWeight(answers: seq<Answer>, qs: seq<Question>, w: real)
    requires answers != [] && UniformAnswers(answers, qs, w)
    ensures forall n: Note :: NoteCount(answers, qs, n) > 0 ==> NoteResult(answers, qs, n).value == w
    ensures Vibrancy(answers, qs) == w
  {
    UniformNoteValues(answers, qs, w);
    UniformSum(NOTE_KEYS, answers, qs, w);
    var a := answers[0];
    var n := Resolve(a, qs).value.0;
    AnsweredSomewhere(answers, qs, n, 0);
    NotesCounted(NOTE_KEYS, answers, qs, n);
    ScaledMean(w, AnsweredNotes(NOTE_KEYS, answers, qs));
  }

  /** A resolved answer at position k is counted for its note. */
  lemma {:induction false} AnsweredSomewhere(answers: seq<Answer>, qs: seq<Question>, n: Note, k: nat)
    requires k < |answers| && Scores(answers[k], qs, n)
    ensures NoteCount(answers, qs, n) > 0
  {
    var init := answers[..|answers| - 1];
    if k < |answers| - 1 {
      assert init[k] == answers[k];
      AnsweredSomewhere(init, qs, n, k);
    }
  }

  /** A note of `ks` that has answers makes the number of answered notes of `ks` positive. */
  lemma {:induction false} NotesCounted(ks: seq<Note>, answers: seq<Answer>, qs: seq<Question>, n: Note)
    requires n in ks && NoteCount(answers, qs, n) > 0
    ensures AnsweredNotes(ks, answers, qs) > 0
  {
    if ks[|ks| - 1] != n {
      assert n in ks[..|ks| - 1];
      NotesCounted(ks[..|ks| - 1], answers, qs, n);
    }
  }

  // ---------- Handlers ----------

  /** Selecting an option records it for the card's question at once and makes it the selected one. */
  method HandleSelectOption(store: TuningStore, qid: string, oid: string, now: int) returns (selected: Option<string>)
    requires store.Valid()
    modifies store
    ensures store.Valid()
    ensures selected == Some(oid)
    ensures old(store.currentSession).Some? ==>
      store.currentSession == Some(old(store.currentSession).value.(answers := WithAnswer(old(store.currentSession).value.answers, Answer(qid, oid, now))))
    ensures old(store.currentSession).None? ==> store.currentSession == None
    ensures store.phase == old(store.phase) && store.currentQuestionIndex == old(store.currentQuestionIndex)
    ensures store.sessionQuestions == old(store.sessionQuestions) && store.sessionHistory == old(store.sessionHistory)
  {
    store.AnswerQuestion(qid, oid, now);
    selected := Some(oid);
  }

  /** An option id that the card treats as a selection: present and not the empty string. */
  predicate HasSelection(selected: Option<string>) {
    selected.Some? && selected.value != ""
  }

  /**
   * Continue: without a selection nothing happens; on the last question the
   * session is completed with the results computed at time `now` (nothing
   * happens when there is no session); otherwise the store moves to the
   * next question.
   */
  method HandleContinue(store: TuningStore, selected: Option<string>, now: int)
    requires store.Valid()
    modifies store
    ensures store.Valid()
    ensures !HasSelection(selected) ==>
      && store.currentSession == old(store.currentSession) && store.phase == old(store.phase)
      && store.currentQuestionIndex == old(store.currentQuestionIndex) && store.sessionHistory == old(store.sessionHistory)
    ensures HasSelection(selected) && old(store.IsLastQuestion()) && old(store.currentSession).Some? ==>
      && store.currentSession == Some(old(store.currentSession).value.(
           results := Some(SessionResults(old(store.currentSession), old(store.sessionQuestions), now)), completed := true))
      && store.phase == Results
      && store.sessionHistory == PrependCapped(old(store.sessionHistory), store.currentSession.value)
      && store.currentQuestionIndex == old(store.currentQuestionIndex)
    ensures HasSelection(selected) && old(store.IsLastQuestion()) && old(store.currentSession).None? ==>
      && store.currentSession == None && store.phase == old(store.phase)
      && store.currentQuestionIndex == old(store.currentQuestionIndex) && store.sessionHistory == old(store.sessionHistory)
    ensures HasSelection(selected) && !old(store.IsLastQuestion()) ==>
      && store.currentQuestionIndex == old(store.currentQuestionIndex) + 1
      && store.currentSession == old(store.currentSession) && store.phase == old(store.phase)
      && store.sessionHistory == old(store.sessionHistory)
    ensures store.sessionQuestions == old(store.sessionQuestions)
  {
    if !HasSelection(selected) {
      return;
    }
    if store.IsLastQuestion() {
      var results := CalculateResults(store.currentSession, store.sessionQuestions, now);
      store.CompleteSession(results);
    } else {
      store.NextQuestion();
    }
  }

  /** Back: nothing on the first question, otherwise the store moves to the previous one. */
  method HandleBack(store: TuningStore)
    requires store.Valid()
    modifies store
    ensures store.Valid()
    ensures old(store.IsFirstQuestion()) ==> store.currentQuestionIndex == old(store.currentQuestionIndex)
    ensures !old(store.IsFirstQuestion()) ==> store.currentQuestionIndex == old(store.currentQuestionIndex) - 1
    ensures store.currentSession == old(store.currentSession) && store.phase == old(store.phase)
    ensures store.sessionQuestions == old(store.sessionQuestions) && store.sessionHistory == old(store.sessionHistory)
  {
    if store.IsFirstQuestion() {
      return;
    }
    store.PreviousQuestion();
  }
}
