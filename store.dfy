/**
 * The questionnaire's session store: the current session, the phase of the
 * state machine, the position in the session's question list, the list
 * itself, and the history of completed sessions (newest first, at most 50).
 * Identifiers and clock readings the store draws itself are parameters here.
 */
module SessionStore {
  import opened Types

  /** How many sessions the history keeps. */
  const HISTORY_LIMIT: nat := 50

  /** The position of the first answer to question `qid`, or -1 when there is none. */
  function FindAnswerIndex(answers: seq<Answer>, qid: string): (r: int)
    ensures -1 <= r < |answers|
    ensures r >= 0 ==> answers[r].questionId == qid
    ensures r >= 0 ==> forall k :: 0 <= k < r ==> answers[k].questionId != qid
    ensures r == -1 ==> forall k :: 0 <= k < |answers| ==> answers[k].questionId != qid
  {
    if answers == [] then -1
    else if answers[0].questionId == qid then 0
    else
      var rest := FindAnswerIndex(answers[1..], qid);
      if rest == -1 then -1 else rest + 1
  }

  /** The first answer to question `qid`, if any. */
  function FindAnswer(answers: seq<Answer>, qid: string): (r: Option<Answer>)
    ensures r.Some? <==> exists k :: 0 <= k < |answers| && answers[k].questionId == qid
    ensures r.Some? ==> r.value.questionId == qid && r.value in answers
  {
    var i := FindAnswerIndex(answers, qid);
    if i >= 0 then Some(answers[i]) else None
  }

  /** No question is answered twice. */
  ghost predicate UniqueAnswerIds(answers: seq<Answer>) {
    forall i, j :: 0 <= i < j < |answers| ==> answers[i].questionId != answers[j].questionId
  }

  /** The answers after recording `a`: it replaces the answer to its question, or is appended when there is none. */
  function WithAnswer(answers: seq<Answer>, a: Answer): (r: seq<Answer>)
    ensures |r| >= |answers| && a in r
    ensures forall k :: 0 <= k < |answers| && answers[k].questionId != a.questionId ==> r[k] == answers[k]
  {
    var i := FindAnswerIndex(answers, a.questionId);
    if i >= 0 then
      assert answers[i := a][i] == a;
      answers[i := a]
    else
      assert (answers + [a])[|answers|] == a;
      answers + [a]
  }

  /** After recording `a`, the answer to its question is `a`. */
  lemma WithAnswerRecordsIt(answers: seq<Answer>, a: Answer)
    ensures FindAnswer(WithAnswer(answers, a), a.questionId) == Some(a)
  {
    var i := FindAnswerIndex(answers, a.questionId);
    var r := WithAnswer(answers, a);
    if i < 0 {
      assert r[|answers|] == a;
      var j := FindAnswerIndex(r, a.questionId);
      assert forall k :: 0 <= k < |answers| ==> r[k] == answers[k];
      assert j == |answers|;
    } else {
      var j := FindAnswerIndex(r, a.questionId);
      assert r[i] == a;
      assert forall k :: 0 <= k < i ==> r[k] == answers[k];
      assert j == i;
    }
  }

  /** Recording `a` leaves the answer to every other question as it was. */
  lemma WithAnswerKeepsOthers(answers: seq<Answer>, a: Answer, qid: string)
    requires qid != a.questionId
    ensures FindAnswer(WithAnswer(answers, a), qid) == FindAnswer(answers, qid)
  {
    var r := WithAnswer(answers, a);
    var i := FindAnswerIndex(answers, a.questionId);
    var before := FindAnswerIndex(answers, qid);
    var after := FindAnswerIndex(r, qid);
    forall k | 0 <= k < |answers| && k != i ensures r[k] == answers[k] {
    }
    if before >= 0 {
      assert r[before] == answers[before];
      assert after == before;
    } else {
      assert forall k :: 0 <= k < |r| ==> r[k].questionId != qid;
    }
  }

  /** The list grows by one exactly when the question had no answer yet. */
  lemma WithAnswerLength(answers: seq<Answer>, a: Answer)
    ensures |WithAnswer(answers, a)| == if FindAnswer(answers, a.questionId).Some? then |answers| else |answers| + 1
  {
  }

  /** Recording keeps the answers free of duplicates. */
  lemma WithAnswerKeepsUnique(answers: seq<Answer>, a: Answer)
    requires UniqueAnswerIds(answers)
    ensures UniqueAnswerIds(WithAnswer(answers, a))
  {
    var i := FindAnswerIndex(answers, a.questionId);
    var r := WithAnswer(answers, a);
    if i < 0 {
      forall x, y | 0 <= x < y < |r| ensures r[x].questionId != r[y].questionId {
        if y == |answers| {
          assert r[x] == answers[x];
        } else {
          assert r[x] == answers[x] && r[y] == answers[y];
        }
      }
    }
  }

  /** In answers free of duplicates, the answer found for a question is its only answer. */
  lemma FoundAnswerIsTheOnlyOne(answers: seq<Answer>, qid: string)
    requires UniqueAnswerIds(answers)
    ensures forall k :: 0 <= k < |answers| && answers[k].questionId == qid ==> FindAnswer(answers, qid) == Some(answers[k])
  {
    var i := FindAnswerIndex(answers, qid);
    forall k | 0 <= k < |answers| && answers[k].questionId == qid
      ensures FindAnswer(answers, qid) == Some(answers[k])
    {
      assert i == k;
    }
  }

  /** Answering the same question twice leaves only the second answer. */
  lemma WithAnswerTwice(answers: seq<Answer>, a: Answer, b: Answer)
    requires a.questionId == b.questionId
    ensures WithAnswer(WithAnswer(answers, a), b) == WithAnswer(answers, b)
  {
    var i := FindAnswerIndex(answers, a.questionId);
    var mid := WithAnswer(answers, a);
    var j := FindAnswerIndex(mid, a.questionId);
    if i >= 0 {
      assert forall k :: 0 <= k < i ==> mid[k] == answers[k];
      assert mid[i] == a;
      assert j == i;
    } else {
      assert forall k :: 0 <= k < |answers| ==> mid[k] == answers[k];
      assert mid[|answers|] == a;
      assert j == |answers|;
      assert mid[j := b] == answers + [b];
    }
  }

  /** The history after adding `s`: `s` first, then the earlier history, cut to HISTORY_LIMIT entries. */
  function PrependCapped(history: seq<TuningSession>, s: TuningSession): (r: seq<TuningSession>)
    ensures |r| == Min(|history| + 1, HISTORY_LIMIT)
    ensures r[0] == s
    ensures forall k :: 1 <= k < |r| ==> r[k] == history[k - 1]
  {
    ([s] + history)[..Min(|history| + 1, HISTORY_LIMIT)]
  }

  /** A history shorter than the limit loses nothing; a full one drops exactly its oldest entry. */
  lemma PrependCappedDropsOnlyOldest(history: seq<TuningSession>, s: TuningSession)
    requires |history| <= HISTORY_LIMIT
    ensures |history| < HISTORY_LIMIT ==> PrependCapped(history, s) == [s] + history
    ensures |history| == HISTORY_LIMIT ==> PrependCapped(history, s) == [s] + history[..HISTORY_LIMIT - 1]
  {
    var r := PrependCapped(history, s);
    if |history| < HISTORY_LIMIT {
      assert r == [s] + history;
    } else {
      assert r == [s] + history[..HISTORY_LIMIT - 1];
    }
  }

  class TuningStore {
    var currentSession: Option<TuningSession>
    var phase: TuningPhase
    var currentQuestionIndex: nat
    var sessionQuestions: seq<Question>
    var sessionHistory: seq<TuningSession>

    /**
     * The history never exceeds its limit, a completed current session
     * carries its results, and it answers each question at most once.
     */
    ghost predicate Valid()
      reads this
    {
      && |sessionHistory| <= HISTORY_LIMIT
      && (currentSession.Some? && currentSession.value.completed ==> currentSession.value.results.Some?)
      && (currentSession.Some? ==> UniqueAnswerIds(currentSession.value.answers))
    }

    /** The initial state: no session, the welcome phase, nothing loaded, no history. */
    constructor()
      ensures Valid()
      ensures currentSession == None && phase == Welcome && currentQuestionIndex == 0
      ensures sessionQuestions == [] && sessionHistory == []
    {
      currentSession := None;
      phase := Welcome;
      currentQuestionIndex := 0;
      sessionQuestions := [];
      sessionHistory := [];
    }

    method SetPhase(p: TuningPhase)
      requires Valid()
      modifies this
      ensures Valid()
      ensures phase == p
      ensures currentSession == old(currentSession) && currentQuestionIndex == old(currentQuestionIndex)
      ensures sessionQuestions == old(sessionQuestions) && sessionHistory == old(sessionHistory)
    {
      phase := p;
    }

    /**
     * Opens a fresh session for the selected domains, with identifier `id`
     * and creation time `now`, at the first question, in the tuning phase.
     * The question list is left as it is; the caller sets it next.
     */
    method StartSession(domains: seq<Domain>, id: string, now: int)
      requires Valid()
      modifies this
      ensures Valid()
      ensures currentSession == Some(TuningSession(id, None, now, domains, [], None, false))
      ensures currentQuestionIndex == 0 && phase == Tuning
      ensures sessionQuestions == old(sessionQuestions) && sessionHistory == old(sessionHistory)
    {
      currentSession := Some(TuningSession(id, None, now, domains, [], None, false));
      currentQuestionIndex := 0;
      phase := Tuning;
    }

    method SetSessionQuestions(questions: seq<Question>)
      requires Valid()
      modifies this
      ensures Valid()
      ensures sessionQuestions == questions
      ensures currentSession == old(currentSession) && phase == old(phase)
      ensures currentQuestionIndex == old(currentQuestionIndex) && sessionHistory == old(sessionHistory)
    {
      sessionQuestions := questions;
    }

    /**
     * Records option `oid` for question `qid` at time `now`: a previous
     * answer to the question is replaced in place, otherwise the answer is
     * appended. Without a current session nothing changes.
     */
    method AnswerQuestion(qid: string, oid: string, now: int)
      requires Valid()
      modifies this
      ensures Valid()
      ensures old(currentSession).None? ==> currentSession == None
      ensures old(currentSession).Some? ==>
        currentSession == Some(old(currentSession).value.(answers := WithAnswer(old(currentSession).value.answers, Answer(qid, oid, now))))
      ensures currentSession.Some? ==> FindAnswer(currentSession.value.answers, qid) == Some(Answer(qid, oid, now))
      ensures phase == old(phase) && currentQuestionIndex == old(currentQuestionIndex)
      ensures sessionQuestions == old(sessionQuestions) && sessionHistory == old(sessionHistory)
    {
      if currentSession.None? {
        return;
      }
      var session := currentSession.value;
      var answer := Answer(qid, oid, now);
      WithAnswerKeepsUnique(session.answers, answer);
      WithAnswerRecordsIt(session.answers, answer);
      currentSession := Some(session.(answers := WithAnswer(session.answers, answer)));
    }

    /** Moves to the next question unless the current one is the last. */
    method NextQuestion()
      requires Valid()
      modifies this
      ensures Valid()
      ensures old(IsLastQuestion()) ==> currentQuestionIndex == old(currentQuestionIndex)
      ensures !old(IsLastQuestion()) ==> currentQuestionIndex == old(currentQuestionIndex) + 1
      ensures old(currentQuestionIndex) < |sessionQuestions| ==> currentQuestionIndex < |sessionQuestions|
      ensures currentSession == old(currentSession) && phase == old(phase)
      ensures sessionQuestions == old(sessionQuestions) && sessionHistory == old(sessionHistory)
    {
      if currentQuestionIndex < |sessionQuestions| - 1 {
        currentQuestionIndex := currentQuestionIndex + 1;
      }
    }

    /** Moves to the previous question unless the current one is the first. */
    method PreviousQuestion()
      requires Valid()
      modifies this
      ensures Valid()
      ensures old(IsFirstQuestion()) ==> currentQuestionIndex == 0
      ensures !old(IsFirstQuestion()) ==> currentQuestionIndex == old(currentQuestionIndex) - 1
      ensures currentSession == old(currentSession) && phase == old(phase)
      ensures sessionQuestions == old(sessionQuestions) && sessionHistory == old(sessionHistory)
    {
      if currentQuestionIndex > 0 {
        currentQuestionIndex := currentQuestionIndex - 1;
      }
    }

    /**
     * Completes the current session with `results`, moves to the results
     * phase and puts the completed session at the head of the history.
     * Without a current session nothing changes.
     */
    method CompleteSession(results: TuningResults)
      requires Valid()
      modifies this
      ensures Valid()
      ensures old(currentSession).None? ==>
        currentSession == None && phase == old(phase) && sessionHistory == old(sessionHistory)
      ensures old(currentSession).Some? ==>
        && currentSession == Some(old(currentSession).value.(results := Some(results), completed := true))
        && phase == Results
        && sessionHistory == PrependCapped(old(sessionHistory), currentSession.value)
      ensures currentQuestionIndex == old(currentQuestionIndex) && sessionQuestions == old(sessionQuestions)
    {
      if currentSession.None? {
        return;
      }
      var completed := currentSession.value.(results := Some(results), completed := true);
      currentSession := Some(completed);
      phase := Results;
      AddToHistory(completed);
    }

    /** Drops the current session and its questions and returns to the welcome phase; the history stays. */
    method ResetSession()
      requires Valid()
      modifies this
      ensures Valid()
      ensures currentSession == None && phase == Welcome && currentQuestionIndex == 0 && sessionQuestions == []
      ensures sessionHistory == old(sessionHistory)
    {
      currentSession := None;
      phase := Welcome;
      currentQuestionIndex := 0;
      sessionQuestions := [];
    }

    /** The current session's answer to question `qid`, if there is a session and it has one. */
    function GetAnswerForQuestion(qid: string): (r: Option<Answer>)
      reads this
      ensures r.Some? <==> currentSession.Some? && exists k :: 0 <= k < |currentSession.value.answers| && currentSession.value.answers[k].questionId == qid
      ensures currentSession.Some? ==> r == FindAnswer(currentSession.value.answers, qid)
      ensures r.Some? ==> r.value.questionId == qid && r.value in currentSession.value.answers
      ensures currentSession.Some? && UniqueAnswerIds(currentSession.value.answers) ==>
        forall k :: 0 <= k < |currentSession.value.answers| && currentSession.value.answers[k].questionId == qid ==> r == Some(currentSession.value.answers[k])
    {
      if currentSession.None? then None
      else
        var answers := currentSession.value.answers;
        assert UniqueAnswerIds(answers) ==> forall k :: 0 <= k < |answers| && answers[k].questionId == qid ==> FindAnswer(answers, qid) == Some(answers[k]) by {
          if UniqueAnswerIds(answers) {
            FoundAnswerIsTheOnlyOne(answers, qid);
          }
        }
        FindAnswer(answers, qid)
    }

    /** Puts `s` at the head of the history, dropping the oldest entry beyond the limit. */
    method AddToHistory(s: TuningSession)
      requires Valid()
      modifies this
      ensures Valid()
      ensures sessionHistory == PrependCapped(old(sessionHistory), s)
      ensures currentSession == old(currentSession) && phase == old(phase)
      ensures currentQuestionIndex == old(currentQuestionIndex) && sessionQuestions == old(sessionQuestions)
    {
      sessionHistory := PrependCapped(sessionHistory, s);
    }

    method ClearHistory()
      requires Valid()
      modifies this
      ensures Valid()
      ensures sessionHistory == []
      ensures currentSession == old(currentSession) && phase == old(phase)
      ensures currentQuestionIndex == old(currentQuestionIndex) && sessionQuestions == old(sessionQuestions)
    {
      sessionHistory := [];
    }

    /** The question at the current position, or none when the position is past the list. */
    function CurrentQuestion(): (r: Option<Question>)
      reads this
      ensures r.Some? <==> currentQuestionIndex < |sessionQuestions|
      ensures r.Some? ==> r.value == sessionQuestions[currentQuestionIndex] && r.value in sessionQuestions
    {
      if currentQuestionIndex < |sessionQuestions| then Some(sessionQuestions[currentQuestionIndex]) else None
    }

    /** The one-based position of the current question and the length of the list. */
    function Progress(): (r: (int, int))
      reads this
      ensures r.0 >= 1 && r.1 >= 0
    {
      (currentQuestionIndex + 1, |sessionQuestions|)
    }

    /** The current position is the last of the list, or past it. */
    predicate IsLastQuestion()
      reads this
    {
      currentQuestionIndex >= |sessionQuestions| - 1
    }

    predicate IsFirstQuestion()
      reads this
    {
      currentQuestionIndex == 0
    }

    /** There is a current question and the current session holds an answer to it. */
    predicate HasAnsweredCurrent()
      reads this
    {
      && CurrentQuestion().Some?
      && currentSession.Some?
      && exists k :: 0 <= k < |currentSession.value.answers| && currentSession.value.answers[k].questionId == CurrentQuestion().value.id
    }
  }

  /**
   * While there is a current question, its one-based position lies between
   * one and the total, and equals the total exactly on the last question.
   */
  lemma ProgressWithinList(s: TuningStore)
    ensures s.CurrentQuestion().Some? ==> 1 <= s.Progress().0 <= s.Progress().1
    ensures s.CurrentQuestion().Some? ==> (s.Progress().0 == s.Progress().1 <==> s.IsLastQuestion())
  {
  }

  /** The current question counts as answered exactly when the store returns an answer for it. */
  lemma AnsweredCurrentIffAnswerFound(s: TuningStore)
    ensures s.HasAnsweredCurrent() <==>
      s.CurrentQuestion().Some? && s.GetAnswerForQuestion(s.CurrentQuestion().value.id).Some?
  {
  }
}
