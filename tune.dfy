/**
 * The tuning page: the domain picker (toggle one domain, select all), the
 * kick-off that builds a session's question list, the reset on landing
 * after a finished session, and which view the page shows.
 */
module TunePage {
  import opened Types
  import opened Catalog
  import opened QuestionSelection
  import opened RoundRobin
  import opened QuestionShuffle
  import opened SessionStore

  /** `s` with every occurrence of `d` taken out, the rest in order. */
  function Without(s: seq<Domain>, d: Domain): (r: seq<Domain>)
    ensures d !in r
    ensures forall e :: e != d ==> (e in r <==> e in s)
    ensures multiset(r) == multiset(s)[d := 0]
    ensures IsSubsequence(r, s)
  {
    assert s != [] ==> s == [s[0]] + s[1..];
    if s == [] then []
    else if s[0] == d then Without(s[1..], d)
    else [s[0]] + Without(s[1..], d)
  }

  /** Toggling a domain: drop it when it is selected, otherwise append it at the end. */
  function ToggleDomain(selected: seq<Domain>, d: Domain): (r: seq<Domain>)
    ensures d in r <==> d !in selected
    ensures forall e :: e != d ==> (e in r <==> e in selected)
    ensures d !in selected ==> r == selected + [d]
  {
    if d in selected then Without(selected, d) else selected + [d]
  }

  /** No domain is selected twice. */
  ghost predicate NoDuplicates(s: seq<Domain>) {
    forall i, j :: 0 <= i < j < |s| ==> s[i] != s[j]
  }

  /** Taking out a domain keeps a duplicate-free list duplicate-free. */
  lemma {:induction false} WithoutKeepsNoDuplicates(s: seq<Domain>, d: Domain)
    requires NoDuplicates(s)
    ensures NoDuplicates(Without(s, d))
  {
    if s != [] {
      WithoutKeepsNoDuplicates(s[1..], d);
      var rest := Without(s[1..], d);
      if s[0] != d {
        var r := [s[0]] + rest;
        forall i, j | 0 <= i < j < |r| ensures r[i] != r[j] {
          if i == 0 {
            assert r[j] == rest[j - 1] && rest[j - 1] in rest;
            assert s[0] !in s[1..];
          } else {
            assert r[i] == rest[i - 1] && r[j] == rest[j - 1];
          }
        }
      }
    }
  }

  /** Toggling keeps a duplicate-free selection duplicate-free. */
  lemma ToggleKeepsNoDuplicates(selected: seq<Domain>, d: Domain)
    requires NoDuplicates(selected)
    ensures NoDuplicates(ToggleDomain(selected, d))
  {
    if d in selected {
      WithoutKeepsNoDuplicates(selected, d);
    }
  }

  /** A list without `d` is unchanged when `d` is taken out. */
  lemma {:induction false} WithoutAbsent(s: seq<Domain>, d: Domain)
    requires d !in s
    ensures Without(s, d) == s
  {
    if s != [] {
      WithoutAbsent(s[1..], d);
    }
  }

  /** Toggling an unselected domain twice restores the selection. */
  lemma ToggleTwiceRestores(selected: seq<Domain>, d: Domain)
    requires d !in selected
    ensures ToggleDomain(ToggleDomain(selected, d), d) == selected
  {
    var once := selected + [d];
    assert d in once;
    WithoutAbsent(selected, d);
    WithoutAppend(selected, d);
  }

  /** Taking `d` out of a list that ends in `d` takes out that last entry and the earlier ones. */
  lemma {:induction false} WithoutAppend(s: seq<Domain>, d: Domain)
    ensures Without(s + [d], d) == Without(s, d)
  {
    if s == [] {
      assert [d][1..] == [];
    } else {
      assert (s + [d])[0] == s[0] && (s + [d])[1..] == s[1..] + [d];
      WithoutAppend(s[1..], d);
    }
  }

  /** Select all: the ids of the domain table, in table order. */
  function SelectAllDomains(): (r: seq<Domain>)
    ensures |r| == |DOMAINS| && forall i :: 0 <= i < |r| ==> r[i] == DOMAINS[i].id
  {
    seq(|DOMAINS|, i requires 0 <= i < |DOMAINS| => DOMAINS[i].id)
  }

  /** Selecting all gives the seven domains once each, in declaration order. */
  lemma SelectAllIsEveryDomain()
    ensures SelectAllDomains() == [Spirit, Body, Self, Relationships, Wealth, Purpose, Play]
    ensures NoDuplicates(SelectAllDomains())
    ensures forall d: Domain :: d in SelectAllDomains()
  {
    DomainsListEachDomainOnce();
    var r := SelectAllDomains();
    assert r == [DOMAINS[0].id, DOMAINS[1].id, DOMAINS[2].id, DOMAINS[3].id, DOMAINS[4].id, DOMAINS[5].id, DOMAINS[6].id];
    forall d: Domain ensures d in r {
      match d
      case Spirit => assert r[0] == d;
      case Body => assert r[1] == d;
      case Self => assert r[2] == d;
      case Relationships => assert r[3] == d;
      case Wealth => assert r[4] == d;
      case Purpose => assert r[5] == d;
      case Play => assert r[6] == d;
    }
  }

  /** The question count shown under the picker. */
  function QuestionCount(selected: seq<Domain>): (c: nat)
    ensures c <= |AllQuestions()|
  {
    |GetQuestionsForDomains(selected)|
  }

  /** Filtering for a selection that holds every domain leaves the list as it is. */
  lemma {:induction false} FilterKeepingAll(qs: seq<Question>, domains: seq<Domain>)
    requires forall d: Domain :: d in domains
    ensures FilterByDomains(qs, domains) == qs
  {
    if qs != [] {
      FilterKeepingAll(qs[1..], domains);
      assert KeptFor(qs[0], domains);
    }
  }

  /** With every domain selected, the count is the whole catalog. */
  lemma AllDomainsCountWholeCatalog()
    ensures QuestionCount(SelectAllDomains()) == |AllQuestions()| == 34
  {
    SelectAllIsEveryDomain();
    CatalogIsWellFormed();
    var all := AllQuestions();
    FilterKeepingAll(all, SelectAllDomains());
    assert GetQuestionsForDomains(SelectAllDomains()) == all;
  }

  /** Filtering for a larger selection never keeps fewer questions. */
  lemma {:induction false} FilterGrowsWithSelection(qs: seq<Question>, small: seq<Domain>, large: seq<Domain>)
    requires forall d :: d in small ==> d in large
    ensures |FilterByDomains(qs, small)| <= |FilterByDomains(qs, large)|
  {
    if qs != [] {
      FilterGrowsWithSelection(qs[1..], small, large);
    }
  }

  /** Selecting more domains never lowers the question count. */
  lemma CountGrowsWithSelection(small: seq<Domain>, large: seq<Domain>)
    requires forall d :: d in small ==> d in large
    ensures QuestionCount(small) <= QuestionCount(large)
  {
    FilterGrowsWithSelection(AllQuestions(), small, large);
  }

  /** Landing on the page straight after a finished session resets the session. */
  method OnMount(store: TuningStore)
    requires store.Valid()
    modifies store
    ensures store.Valid()
    ensures old(store.phase) == Results ==>
      store.currentSession == None && store.phase == Welcome && store.currentQuestionIndex == 0 && store.sessionQuestions == []
    ensures old(store.phase) != Results ==>
      && store.currentSession == old(store.currentSession) && store.phase == old(store.phase)
      && store.currentQuestionIndex == old(store.currentQuestionIndex) && store.sessionQuestions == old(store.sessionQuestions)
    ensures store.sessionHistory == old(store.sessionHistory)
  {
    if store.phase == Results {
      store.ResetSession();
    }
  }

  /**
   * Begin: with nothing selected nothing happens. Otherwise a session with
   * identifier `id` and creation time `now` is started for the selection,
   * and its question list is the round-robin interleave, in the fixed note
   * order, of one shuffle per note of the questions for the selected domains.
   */
  method HandleBeginTuning(store: TuningStore, selected: seq<Domain>, id: string, now: int)
    requires store.Valid()
    modifies store
    ensures store.Valid()
    ensures selected == [] ==>
      && store.currentSession == old(store.currentSession) && store.phase == old(store.phase)
      && store.currentQuestionIndex == old(store.currentQuestionIndex) && store.sessionQuestions == old(store.sessionQuestions)
    ensures selected != [] ==>
      && store.currentSession == Some(TuningSession(id, None, now, selected, [], None, false))
      && store.phase == Tuning && store.currentQuestionIndex == 0
      && multiset(store.sessionQuestions) == multiset(GetQuestionsForDomains(selected))
      && (forall n: Note :: multiset(FilterByNote(store.sessionQuestions, n)) == multiset(FilterByNote(GetQuestionsForDomains(selected), n)))
      && RepeatsOnlyAtTail(store.sessionQuestions)
      && (exists mixed :: ShufflesOf(mixed, GetQuestionsForDomains(selected)) && store.sessionQuestions == Interleaving(Buckets(mixed)))
    ensures store.sessionHistory == old(store.sessionHistory)
  {
    if |selected| == 0 {
      return;
    }
    var questions, shuffled := ShuffleQuestionsWithinNotes(GetQuestionsForDomains(selected));
    assert ShufflesOf(shuffled, GetQuestionsForDomains(selected));
    store.StartSession(selected, id, now);
    store.SetSessionQuestions(questions);
  }

  /** The page's view: the domain picker, a loading line, or the current question. */
  datatype TuneView = DomainSelection | Loading | ShowQuestion(question: Question)

  /**
   * Outside the tuning phase or without a session the picker shows;
   * otherwise the question at the current position, or the loading line
   * when there is none.
   */
  function View(phase: TuningPhase, session: Option<TuningSession>, questions: seq<Question>, index: nat): (v: TuneView)
    ensures v == DomainSelection <==> phase != Tuning || session.None?
    ensures v.ShowQuestion? <==> phase == Tuning && session.Some? && index < |questions|
    ensures v.ShowQuestion? ==> v.question == questions[index]
  {
    if phase != Tuning || session.None? then DomainSelection
    else if index < |questions| then ShowQuestion(questions[index])
    else Loading
  }

  /** The first catalog question is a general one, so every selection yields some question. */
  lemma SelectionNeverEmpty(selected: seq<Domain>)
    ensures |GetQuestionsForDomains(selected)| > 0
  {
    var all := AllQuestions();
    assert all[0] == SafetyQuestions()[0];
    assert all[0].IsGeneral();
    assert all[0] in GetQuestionsForDomains(selected);
  }

  /**
   * Right after a kick-off with a non-empty selection, the page shows the
   * first question of the new list.
   */
  lemma BeginShowsFirstQuestion(selected: seq<Domain>, questions: seq<Question>, id: string, now: int)
    requires selected != []
    requires multiset(questions) == multiset(GetQuestionsForDomains(selected))
    ensures questions != []
    ensures View(Tuning, Some(TuningSession(id, None, now, selected, [], None, false)), questions, 0) == ShowQuestion(questions[0])
  {
    SelectionNeverEmpty(selected);
    var source := GetQuestionsForDomains(selected);
    assert source[0] in multiset(source);
    assert |multiset(questions)| == |multiset(source)|;
  }
}
