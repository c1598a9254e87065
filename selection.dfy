/**
 * Question selection over the catalog: the domain filter that builds a
 * session's question list, the note filter, and the opening invitation of
 * each note.
 */
module QuestionSelection {
  import opened Types
  import opened Catalog

  /** `sub` is `s` with some elements left out and the rest kept in order. */
  predicate IsSubsequence<T(==)>(sub: seq<T>, s: seq<T>)
    decreases |s|
  {
    if sub == [] then true
    else if s == [] then false
    else if sub[0] == s[0] then IsSubsequence(sub[1..], s[1..])
    else IsSubsequence(sub, s[1..])
  }

  /** A question is shown for a domain selection when it is general or its domain is selected. */
  predicate KeptFor(q: Question, domains: seq<Domain>) {
    q.domain.None? || q.domain.value in domains
  }

  /** The questions of `qs` kept for the selection `domains`, in the order of `qs`. */
  function FilterByDomains(qs: seq<Question>, domains: seq<Domain>): (r: seq<Question>)
    ensures forall q :: q in r <==> q in qs && KeptFor(q, domains)
    ensures IsSubsequence(r, qs)
    ensures |r| <= |qs|
  {
    if qs == [] then []
    else if KeptFor(qs[0], domains) then [qs[0]] + FilterByDomains(qs[1..], domains)
    else FilterByDomains(qs[1..], domains)
  }

  /** The questions of `qs` that measure note `n`, in the order of `qs`. */
  function FilterByNote(qs: seq<Question>, n: Note): (r: seq<Question>)
    ensures forall q :: q in r <==> q in qs && q.note == n
    ensures IsSubsequence(r, qs)
    ensures |r| <= |qs|
  {
    if qs == [] then []
    else if qs[0].note == n then [qs[0]] + FilterByNote(qs[1..], n)
    else FilterByNote(qs[1..], n)
  }

  /** The questions of a session for the selected domains: general ones plus those of the selected domains. */
  function GetQuestionsForDomains(domains: seq<Domain>): (r: seq<Question>)
    ensures forall q :: q in r <==> q in AllQuestions() && KeptFor(q, domains)
    ensures IsSubsequence(r, AllQuestions())
  {
    FilterByDomains(AllQuestions(), domains)
  }

  /** The catalog questions that measure note `n`. */
  function GetQuestionsForNote(n: Note): (r: seq<Question>)
    ensures forall q :: q in r <==> q in AllQuestions() && q.note == n
    ensures IsSubsequence(r, AllQuestions())
  {
    FilterByNote(AllQuestions(), n)
  }

  /** The sentences that open a note. */
  function GetNoteInvitation(n: Note): (r: string)
    ensures |r| > 0
  {
    match n
    case Safety => "Safety isn't playing small. " + "It's the ground from which you can fully expand."
    case Pleasure => "Pleasure is your guidance system. " + "It tells you where life is flowing."
    case Power => "True power isn't force. " + "It's the capacity to create and to choose."
    case Light => "Clarity isn't figuring everything out. " + "It's seeing what's actually here."
    case Now => "The present moment is the only place creation happens."
    case Heat => "Heat is life force. " + "Too much burns. " + "Too little and nothing grows."
  }

  /** Filtering by note distributes over concatenation. */
  lemma {:induction false} FilterByNoteConcat(a: seq<Question>, b: seq<Question>, n: Note)
    ensures FilterByNote(a + b, n) == FilterByNote(a, n) + FilterByNote(b, n)
  {
    if a == [] {
      assert a + b == b;
    } else {
      assert (a + b)[0] == a[0] && (a + b)[1..] == a[1..] + b;
      FilterByNoteConcat(a[1..], b, n);
    }
  }

  /** Filtering keeps ids unique: the filtered list is drawn from `qs` in order. */
  lemma {:induction false} FilterByDomainsKeepsIdsUnique(qs: seq<Question>, domains: seq<Domain>)
    requires UniqueIds(qs)
    ensures UniqueIds(FilterByDomains(qs, domains))
  {
    if qs != [] {
      var rest := FilterByDomains(qs[1..], domains);
      FilterByDomainsKeepsIdsUnique(qs[1..], domains);
      if KeptFor(qs[0], domains) {
        var r := [qs[0]] + rest;
        forall i, j | 0 <= i < j < |r| ensures r[i].id != r[j].id {
          if i == 0 {
            assert r[j] == rest[j - 1] && r[j] in qs[1..];
            var k :| 0 <= k < |qs[1..]| && qs[1..][k] == r[j];
            assert qs[k + 1] == r[j];
          } else {
            assert r[i] == rest[i - 1] && r[j] == rest[j - 1];
          }
        }
      }
    }
  }

  /**
   * The list of a session is an order-preserving selection from the catalog
   * in which no question occurs twice; it holds every general question and
   * exactly the domain-specific questions of the selected domains.
   */
  lemma QuestionsForDomainsAreUniqueSelection(domains: seq<Domain>)
    ensures IsSubsequence(GetQuestionsForDomains(domains), AllQuestions())
    ensures UniqueIds(GetQuestionsForDomains(domains))
    ensures forall q | q in AllQuestions() && q.IsGeneral() :: q in GetQuestionsForDomains(domains)
    ensures forall q | q in AllQuestions() && q.domain.Some? ::
      q in GetQuestionsForDomains(domains) <==> q.domain.value in domains
  {
    CatalogIsWellFormed();
    FilterByDomainsKeepsIdsUnique(AllQuestions(), domains);
  }

  /** The catalog group of note `n`. */
  function CatalogGroup(n: Note): seq<Question> {
    match n
    case Safety => SafetyQuestions()
    case Pleasure => PleasureQuestions()
    case Power => PowerQuestions()
    case Light => LightQuestions()
    case Now => NowQuestions()
    case Heat => HeatQuestions()
  }

  /** Questions that all measure note `m`. */
  ghost predicate AllOfNote(qs: seq<Question>, m: Note) {
    forall k :: 0 <= k < |qs| ==> qs[k].note == m
  }

  /** Filtering a list of questions that all measure `m` keeps all of it for `m` and none of it for any other note. */
  lemma {:induction false} FilterOneNote(qs: seq<Question>, m: Note, n: Note)
    requires AllOfNote(qs, m)
    ensures FilterByNote(qs, n) == if m == n then qs else []
  {
    if qs != [] {
      assert qs[0].note == m;
      FilterOneNote(qs[1..], m, n);
      if m == n {
        assert qs == [qs[0]] + qs[1..];
      }
    }
  }

  /** Appending a group of note-`m` questions adds all of it to the filter for `m` and nothing to any other. */
  lemma FilterAppendGroup(prefix: seq<Question>, g: seq<Question>, m: Note, n: Note)
    requires AllOfNote(g, m)
    ensures FilterByNote(prefix + g, n) == FilterByNote(prefix, n) + (if m == n then g else [])
  {
    FilterByNoteConcat(prefix, g, n);
    FilterOneNote(g, m, n);
  }

  /** Filtering six single-note groups, listed in declaration order, for a note keeps exactly that note's group. */
  lemma FilterSixGroups(g1: seq<Question>, g2: seq<Question>, g3: seq<Question>, g4: seq<Question>, g5: seq<Question>, g6: seq<Question>, n: Note)
    requires AllOfNote(g1, Safety) && AllOfNote(g2, Pleasure) && AllOfNote(g3, Power)
    requires AllOfNote(g4, Light) && AllOfNote(g5, Now) && AllOfNote(g6, Heat)
    ensures FilterByNote(g1 + g2 + g3 + g4 + g5 + g6, n)
      == match n
         case Safety => g1 case Pleasure => g2 case Power => g3
         case Light => g4 case Now => g5 case Heat => g6
  {
    FilterOneNote(g1, Safety, n);
    FilterAppendGroup(g1, g2, Pleasure, n);
    FilterAppendGroup(g1 + g2, g3, Power, n);
    FilterAppendGroup(g1 + g2 + g3, g4, Light, n);
    FilterAppendGroup(g1 + g2 + g3 + g4, g5, Now, n);
    FilterAppendGroup(g1 + g2 + g3 + g4 + g5, g6, Heat, n);
  }

  /** The catalog questions of a note are exactly that note's group, in catalog order. */
  lemma QuestionsForNoteAreItsGroup(n: Note)
    ensures GetQuestionsForNote(n) == CatalogGroup(n)
  {
    SafetyGroup(); PleasureGroup(); PowerGroup(); LightGroup(); NowGroup(); HeatGroup();
    FilterSixGroups(SafetyQuestions(), PleasureQuestions(), PowerQuestions(), LightQuestions(), NowQuestions(), HeatQuestions(), n);
  }
}
