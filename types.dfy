/**
 * The enumerations, records and constant tables of the tuning questionnaire:
 * the six notes, the seven life domains, the five resonance levels, the
 * questions and answers, the results of a session and the session itself.
 */
module Types {

  datatype Option<+T> = None | Some(value: T)

  /** The six notes (dimensions) a question measures. */
  datatype Note = Safety | Pleasure | Power | Light | Now | Heat

  /** The two triads the notes fall into. */
  datatype Triad = Feminine | Masculine

  /** The seven life domains a user may opt into. */
  datatype Domain = Spirit | Body | Self | Relationships | Wealth | Purpose | Play

  /** The qualitative strength of an answer option, from strongest to weakest. */
  datatype ResonanceLevel = High | MidHigh | Mid | MidLow | Low

  /** Descriptive metadata on an option; no scoring reads it. */
  datatype TensionType = Tight | Balanced | Loose

  /** One choice offered by a question. The display text is not modelled. */
  datatype AnswerOption = AnswerOption(id: string, resonance: ResonanceLevel, tension: Option<TensionType>)

  /**
   * A catalog question: one note, at most one domain (`None` means a general
   * question that applies whatever domains are selected) and its options.
   * The display text and subtext are not modelled.
   */
  datatype Question = Question(id: string, note: Note, domain: Option<Domain>, options: seq<AnswerOption>)
  {
    predicate IsGeneral() { domain.None? }
  }

  /** The option a user picked for a question, stamped with the time of the pick. */
  datatype Answer = Answer(questionId: string, optionId: string, timestamp: int)

  /** The resonance of one note: a value on a 0-1 scale and how many answers fed it. */
  datatype NoteResonance = NoteResonance(value: real, tension: Option<TensionType>, questionsAnswered: nat)

  /** Results restricted to one domain; part of the shape only, never computed. */
  datatype DomainResonance = DomainResonance(notes: map<Note, NoteResonance>, overallVibrancy: real)

  /** The outcome of a session: per-note resonance, per-domain resonance, overall vibrancy. */
  datatype TuningResults = TuningResults(
    notes: map<Note, NoteResonance>,
    domains: map<Domain, DomainResonance>,
    overallVibrancy: real,
    timestamp: int)

  /** One attempt at the questionnaire. */
  datatype TuningSession = TuningSession(
    id: string,
    userId: Option<string>,
    createdAt: int,
    selectedDomains: seq<Domain>,
    answers: seq<Answer>,
    results: Option<TuningResults>,
    completed: bool)

  /** The phases of the questionnaire's state machine. */
  datatype TuningPhase = Welcome | DomainSelect | Tuning | Transition | Results

  datatype DomainInfo = DomainInfo(id: Domain, name: string, description: string)

  datatype NoteInfo = NoteInfo(id: Note, name: string, triad: Triad, essence: string, color: string)

  /** The domain table, in the order the domain picker shows it. */
  const DOMAINS: seq<DomainInfo> := [
    DomainInfo(Spirit, "Spirit", "God, Universe, Energy, Source, the Quantum"),
    DomainInfo(Body, "Body", "Health, feelings, sensations, lived experience"),
    DomainInfo(Self, "Self", "Mind, identity, self-awareness, inner narrative"),
    DomainInfo(Relationships, "Relationships", "Others, love, intimacy, self-love reflected"),
    DomainInfo(Wealth, "Wealth", "Money, prosperity, abundance, provision"),
    DomainInfo(Purpose, "Purpose", "Impact, contribution, legacy, meaning"),
    DomainInfo(Play, "Play", "Fun, adventure, lightness, joy")
  ]

  /** The note table, in the order the results page shows it. */
  const NOTES: seq<NoteInfo> := [
    NoteInfo(Safety, "Safety", Feminine, "The ground from which expansion happens", "safety"),
    NoteInfo(Pleasure, "Pleasure", Feminine, "The guidance system — where life is flowing", "pleasure"),
    NoteInfo(Power, "Power", Feminine, "Capacity to create and choose", "power"),
    NoteInfo(Light, "Light", Masculine, "Illumination, clarity — seeing what's here", "light"),
    NoteInfo(Now, "Now", Masculine, "Presence — where creation happens", "now"),
    NoteInfo(Heat, "Heat", Masculine, "Creative tension — life force", "heat")
  ]

  /** The notes in declaration order, the order in which the source's note records list their keys. */
  const NOTE_KEYS: seq<Note> := [Safety, Pleasure, Power, Light, Now, Heat]

  /** Some entry of the note table describes note `n`. */
  ghost predicate ListsNote(n: Note) {
    exists i :: 0 <= i < |NOTES| && NOTES[i].id == n
  }

  /** Some entry of the domain table describes domain `d`. */
  ghost predicate ListsDomain(d: Domain) {
    exists i :: 0 <= i < |DOMAINS| && DOMAINS[i].id == d
  }

  /** Every note occurs exactly once in the note table, and the table follows the declaration order. */
  lemma NotesListEachNoteOnce()
    ensures |NOTES| == 6
    ensures forall i :: 0 <= i < |NOTES| ==> NOTES[i].id == NOTE_KEYS[i]
    ensures forall i, j :: 0 <= i < j < |NOTES| ==> NOTES[i].id != NOTES[j].id
    ensures forall n: Note :: ListsNote(n)
  {
    forall n: Note ensures ListsNote(n) {
      match n
      case Safety => assert NOTES[0].id == n;
      case Pleasure => assert NOTES[1].id == n;
      case Power => assert NOTES[2].id == n;
      case Light => assert NOTES[3].id == n;
      case Now => assert NOTES[4].id == n;
      case Heat => assert NOTES[5].id == n;
    }
  }

  /** The declaration-order list of notes holds every note. */
  lemma NoteKeysListEachNote()
    ensures forall n: Note :: n in NOTE_KEYS
  {
    forall n: Note ensures n in NOTE_KEYS {
      match n
      case Safety => assert NOTE_KEYS[0] == n;
      case Pleasure => assert NOTE_KEYS[1] == n;
      case Power => assert NOTE_KEYS[2] == n;
      case Light => assert NOTE_KEYS[3] == n;
      case Now => assert NOTE_KEYS[4] == n;
      case Heat => assert NOTE_KEYS[5] == n;
    }
  }

  /** Safety, pleasure and power form the feminine triad; light, now and heat the masculine one. */
  lemma NoteTriads()
    ensures forall i :: 0 <= i < |NOTES| ==>
      (NOTES[i].triad == Feminine <==> NOTES[i].id in {Safety, Pleasure, Power})
  {
  }

  /** Every domain occurs exactly once in the domain table, in declaration order. */
  lemma DomainsListEachDomainOnce()
    ensures |DOMAINS| == 7
    ensures [DOMAINS[0].id, DOMAINS[1].id, DOMAINS[2].id, DOMAINS[3].id, DOMAINS[4].id, DOMAINS[5].id, DOMAINS[6].id]
         == [Spirit, Body, Self, Relationships, Wealth, Purpose, Play]
    ensures forall i, j :: 0 <= i < j < |DOMAINS| ==> DOMAINS[i].id != DOMAINS[j].id
    ensures forall d: Domain :: ListsDomain(d)
  {
    forall d: Domain ensures ListsDomain(d) {
      match d
      case Spirit => assert DOMAINS[0].id == d;
      case Body => assert DOMAINS[1].id == d;
      case Self => assert DOMAINS[2].id == d;
      case Relationships => assert DOMAINS[3].id == d;
      case Wealth => assert DOMAINS[4].id == d;
      case Purpose => assert DOMAINS[5].id == d;
      case Play => assert DOMAINS[6].id == d;
    }
  }

  /** The smaller of two counts. */
  function Min(a: nat, b: nat): nat { if a <= b then a else b }
}
