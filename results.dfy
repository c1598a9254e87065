/**
 * The results page: the label a score earns, the colour intensity a score
 * is drawn with, the default shown for a note without a result, and
 * whether there are results to show at all.
 */
module ResultsPage {
  import opened Types
  import opened QuestionCard

  /** How many of the ascending thresholds `ts` the score `v` reaches. */
  function Reached(ts: seq<real>, v: real): nat {
    if ts == [] then 0 else (if v >= ts[0] then 1 else 0) + Reached(ts[1..], v)
  }

  /** Reaching thresholds only grows with the score. */
  lemma {:induction false} ReachedMonotone(ts: seq<real>, v: real, u: real)
    requires v <= u
    ensures Reached(ts, v) <= Reached(ts, u)
  {
    if ts != [] {
      ReachedMonotone(ts[1..], v, u);
    }
  }

  /** The resonance labels, from the lowest score to the highest. */
  datatype ResonanceLabel = Ready | Emerging | Awakening | Flowing | Activated

  /** The score each label starts at, above the lowest. */
  const LABEL_THRESHOLDS: seq<real> := [0.2, 0.4, 0.6, 0.8]

  /** The position of a label from the lowest (0) to the highest (4). */
  function LabelRank(l: ResonanceLabel): nat {
    match l
    case Ready => 0
    case Emerging => 1
    case Awakening => 2
    case Flowing => 3
    case Activated => 4
  }

  /** The text shown for a label. */
  function LabelText(l: ResonanceLabel): string {
    match l
    case Ready => "Ready"
    case Emerging => "Emerging"
    case Awakening => "Awakening"
    case Flowing => "Flowing"
    case Activated => "Activated"
  }

  /** Reached, spelled out for the four label thresholds. */
  lemma LabelThresholdsReached(v: real)
    ensures Reached(LABEL_THRESHOLDS, v)
      == (if v >= 0.2 then 1 else 0) + (if v >= 0.4 then 1 else 0) + (if v >= 0.6 then 1 else 0) + (if v >= 0.8 then 1 else 0)
  {
    var t := LABEL_THRESHOLDS;
    assert t[1..] == [0.4, 0.6, 0.8] && t[1..][1..] == [0.6, 0.8] && t[1..][1..][1..] == [0.8];
    assert [0.8][1..] == [];
    assert Reached([0.8], v) == if v >= 0.8 then 1 else 0;
    assert Reached([0.6, 0.8], v) == (if v >= 0.6 then 1 else 0) + Reached([0.8], v);
    assert Reached([0.4, 0.6, 0.8], v) == (if v >= 0.4 then 1 else 0) + Reached([0.6, 0.8], v);
  }

  /** The label of a score: the highest one whose threshold the score reaches. */
  function GetResonanceLabel(v: real): (l: ResonanceLabel)
    ensures LabelRank(l) == Reached(LABEL_THRESHOLDS, v)
  {
    LabelThresholdsReached(v);
    if v >= 0.8 then Activated
    else if v >= 0.6 then Flowing
    else if v >= 0.4 then Awakening
    else if v >= 0.2 then Emerging
    else Ready
  }

  /** A higher score never earns a lower label. */
  lemma LabelMonotone(v: real, u: real)
    requires v <= u
    ensures LabelRank(GetResonanceLabel(v)) <= LabelRank(GetResonanceLabel(u))
  {
    ReachedMonotone(LABEL_THRESHOLDS, v, u);
  }

  /** The three colour intensities a score is drawn with. */
  datatype Intensity = LowIntensity | MidIntensity | HighIntensity

  const INTENSITY_THRESHOLDS: seq<real> := [0.4, 0.7]

  function IntensityRank(i: Intensity): nat {
    match i
    case LowIntensity => 0
    case MidIntensity => 1
    case HighIntensity => 2
  }

  /** Reached, spelled out for the two intensity thresholds. */
  lemma IntensityThresholdsReached(v: real)
    ensures Reached(INTENSITY_THRESHOLDS, v) == (if v >= 0.4 then 1 else 0) + (if v >= 0.7 then 1 else 0)
  {
    var t := INTENSITY_THRESHOLDS;
    assert t[1..] == [0.7] && [0.7][1..] == [];
    assert Reached([0.7], v) == if v >= 0.7 then 1 else 0;
  }

  /**
   * The colour intensity of a note's score: the highest one whose threshold
   * the score reaches. The note only picks the colour family.
   */
  function GetColorIntensity(n: Note, v: real): (i: Intensity)
    ensures IntensityRank(i) == Reached(INTENSITY_THRESHOLDS, v)
  {
    IntensityThresholdsReached(v);
    if v >= 0.7 then HighIntensity
    else if v >= 0.4 then MidIntensity
    else LowIntensity
  }

  /** The swatch and percentage colour of a note card, written inline with the same thresholds. */
  function SwatchIntensity(v: real): Intensity {
    if v >= 0.7 then HighIntensity else if v >= 0.4 then MidIntensity else LowIntensity
  }

  /** Both intensity scales grow with the score. */
  lemma IntensityMonotone(n: Note, v: real, u: real)
    requires v <= u
    ensures IntensityRank(GetColorIntensity(n, v)) <= IntensityRank(GetColorIntensity(n, u))
    ensures IntensityRank(SwatchIntensity(v)) <= IntensityRank(SwatchIntensity(u))
  {
    ReachedMonotone(INTENSITY_THRESHOLDS, v, u);
    SwatchMatchesIntensity(n, v);
    SwatchMatchesIntensity(n, u);
  }

  /** The inline swatch colour agrees with the intensity function for every note and score. */
  lemma SwatchMatchesIntensity(n: Note, v: real)
    ensures SwatchIntensity(v) == GetColorIntensity(n, v)
  {
  }

  /** What a note card shows: the note's value and answer count, or 0.5 and 0 when the note has no result. */
  function NoteDisplay(r: TuningResults, n: Note): (d: (real, nat))
    ensures n in r.notes ==> d == (r.notes[n].value, r.notes[n].questionsAnswered)
    ensures n !in r.notes ==> d == (0.5, 0)
  {
    if n in r.notes then (r.notes[n].value, r.notes[n].questionsAnswered) else (0.5, 0)
  }

  /** The page shows the results of the current session, or the no-session message. */
  datatype ResultsView = NoSession | ShowResults(results: TuningResults)

  function View(session: Option<TuningSession>): (v: ResultsView)
    ensures v == NoSession <==> session.None? || session.value.results.None?
    ensures v.ShowResults? ==> v.results == session.value.results.value
  {
    if session.None? || session.value.results.None? then NoSession
    else ShowResults(session.value.results.value)
  }

  /**
   * For results computed from a session, every note card shows the value
   * and count computed for its note; for results computed without a
   * session, every card shows the 0.5 and 0 default.
   */
  lemma DisplayOfComputedResults(session: Option<TuningSession>, qs: seq<Question>, now: int, n: Note)
    ensures session.Some? ==>
      NoteDisplay(SessionResults(session, qs, now), n)
        == (NoteResult(session.value.answers, qs, n).value, NoteResult(session.value.answers, qs, n).questionsAnswered)
    ensures session.None? ==> NoteDisplay(SessionResults(session, qs, now), n) == (0.5, 0)
  {
  }

  /** Every value a card shows for computed results lies on the 0-1 scale. */
  lemma DisplayedValuesInUnitInterval(session: Option<TuningSession>, qs: seq<Question>, now: int, n: Note)
    ensures 0.0 <= NoteDisplay(SessionResults(session, qs, now), n).0 <= 1.0
  {
    ResultsInUnitInterval(session, qs, now);
  }
}
