/**
 * The fixed question catalog: thirty-four questions, five to seven per note,
 * each a general question or one tied to a single domain, each offering five
 * options. Display text is not part of this model.
 */
module Catalog {
  import opened Types

  /** The safety questions, general ones first, then the domain-specific ones. */
  function SafetyQuestions(): seq<Question> {
    [
      Question("S1", Safety, None, [
        AnswerOption("S1-a", High, None),
        AnswerOption("S1-b", Low, Some(Tight)),
        AnswerOption("S1-c", Low, Some(Loose)),
        AnswerOption("S1-d", MidLow, Some(Tight)),
        AnswerOption("S1-e", MidHigh, None)
      ]),
      Question("S2", Safety, None, [
        AnswerOption("S2-a", High, None),
        AnswerOption("S2-b", MidLow, Some(Tight)),
        AnswerOption("S2-c", MidLow, Some(Tight)),
        AnswerOption("S2-d", Low, None),
        AnswerOption("S2-e", MidHigh, None)
      ]),
      Question("S3", Safety, None, [
        AnswerOption("S3-a", High, None),
        AnswerOption("S3-b", MidLow, Some(Tight)),
        AnswerOption("S3-c", Low, Some(Loose)),
        AnswerOption("S3-d", Low, Some(Tight)),
        AnswerOption("S3-e", Mid, None)
      ]),
      Question("S-Spirit", Safety, Some(Spirit), [
        AnswerOption("S-Spirit-a", High, None),
        AnswerOption("S-Spirit-b", Mid, None),
        AnswerOption("S-Spirit-c", MidLow, Some(Tight)),
        AnswerOption("S-Spirit-d", MidLow, Some(Loose)),
        AnswerOption("S-Spirit-e", MidHigh, None)
      ]),
      Question("S-Body", Safety, Some(Body), [
        AnswerOption("S-Body-a", High, None),
        AnswerOption("S-Body-b", MidLow, Some(Tight)),
        AnswerOption("S-Body-c", Low, Some(Loose)),
        AnswerOption("S-Body-d", Low, Some(Tight)),
        AnswerOption("S-Body-e", MidHigh, None)
      ]),
      Question("S-Wealth", Safety, Some(Wealth), [
        AnswerOption("S-Wealth-a", High, None),
        AnswerOption("S-Wealth-b", MidLow, Some(Tight)),
        AnswerOption("S-Wealth-c", Low, Some(Loose)),
        AnswerOption("S-Wealth-d", Low, Some(Tight)),
        AnswerOption("S-Wealth-e", Mid, None)
      ]),
      Question("S-Relationships", Safety, Some(Relationships), [
        AnswerOption("S-Rel-a", High, None),
        AnswerOption("S-Rel-b", MidLow, Some(Tight)),
        AnswerOption("S-Rel-c", Low, Some(Tight)),
        AnswerOption("S-Rel-d", Low, Some(Loose)),
        AnswerOption("S-Rel-e", MidHigh, None)
      ])
    ]
  }

  /** The pleasure questions, general ones first, then the domain-specific ones. */
  function PleasureQuestions(): seq<Question> {
    [
      Question("P1", Pleasure, None, [
        AnswerOption("P1-a", High, None),
        AnswerOption("P1-b", MidLow, Some(Tight)),
        AnswerOption("P1-c", Low, Some(Tight)),
        AnswerOption("P1-d", Low, Some(Loose)),
        AnswerOption("P1-e", Mid, None)
      ]),
      Question("P2", Pleasure, None, [
        AnswerOption("P2-a", High, None),
        AnswerOption("P2-b", MidLow, Some(Tight)),
        AnswerOption("P2-c", Low, Some(Loose)),
        AnswerOption("P2-d", Low, Some(Tight)),
        AnswerOption("P2-e", MidHigh, None)
      ]),
      Question("P3", Pleasure, None, [
        AnswerOption("P3-a", High, None),
        AnswerOption("P3-b", Mid, Some(Tight)),
        AnswerOption("P3-c", Low, Some(Tight)),
        AnswerOption("P3-d", MidLow, None),
        AnswerOption("P3-e", Mid, None)
      ]),
      Question("P-Body", Pleasure, Some(Body), [
        AnswerOption("P-Body-a", High, None),
        AnswerOption("P-Body-b", MidLow, Some(Tight)),
        AnswerOption("P-Body-c", Low, Some(Loose)),
        AnswerOption("P-Body-d", MidLow, None),
        AnswerOption("P-Body-e", MidHigh, None)
      ]),
      Question("P-Purpose", Pleasure, Some(Purpose), [
        AnswerOption("P-Purpose-a", High, None),
        AnswerOption("P-Purpose-b", Mid, Some(Tight)),
        AnswerOption("P-Purpose-c", Low, Some(Tight)),
        AnswerOption("P-Purpose-d", Low, Some(Loose)),
        AnswerOption("P-Purpose-e", MidHigh, None)
      ]),
      Question("P-Play", Pleasure, Some(Play), [
        AnswerOption("P-Play-a", High, None),
        AnswerOption("P-Play-b", Low, Some(Tight)),
        AnswerOption("P-Play-c", Low, Some(Loose)),
        AnswerOption("P-Play-d", Mid, Some(Tight)),
        AnswerOption("P-Play-e", MidHigh, None)
      ])
    ]
  }

  /** The power questions, general ones first, then the domain-specific ones. */
  function PowerQuestions(): seq<Question> {
    [
      Question("PW1", Power, None, [
        AnswerOption("PW1-a", High, None),
        AnswerOption("PW1-b", MidLow, Some(Tight)),
        AnswerOption("PW1-c", Low, Some(Loose)),
        AnswerOption("PW1-d", Low, None),
        AnswerOption("PW1-e", MidHigh, None)
      ]),
      Question("PW2", Power, None, [
        AnswerOption("PW2-a", High, None),
        AnswerOption("PW2-b", MidLow, None),
        AnswerOption("PW2-c", Low, Some(Loose)),
        AnswerOption("PW2-d", Mid, None),
        AnswerOption("PW2-e", MidHigh, None)
      ]),
      Question("PW3", Power, None, [
        AnswerOption("PW3-a", High, None),
        AnswerOption("PW3-b", MidLow, Some(Loose)),
        AnswerOption("PW3-c", Low, None),
        AnswerOption("PW3-d", MidLow, Some(Tight)),
        AnswerOption("PW3-e", Mid, None)
      ]),
      Question("PW-Self", Power, Some(Self), [
        AnswerOption("PW-Self-a", High, None),
        AnswerOption("PW-Self-b", MidLow, Some(Tight)),
        AnswerOption("PW-Self-c", Low, Some(Loose)),
        AnswerOption("PW-Self-d", MidLow, Some(Tight)),
        AnswerOption("PW-Self-e", MidHigh, None)
      ]),
      Question("PW-Wealth", Power, Some(Wealth), [
        AnswerOption("PW-Wealth-a", High, None),
        AnswerOption("PW-Wealth-b", MidLow, Some(Tight)),
        AnswerOption("PW-Wealth-c", Low, Some(Loose)),
        AnswerOption("PW-Wealth-d", Low, None),
        AnswerOption("PW-Wealth-e", MidHigh, None)
      ]),
      Question("PW-Relationships", Power, Some(Relationships), [
        AnswerOption("PW-Rel-a", High, None),
        AnswerOption("PW-Rel-b", MidLow, Some(Loose)),
        AnswerOption("PW-Rel-c", MidLow, Some(Tight)),
        AnswerOption("PW-Rel-d", Low, Some(Loose)),
        AnswerOption("PW-Rel-e", MidHigh, None)
      ])
    ]
  }

  /** The light questions, general ones first, then the domain-specific ones. */
  function LightQuestions(): seq<Question> {
    [
      Question("L1", Light, None, [
        AnswerOption("L1-a", High, None),
        AnswerOption("L1-b", MidLow, Some(Tight)),
        AnswerOption("L1-c", Low, Some(Loose)),
        AnswerOption("L1-d", Mid, Some(Tight)),
        AnswerOption("L1-e", MidHigh, None)
      ]),
      Question("L2", Light, None, [
        AnswerOption("L2-a", High, None),
        AnswerOption("L2-b", MidLow, None),
        AnswerOption("L2-c", Low, None),
        AnswerOption("L2-d", Low, Some(Loose)),
        AnswerOption("L2-e", MidHigh, None)
      ]),
      Question("L3", Light, None, [
        AnswerOption("L3-a", High, None),
        AnswerOption("L3-b", MidLow, Some(Tight)),
        AnswerOption("L3-c", MidLow, Some(Loose)),
        AnswerOption("L3-d", Low, Some(Loose)),
        AnswerOption("L3-e", MidHigh, None)
      ]),
      Question("L-Spirit", Light, Some(Spirit), [
        AnswerOption("L-Spirit-a", High, None),
        AnswerOption("L-Spirit-b", Mid, Some(Tight)),
        AnswerOption("L-Spirit-c", MidLow, None),
        AnswerOption("L-Spirit-d", Low, None),
        AnswerOption("L-Spirit-e", MidHigh, None)
      ]),
      Question("L-Self", Light, Some(Self), [
        AnswerOption("L-Self-a", High, None),
        AnswerOption("L-Self-b", Mid, Some(Tight)),
        AnswerOption("L-Self-c", MidLow, None),
        AnswerOption("L-Self-d", Low, Some(Loose)),
        AnswerOption("L-Self-e", MidHigh, None)
      ])
    ]
  }

  /** The now questions, general ones first, then the domain-specific ones. */
  function NowQuestions(): seq<Question> {
    [
      Question("N1", Now, None, [
        AnswerOption("N1-a", High, None),
        AnswerOption("N1-b", Mid, None),
        AnswerOption("N1-c", MidLow, Some(Tight)),
        AnswerOption("N1-d", MidLow, Some(Loose)),
        AnswerOption("N1-e", MidHigh, None)
      ]),
      Question("N2", Now, None, [
        AnswerOption("N2-a", High, None),
        AnswerOption("N2-b", MidLow, None),
        AnswerOption("N2-c", MidLow, Some(Tight)),
        AnswerOption("N2-d", MidLow, Some(Loose)),
        AnswerOption("N2-e", Mid, None)
      ]),
      Question("N3", Now, None, [
        AnswerOption("N3-a", High, None),
        AnswerOption("N3-b", MidLow, Some(Tight)),
        AnswerOption("N3-c", Low, Some(Tight)),
        AnswerOption("N3-d", Low, Some(Tight)),
        AnswerOption("N3-e", MidHigh, None)
      ]),
      Question("N-Body", Now, Some(Body), [
        AnswerOption("N-Body-a", High, None),
        AnswerOption("N-Body-b", Mid, None),
        AnswerOption("N-Body-c", Low, Some(Loose)),
        AnswerOption("N-Body-d", Low, None),
        AnswerOption("N-Body-e", MidHigh, None)
      ]),
      Question("N-Relationships", Now, Some(Relationships), [
        AnswerOption("N-Rel-a", High, None),
        AnswerOption("N-Rel-b", MidLow, None),
        AnswerOption("N-Rel-c", MidLow, Some(Tight)),
        AnswerOption("N-Rel-d", Low, Some(Loose)),
        AnswerOption("N-Rel-e", MidHigh, None)
      ])
    ]
  }

  /** The heat questions, general ones first, then the domain-specific ones. */
  function HeatQuestions(): seq<Question> {
    [
      Question("H1", Heat, None, [
        AnswerOption("H1-a", High, Some(Balanced)),
        AnswerOption("H1-b", Low, Some(Tight)),
        AnswerOption("H1-c", Low, Some(Loose)),
        AnswerOption("H1-d", MidLow, None),
        AnswerOption("H1-e", MidHigh, Some(Balanced))
      ]),
      Question("H2", Heat, None, [
        AnswerOption("H2-a", High, Some(Balanced)),
        AnswerOption("H2-b", MidLow, Some(Tight)),
        AnswerOption("H2-c", Low, Some(Loose)),
        AnswerOption("H2-d", MidLow, Some(Loose)),
        AnswerOption("H2-e", MidHigh, Some(Balanced))
      ]),
      Question("H3", Heat, None, [
        AnswerOption("H3-a", High, Some(Balanced)),
        AnswerOption("H3-b", MidLow, Some(Tight)),
        AnswerOption("H3-c", Low, Some(Loose)),
        AnswerOption("H3-d", MidLow, None),
        AnswerOption("H3-e", MidHigh, None)
      ]),
      Question("H-Purpose", Heat, Some(Purpose), [
        AnswerOption("H-Purpose-a", High, Some(Balanced)),
        AnswerOption("H-Purpose-b", MidLow, Some(Tight)),
        AnswerOption("H-Purpose-c", Low, Some(Tight)),
        AnswerOption("H-Purpose-d", Low, Some(Loose)),
        AnswerOption("H-Purpose-e", MidHigh, None)
      ]),
      Question("H-Wealth", Heat, Some(Wealth), [
        AnswerOption("H-Wealth-a", High, Some(Balanced)),
        AnswerOption("H-Wealth-b", MidLow, Some(Tight)),
        AnswerOption("H-Wealth-c", Low, Some(Loose)),
        AnswerOption("H-Wealth-d", Low, Some(Tight)),
        AnswerOption("H-Wealth-e", MidHigh, None)
      ])
    ]
  }

  /** The whole catalog, note group after note group. */
  function AllQuestions(): seq<Question> {
    SafetyQuestions() + PleasureQuestions() + PowerQuestions()
      + LightQuestions() + NowQuestions() + HeatQuestions()
  }

  /** No two questions in `qs` share an id. */
  ghost predicate UniqueIds(qs: seq<Question>) {
    forall i, j :: 0 <= i < j < |qs| ==> qs[i].id != qs[j].id
  }

  /** A question offers five options whose ids end in `a` to `e`, in that order. */
  ghost predicate WellFormedQuestion(q: Question) {
    && |q.options| == 5
    && forall i :: 0 <= i < |q.options| ==> |q.options[i].id| > 0 && q.options[i].id[|q.options[i].id| - 1] == "abcde"[i]
  }

  /** The note a question id names by its prefix: `S`, `P`, `PW`, `L`, `N` or `H`. */
  function IdPrefixNote(id: string): Option<Note> {
    if |id| == 0 then None
    else if id[0] == 'S' then Some(Safety)
    else if id[0] == 'P' then (if |id| > 1 && id[1] == 'W' then Some(Power) else Some(Pleasure))
    else if id[0] == 'L' then Some(Light)
    else if id[0] == 'N' then Some(Now)
    else if id[0] == 'H' then Some(Heat)
    else None
  }

  /**
   * What a note group of the catalog satisfies: distinct ids, each prefixed
   * by the group's note, every question measuring that note and well formed.
   */
  ghost predicate NoteGroup(qs: seq<Question>, n: Note) {
    && UniqueIds(qs)
    && forall k :: 0 <= k < |qs| ==>
         qs[k].note == n && IdPrefixNote(qs[k].id) == Some(n) && WellFormedQuestion(qs[k])
  }

  lemma SafetyIds()
    ensures UniqueIds(SafetyQuestions())
  {
  }

  lemma SafetyEntries()
    ensures forall k :: 0 <= k < |SafetyQuestions()| ==>
      var q := SafetyQuestions()[k]; q.note == Safety && IdPrefixNote(q.id) == Some(Safety) && WellFormedQuestion(q)
  {
  }

  lemma SafetyGroup()
    ensures NoteGroup(SafetyQuestions(), Safety)
  {
    SafetyIds();
    SafetyEntries();
  }

  lemma PleasureIds()
    ensures UniqueIds(PleasureQuestions())
  {
  }

  lemma PleasureEntries()
    ensures forall k :: 0 <= k < |PleasureQuestions()| ==>
      var q := PleasureQuestions()[k]; q.note == Pleasure && IdPrefixNote(q.id) == Some(Pleasure) && WellFormedQuestion(q)
  {
  }

  lemma PleasureGroup()
    ensures NoteGroup(PleasureQuestions(), Pleasure)
  {
    PleasureIds();
    PleasureEntries();
  }

  lemma PowerIds()
    ensures UniqueIds(PowerQuestions())
  {
  }

  lemma PowerEntries()
    ensures forall k :: 0 <= k < |PowerQuestions()| ==>
      var q := PowerQuestions()[k]; q.note == Power && IdPrefixNote(q.id) == Some(Power) && WellFormedQuestion(q)
  {
  }

  lemma PowerGroup()
    ensures NoteGroup(PowerQuestions(), Power)
  {
    PowerIds();
    PowerEntries();
  }

  lemma LightIds()
    ensures UniqueIds(LightQuestions())
  {
  }

  lemma LightEntries()
    ensures forall k :: 0 <= k < |LightQuestions()| ==>
      var q := LightQuestions()[k]; q.note == Light && IdPrefixNote(q.id) == Some(Light) && WellFormedQuestion(q)
  {
  }

  lemma LightGroup()
    ensures NoteGroup(LightQuestions(), Light)
  {
    LightIds();
    LightEntries();
  }

  lemma NowIds()
    ensures UniqueIds(NowQuestions())
  {
  }

  lemma NowEntries()
    ensures forall k :: 0 <= k < |NowQuestions()| ==>
      var q := NowQuestions()[k]; q.note == Now && IdPrefixNote(q.id) == Some(Now) && WellFormedQuestion(q)
  {
  }

  lemma NowGroup()
    ensures NoteGroup(NowQuestions(), Now)
  {
    NowIds();
    NowEntries();
  }

  lemma HeatIds()
    ensures UniqueIds(HeatQuestions())
  {
  }

  lemma HeatEntries()
    ensures forall k :: 0 <= k < |HeatQuestions()| ==>
      var q := HeatQuestions()[k]; q.note == Heat && IdPrefixNote(q.id) == Some(Heat) && WellFormedQuestion(q)
  {
  }

  lemma HeatGroup()
    ensures NoteGroup(HeatQuestions(), Heat)
  {
    HeatIds();
    HeatEntries();
  }

  /** Concatenating two groups whose ids are apart keeps every id unique. */
  lemma {:induction false} UniqueIdsAppend(a: seq<Question>, b: seq<Question>)
    requires UniqueIds(a) && UniqueIds(b)
    requires forall i, j :: 0 <= i < |a| && 0 <= j < |b| ==> a[i].id != b[j].id
    ensures UniqueIds(a + b)
  {
    forall i, j | 0 <= i < j < |a + b| ensures (a + b)[i].id != (a + b)[j].id {
      if j < |a| {
        assert (a + b)[i] == a[i] && (a + b)[j] == a[j];
      } else if i < |a| {
        assert (a + b)[i] == a[i] && (a + b)[j] == b[j - |a|];
      } else {
        assert (a + b)[i] == b[i - |a|] && (a + b)[j] == b[j - |a|];
      }
    }
  }

  /** Every question of the catalog: ids unique, five options each, notes matching their groups. */
  ghost predicate CatalogInvariant(qs: seq<Question>) {
    && UniqueIds(qs)
    && forall k :: 0 <= k < |qs| ==> IdPrefixNote(qs[k].id) == Some(qs[k].note) && WellFormedQuestion(qs[k])
  }

  lemma {:induction false} NoteGroupsAppend(a: seq<Question>, b: seq<Question>, n: Note)
    requires CatalogInvariant(a) && NoteGroup(b, n)
    requires forall i :: 0 <= i < |a| ==> a[i].note != n
    ensures CatalogInvariant(a + b)
  {
    forall i, j | 0 <= i < |a| && 0 <= j < |b| ensures a[i].id != b[j].id {
      assert IdPrefixNote(a[i].id) != IdPrefixNote(b[j].id);
    }
    UniqueIdsAppend(a, b);
    forall k | 0 <= k < |a + b|
      ensures IdPrefixNote((a + b)[k].id) == Some((a + b)[k].note) && WellFormedQuestion((a + b)[k])
    {
      if k >= |a| { assert (a + b)[k] == b[k - |a|]; }
    }
  }

  /** Six note groups, one per note in declaration order, make up a well-formed catalog. */
  lemma SixGroupsMakeACatalog(g1: seq<Question>, g2: seq<Question>, g3: seq<Question>, g4: seq<Question>, g5: seq<Question>, g6: seq<Question>)
    requires NoteGroup(g1, Safety) && NoteGroup(g2, Pleasure) && NoteGroup(g3, Power)
    requires NoteGroup(g4, Light) && NoteGroup(g5, Now) && NoteGroup(g6, Heat)
    ensures CatalogInvariant(g1 + g2 + g3 + g4 + g5 + g6)
  {
    NoteGroupsAppend([], g1, Safety);
    assert [] + g1 == g1;
    NoteGroupsAppend(g1, g2, Pleasure);
    NoteGroupsAppend(g1 + g2, g3, Power);
    NoteGroupsAppend(g1 + g2 + g3, g4, Light);
    NoteGroupsAppend(g1 + g2 + g3 + g4, g5, Now);
    NoteGroupsAppend(g1 + g2 + g3 + g4 + g5, g6, Heat);
  }

  /**
   * The catalog holds thirty-four questions with pairwise distinct ids, each
   * offering five options with distinct ids.
   */
  lemma CatalogIsWellFormed()
    ensures |AllQuestions()| == 34
    ensures CatalogInvariant(AllQuestions())
  {
    SafetyGroup(); PleasureGroup(); PowerGroup(); LightGroup(); NowGroup(); HeatGroup();
    SixGroupsMakeACatalog(SafetyQuestions(), PleasureQuestions(), PowerQuestions(), LightQuestions(), NowQuestions(), HeatQuestions());
  }
}
