/**
 * Session ordering: the questions of a session are grouped by note, each
 * group is shuffled, and the groups are interleaved round by round in the
 * note order of the interleave. The random draw of the shuffle is a
 * nondeterministic choice; nothing here claims the draw is uniform.
 */
module QuestionShuffle {
  import opened Types
  import opened QuestionSelection
  import opened RoundRobin

  /**
   * Fisher-Yates: from the last position down to the second, swap the
   * element there with one at a position chosen at or below it. The input
   * is copied first and left as it was.
   */
  method ShuffleArray<T>(input: seq<T>) returns (r: seq<T>)
    ensures multiset(r) == multiset(input)
  {
    var a := new T[|input|](k requires 0 <= k < |input| => input[k]);
    assert a[..] == input;
    var i := |input| - 1;
    while i > 0
      invariant i < a.Length
      invariant multiset(a[..]) == multiset(input)
    {
      var j :| 0 <= j <= i;
      a[i], a[j] := a[j], a[i];
      i := i - 1;
    }
    r := a[..];
  }

  /** The buckets of a note record, listed in the note order of the interleave. */
  function Buckets(byNote: map<Note, seq<Question>>): (bs: seq<seq<Question>>)
    requires forall n: Note :: n in byNote
    ensures |bs| == |NOTE_ORDER|
    ensures forall i :: 0 <= i < |bs| ==> bs[i] == byNote[NOTE_ORDER[i]]
  {
    seq(|NOTE_ORDER|, i requires 0 <= i < |NOTE_ORDER| => byNote[NOTE_ORDER[i]])
  }

  /** Sorts `questions` into one bucket per note, each in the order of `questions`. */
  method GroupByNote(questions: seq<Question>) returns (byNote: map<Note, seq<Question>>)
    ensures forall n: Note :: n in byNote && byNote[n] == FilterByNote(questions, n)
  {
    byNote := map[Safety := [], Pleasure := [], Power := [], Light := [], Now := [], Heat := []];
    assert questions[..0] == [];
    forall n: Note ensures n in byNote && byNote[n] == [] {
      match n
      case Safety => case Pleasure => case Power => case Light => case Now => case Heat =>
    }
    for i := 0 to |questions|
      invariant forall n: Note :: n in byNote && byNote[n] == FilterByNote(questions[..i], n)
    {
      var q := questions[i];
      assert questions[..i + 1] == questions[..i] + [q];
      forall n: Note
        ensures FilterByNote(questions[..i + 1], n) == FilterByNote(questions[..i], n) + FilterByNote([q], n)
      {
        FilterByNoteConcat(questions[..i], [q], n);
      }
      byNote := byNote[q.note := byNote[q.note] + [q]];
    }
    assert questions[..|questions|] == questions;
  }

  /** Replaces every bucket of the record by a shuffle of it. */
  method ShuffleBuckets(byNote: map<Note, seq<Question>>) returns (shuffled: map<Note, seq<Question>>)
    requires forall n: Note :: n in byNote
    ensures forall n: Note :: n in shuffled && multiset(shuffled[n]) == multiset(byNote[n])
  {
    shuffled := byNote;
    for k := 0 to |NOTE_KEYS|
      invariant forall n: Note :: n in shuffled && multiset(shuffled[n]) == multiset(byNote[n])
    {
      var n := NOTE_KEYS[k];
      var mixed := ShuffleArray(shuffled[n]);
      shuffled := shuffled[n := mixed];
    }
  }

  /**
   * The interleave loop: round `index` appends the index-th question of
   * every bucket that has one, in note order, and the loop stops after the
   * first round that appends nothing.
   */
  method InterleaveByNoteOrder(byNote: map<Note, seq<Question>>) returns (result: seq<Question>)
    requires forall n: Note :: n in byNote
    ensures result == Interleaving(Buckets(byNote))
  {
    ghost var bs := Buckets(byNote);
    result := [];
    var hasMore := true;
    var index := 0;
    while hasMore
      invariant index <= MaxLen(bs) + 1
      invariant hasMore <==> index <= MaxLen(bs)
      invariant result == RoundsBelow(bs, index)
      decreases MaxLen(bs) + 1 - index
    {
      hasMore := false;
      for j := 0 to |NOTE_ORDER|
        invariant result == RoundsBelow(bs, index) + RoundPrefix(bs, index, j)
        invariant hasMore <==> RoundPrefix(bs, index, j) != []
      {
        var bucket := byNote[NOTE_ORDER[j]];
        if index < |bucket| {
          result := result + [bucket[index]];
          hasMore := true;
        }
      }
      RoundEmpty(bs, index);
      index := index + 1;
    }
    RoundEmpty(bs, index - 1);
  }

  /** The sum, over the six notes, of the questions of `s` that measure each note. */
  function NoteParts(s: seq<Question>): multiset<Question> {
    multiset(FilterByNote(s, Safety)) + multiset(FilterByNote(s, Pleasure)) + multiset(FilterByNote(s, Power))
    + multiset(FilterByNote(s, Light)) + multiset(FilterByNote(s, Now)) + multiset(FilterByNote(s, Heat))
  }

  /** Putting one question in front adds it to the part of its own note only. */
  lemma NotePartsCons(x: Question, rest: seq<Question>)
    ensures NoteParts([x] + rest) == multiset{x} + NoteParts(rest)
  {
    var s := [x] + rest;
    assert s[0] == x && s[1..] == rest;
    match x.note
    case Safety =>
    case Pleasure =>
    case Power =>
    case Light =>
    case Now =>
    case Heat =>
  }

  /** A list of questions is the sum of its per-note parts. */
  lemma {:induction false} SplitByNotes(s: seq<Question>)
    ensures multiset(s) == NoteParts(s)
  {
    if s != [] {
      SplitByNotes(s[1..]);
      assert s == [s[0]] + s[1..];
      NotePartsCons(s[0], s[1..]);
    }
  }

  /** Every bucket of `mixed` is a shuffle of the questions of its note in `questions`. */
  ghost predicate ShufflesOf(mixed: map<Note, seq<Question>>, questions: seq<Question>) {
    forall n: Note :: n in mixed && multiset(mixed[n]) == multiset(FilterByNote(questions, n))
  }

  /** Buckets that shuffle the note groups of a list hold one note each, and the note order lists each note once. */
  lemma ShuffledBucketsAreKeyed(mixed: map<Note, seq<Question>>, questions: seq<Question>)
    requires ShufflesOf(mixed, questions)
    ensures Keyed(Buckets(mixed), NOTE_ORDER)
  {
    forall n: Note, x | 0 <= x < |mixed[n]| ensures mixed[n][x].note == n {
      assert mixed[n][x] in multiset(FilterByNote(questions, n));
    }
  }

  /** Restricted to one note, the interleave of the buckets is that note's bucket. */
  lemma InterleavingSplitsIntoBuckets(mixed: map<Note, seq<Question>>, questions: seq<Question>)
    requires ShufflesOf(mixed, questions)
    ensures forall n: Note :: FilterByNote(Interleaving(Buckets(mixed)), n) == mixed[n]
  {
    var bs := Buckets(mixed);
    ShuffledBucketsAreKeyed(mixed, questions);
    forall n: Note ensures FilterByNote(Interleaving(bs), n) == mixed[n] {
      var i := match n
        case Safety => 0 case Light => 1 case Pleasure => 2
        case Now => 3 case Power => 4 case Heat => 5;
      assert NOTE_ORDER[i] == n;
      InterleavingOfNote(bs, NOTE_ORDER, i);
    }
  }

  /** The interleave of buckets that shuffle the note groups of a list is a permutation of that list. */
  lemma InterleavingIsPermutation(mixed: map<Note, seq<Question>>, questions: seq<Question>)
    requires ShufflesOf(mixed, questions)
    ensures multiset(Interleaving(Buckets(mixed))) == multiset(questions)
  {
    var whole := Interleaving(Buckets(mixed));
    InterleavingSplitsIntoBuckets(mixed, questions);
    SplitByNotes(whole);
    SplitByNotes(questions);
  }

  /**
   * Orders a session's questions: the result is the round-robin interleave,
   * in the note order safety, light, pleasure, now, power, heat, of one
   * shuffle per note of that note's questions. So it is a permutation of the
   * input, restricted to one note it is that note's shuffle, and two
   * neighbours share a note only once every other note is used up, from
   * where on only that note remains.
   */
  method ShuffleQuestionsWithinNotes(questions: seq<Question>) returns (result: seq<Question>, ghost shuffled: map<Note, seq<Question>>)
    ensures multiset(result) == multiset(questions)
    ensures forall n: Note :: n in shuffled && FilterByNote(result, n) == shuffled[n]
    ensures result == Interleaving(Buckets(shuffled))
    ensures forall n: Note :: multiset(shuffled[n]) == multiset(FilterByNote(questions, n))
    ensures RepeatsOnlyAtTail(result)
  {
    var byNote := GroupByNote(questions);
    var mixed := ShuffleBuckets(byNote);
    result := InterleaveByNoteOrder(mixed);
    shuffled := mixed;
    assert ShufflesOf(mixed, questions);
    InterleavingSplitsIntoBuckets(mixed, questions);
    InterleavingIsPermutation(mixed, questions);
    ShuffledBucketsAreKeyed(mixed, questions);
    InterleavingRepeatsOnlyAtTail(Buckets(mixed), NOTE_ORDER);
  }
}
