/**
 * The round-robin interleave of note buckets used to order a session's
 * questions: round k emits the k-th question of every bucket that still has
 * one, visiting the buckets in a fixed note order. This module defines the
 * interleave as a function and proves what it promises.
 */
module RoundRobin {
  import opened Types
  import opened QuestionSelection

  /** The note order of the interleave: safety, light, pleasure, now, power, heat. */
  const NOTE_ORDER: seq<Note> := [Safety, Light, Pleasure, Now, Power, Heat]

  /** The k-th element of bucket `b`, if it has one. */
  function Pick(b: seq<Question>, k: nat): seq<Question> {
    if k < |b| then [b[k]] else []
  }

  /** Round k over the first j buckets: the k-th element of each of them that has one, in bucket order. */
  function RoundPrefix(bs: seq<seq<Question>>, k: nat, j: nat): seq<Question>
    requires j <= |bs|
  {
    if j == 0 then [] else RoundPrefix(bs, k, j - 1) + Pick(bs[j - 1], k)
  }

  /** Round k over all the buckets. */
  function Round(bs: seq<seq<Question>>, k: nat): seq<Question> {
    RoundPrefix(bs, k, |bs|)
  }

  /** The length of the longest bucket. */
  function MaxLen(bs: seq<seq<Question>>): (m: nat)
    ensures forall i :: 0 <= i < |bs| ==> |bs[i]| <= m
    ensures m == 0 || exists i :: 0 <= i < |bs| && |bs[i]| == m
  {
    if bs == [] then 0
    else if |bs[0]| > MaxLen(bs[1..]) then |bs[0]|
    else MaxLen(bs[1..])
  }

  /** Rounds 0 to k - 1, one after another. */
  function RoundsBelow(bs: seq<seq<Question>>, k: nat): seq<Question> {
    if k == 0 then [] else RoundsBelow(bs, k - 1) + Round(bs, k - 1)
  }

  /** Rounds k onwards, up to the last non-empty one. */
  function RoundsFrom(bs: seq<seq<Question>>, k: nat): seq<Question>
    decreases MaxLen(bs) - k
  {
    if k >= MaxLen(bs) then [] else Round(bs, k) + RoundsFrom(bs, k + 1)
  }

  /** The interleave: every round that emits something, in order. */
  function Interleaving(bs: seq<seq<Question>>): seq<Question> {
    RoundsBelow(bs, MaxLen(bs))
  }

  /**
   * Bucket i holds only questions of note ks[i], and no two buckets share a
   * note.
   */
  ghost predicate Keyed(bs: seq<seq<Question>>, ks: seq<Note>) {
    && |bs| == |ks|
    && (forall i, j :: 0 <= i < j < |ks| ==> ks[i] != ks[j])
    && (forall i, x :: 0 <= i < |bs| && 0 <= x < |bs[i]| ==> bs[i][x].note == ks[i])
  }

  /** A round over the first j buckets is empty exactly when each of them has at most k elements. */
  lemma {:induction false} RoundPrefixEmpty(bs: seq<seq<Question>>, k: nat, j: nat)
    requires j <= |bs|
    ensures RoundPrefix(bs, k, j) == [] <==> forall m :: 0 <= m < j ==> |bs[m]| <= k
  {
    if j > 0 {
      RoundPrefixEmpty(bs, k, j - 1);
    }
  }

  /** Round k is empty exactly when k has reached the longest bucket. */
  lemma RoundEmpty(bs: seq<seq<Question>>, k: nat)
    ensures Round(bs, k) == [] <==> k >= MaxLen(bs)
  {
    RoundPrefixEmpty(bs, k, |bs|);
  }

  /** Every element of a round is the k-th element of some bucket that has one. */
  lemma {:induction false} RoundPrefixOrigin(bs: seq<seq<Question>>, k: nat, j: nat, p: nat) returns (b: nat)
    requires j <= |bs| && p < |RoundPrefix(bs, k, j)|
    ensures b < j && k < |bs[b]| && RoundPrefix(bs, k, j)[p] == bs[b][k]
  {
    var prev := RoundPrefix(bs, k, j - 1);
    if p < |prev| {
      b := RoundPrefixOrigin(bs, k, j - 1, p);
    } else {
      b := j - 1;
    }
  }

  /** The first element of a round comes from the first bucket that still has a k-th element. */
  lemma {:induction false} RoundPrefixFirst(bs: seq<seq<Question>>, k: nat, j: nat) returns (b: nat)
    requires j <= |bs| && RoundPrefix(bs, k, j) != []
    ensures b < j && k < |bs[b]| && RoundPrefix(bs, k, j)[0] == bs[b][k]
    ensures forall m :: 0 <= m < b ==> |bs[m]| <= k
  {
    var prev := RoundPrefix(bs, k, j - 1);
    var whole := RoundPrefix(bs, k, j);
    assert whole == prev + Pick(bs[j - 1], k);
    if prev != [] {
      assert whole[0] == prev[0];
      b := RoundPrefixFirst(bs, k, j - 1);
    } else {
      RoundPrefixEmpty(bs, k, j - 1);
      assert whole == Pick(bs[j - 1], k);
      b := j - 1;
    }
  }

  /** The last element of a round comes from the last bucket that still has a k-th element. */
  lemma {:induction false} RoundPrefixLast(bs: seq<seq<Question>>, k: nat, j: nat) returns (b: nat)
    requires j <= |bs| && RoundPrefix(bs, k, j) != []
    ensures b < j && k < |bs[b]| && RoundPrefix(bs, k, j)[|RoundPrefix(bs, k, j)| - 1] == bs[b][k]
    ensures forall m :: b < m < j ==> |bs[m]| <= k
  {
    if k < |bs[j - 1]| {
      b := j - 1;
    } else {
      b := RoundPrefixLast(bs, k, j - 1);
    }
  }

  /** Within one round, neighbours measure different notes. */
  lemma {:induction false} RoundPrefixNeighboursDiffer(bs: seq<seq<Question>>, ks: seq<Note>, k: nat, j: nat)
    requires Keyed(bs, ks) && j <= |bs|
    ensures forall p :: 0 <= p < |RoundPrefix(bs, k, j)| - 1 ==>
      RoundPrefix(bs, k, j)[p].note != RoundPrefix(bs, k, j)[p + 1].note
  {
    if j > 0 {
      var prev := RoundPrefix(bs, k, j - 1);
      RoundPrefixNeighboursDiffer(bs, ks, k, j - 1);
      if k < |bs[j - 1]| && prev != [] {
        var b := RoundPrefixLast(bs, k, j - 1);
        assert prev[|prev| - 1].note == ks[b];
        assert bs[j - 1][k].note == ks[j - 1];
        var cur := RoundPrefix(bs, k, j);
        assert cur == prev + [bs[j - 1][k]];
        forall p | 0 <= p < |cur| - 1 ensures cur[p].note != cur[p + 1].note {
          if p < |prev| - 1 {
            assert cur[p] == prev[p] && cur[p + 1] == prev[p + 1];
          }
        }
      }
    }
  }

  // ---------- Restriction to one note ----------

  lemma {:induction false} RoundPrefixOfNote(bs: seq<seq<Question>>, ks: seq<Note>, k: nat, j: nat, i: nat)
    requires Keyed(bs, ks) && j <= |bs| && i < |bs|
    ensures FilterByNote(RoundPrefix(bs, k, j), ks[i]) == if i < j then Pick(bs[i], k) else []
  {
    if j > 0 {
      RoundPrefixOfNote(bs, ks, k, j - 1, i);
      FilterByNoteConcat(RoundPrefix(bs, k, j - 1), Pick(bs[j - 1], k), ks[i]);
      if k < |bs[j - 1]| {
        assert bs[j - 1][k].note == ks[j - 1];
        assert FilterByNote([bs[j - 1][k]], ks[i]) == if j - 1 == i then [bs[j - 1][k]] else [];
      }
    }
  }

  /**
   * When a prefix of a bucket filters out of `before` and the bucket's next
   * element out of `after`, the longer prefix filters out of both together.
   */
  lemma FilterExtendsPrefix(before: seq<Question>, after: seq<Question>, n: Note, b: seq<Question>, k: nat)
    requires FilterByNote(before, n) == b[..Min(k, |b|)]
    requires FilterByNote(after, n) == Pick(b, k)
    ensures FilterByNote(before + after, n) == b[..Min(k + 1, |b|)]
  {
    FilterByNoteConcat(before, after, n);
    if k < |b| {
      assert b[..k + 1] == b[..k] + [b[k]];
    }
  }

  lemma {:induction false} RoundsBelowOfNote(bs: seq<seq<Question>>, ks: seq<Note>, k: nat, i: nat)
    requires Keyed(bs, ks) && i < |bs|
    ensures FilterByNote(RoundsBelow(bs, k), ks[i]) == bs[i][..Min(k, |bs[i]|)]
  {
    if k > 0 {
      RoundsBelowOfNote(bs, ks, k - 1, i);
      RoundPrefixOfNote(bs, ks, k - 1, |bs|, i);
      FilterExtendsPrefix(RoundsBelow(bs, k - 1), Round(bs, k - 1), ks[i], bs[i], k - 1);
    }
  }

  /** Restricted to the note of one bucket, the interleave is that bucket, in its own order. */
  lemma InterleavingOfNote(bs: seq<seq<Question>>, ks: seq<Note>, i: nat)
    requires Keyed(bs, ks) && i < |bs|
    ensures FilterByNote(Interleaving(bs), ks[i]) == bs[i]
  {
    RoundsBelowOfNote(bs, ks, MaxLen(bs), i);
    assert bs[i][..|bs[i]|] == bs[i];
  }

  // ---------- Runs of one note ----------

  lemma {:induction false} RoundsBelowAndFrom(bs: seq<seq<Question>>, k: nat)
    requires k <= MaxLen(bs)
    ensures RoundsBelow(bs, k) + RoundsFrom(bs, k) == Interleaving(bs)
    decreases MaxLen(bs) - k
  {
    if k < MaxLen(bs) {
      RoundsBelowAndFrom(bs, k + 1);
      assert RoundsBelow(bs, k + 1) == RoundsBelow(bs, k) + Round(bs, k);
    }
  }

  /** When every bucket but bucket i is down to k elements, round k holds only bucket i's note. */
  lemma {:induction false} RoundPrefixOfOneBucket(bs: seq<seq<Question>>, ks: seq<Note>, k: nat, j: nat, i: nat)
    requires Keyed(bs, ks) && j <= |bs| && i < |bs|
    requires forall m :: 0 <= m < j && m != i ==> |bs[m]| <= k
    ensures forall q :: 0 <= q < |RoundPrefix(bs, k, j)| ==> RoundPrefix(bs, k, j)[q].note == ks[i]
  {
    if j > 0 {
      RoundPrefixOfOneBucket(bs, ks, k, j - 1, i);
      if k < |bs[j - 1]| {
        assert j - 1 == i && bs[i][k].note == ks[i];
      }
    }
  }

  /** Once every bucket but bucket i is down to k elements, rounds k onwards hold only bucket i's note. */
  lemma {:induction false} OnlyOneBucketLeft(bs: seq<seq<Question>>, ks: seq<Note>, k: nat, i: nat)
    requires Keyed(bs, ks) && i < |bs|
    requires forall m :: 0 <= m < |bs| && m != i ==> |bs[m]| <= k
    ensures forall q :: 0 <= q < |RoundsFrom(bs, k)| ==> RoundsFrom(bs, k)[q].note == ks[i]
    decreases MaxLen(bs) - k
  {
    if k < MaxLen(bs) {
      OnlyOneBucketLeft(bs, ks, k + 1, i);
      RoundPrefixOfOneBucket(bs, ks, k, |bs|, i);
      var r := Round(bs, k);
      var tail := RoundsFrom(bs, k + 1);
      var whole: seq<Question> := r + tail;
      forall q | |r| <= q < |whole| ensures whole[q].note == ks[i] {
        assert whole[q] == tail[q - |r|];
      }
    }
  }

  /**
   * Neighbours in `whole` share a note only where that note has the rest of
   * `whole` to itself: from the first of the two onwards, every element has it.
   */
  ghost predicate RepeatsOnlyAtTail(s: seq<Question>) {
    forall p, q :: 0 <= p < |s| - 1 && s[p].note == s[p + 1].note && p <= q < |s| ==> s[q].note == s[p].note
  }

  /**
   * When the last question of round k and the first of round k + 1 share a
   * note, every later round holds only that note.
   */
  lemma {:induction false} RepeatAcrossRounds(bs: seq<seq<Question>>, ks: seq<Note>, k: nat, next: nat)
    requires Keyed(bs, ks) && next == k + 1 && next < MaxLen(bs)
    requires Round(bs, k) != [] && Round(bs, next) != []
    requires Round(bs, k)[|Round(bs, k)| - 1].note == Round(bs, next)[0].note
    ensures forall q :: 0 <= q < |RoundsFrom(bs, next)| ==>
      RoundsFrom(bs, next)[q].note == Round(bs, next)[0].note
  {
    var b1 := RoundPrefixLast(bs, k, |bs|);
    var b2 := RoundPrefixFirst(bs, next, |bs|);
    assert bs[b1][k].note == ks[b1];
    assert bs[b2][next].note == ks[b2];
    assert b1 == b2;
    OnlyOneBucketLeft(bs, ks, next, b1);
  }

  lemma {:induction false} RoundsFromRepeatsOnlyAtTail(bs: seq<seq<Question>>, ks: seq<Note>, k: nat)
    requires Keyed(bs, ks)
    ensures RepeatsOnlyAtTail(RoundsFrom(bs, k))
    decreases MaxLen(bs) - k
  {
    if k < MaxLen(bs) {
      RoundsFromRepeatsOnlyAtTail(bs, ks, k + 1);
      RoundPrefixNeighboursDiffer(bs, ks, k, |bs|);
      var r := Round(bs, k);
      var tail := RoundsFrom(bs, k + 1);
      var whole := r + tail;
      assert RoundsFrom(bs, k) == whole;
      if tail != [] {
        assert k + 1 < MaxLen(bs);
        RoundEmpty(bs, k);
        RoundEmpty(bs, k + 1);
        assert tail[0] == Round(bs, k + 1)[0];
        if r[|r| - 1].note == tail[0].note {
          RepeatAcrossRounds(bs, ks, k, k + 1);
        }
      }
      forall p, q | 0 <= p < |whole| - 1 && p <= q < |whole|
        ensures whole[p].note == whole[p + 1].note ==> whole[q].note == whole[p].note
      {
        if p < |r| - 1 {
          assert whole[p] == r[p] && whole[p + 1] == r[p + 1];
        } else if p >= |r| {
          assert whole[p] == tail[p - |r|] && whole[p + 1] == tail[p - |r| + 1];
          assert whole[q] == tail[q - |r|];
        } else {
          assert whole[p] == r[|r| - 1] && whole[p + 1] == tail[0];
          if q > p { assert whole[q] == tail[q - |r|]; }
        }
      }
    }
  }

  /**
   * Two neighbours of the interleave share a note only once every other
   * bucket is exhausted: from there on, every element has that note.
   */
  lemma InterleavingRepeatsOnlyAtTail(bs: seq<seq<Question>>, ks: seq<Note>)
    requires Keyed(bs, ks)
    ensures RepeatsOnlyAtTail(Interleaving(bs))
  {
    RoundsBelowAndFrom(bs, 0);
    RoundsFromRepeatsOnlyAtTail(bs, ks, 0);
  }
}
