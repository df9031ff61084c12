/**
 * The jazz progression lessons (src/lessons/jazz/progressions.ts): every step of a
 * progression in each of twelve major keys, checked by chroma-set equality against the
 * key's diatonic chord at the step's index.
 */
module JazzProgressions {
  import opened Wrappers
  import opened Seqs
  import opened MusicTheory
  import opened Lessons
  import opened Grids

  const Keys: seq<string> := ["C", "G", "F", "D", "Bb", "A", "Eb", "E", "Ab", "B", "Db", "F#"]

  /** A step of a progression: its label and the 0-based index of its diatonic chord. */
  datatype Step = Step(caption: string, chordIndex: nat)

  /** `Key.majorKey(key).chords`, a table of tonal that is not modelled. */
  type DiatonicChords = string -> seq<string>

  /** `diatonic[step.chordIndex]`; an index past the end reads `undefined`, here "". */
  function ChordAt(diatonic: seq<string>, i: nat): (r: string)
    ensures i < |diatonic| ==> r == diatonic[i]
    ensures i >= |diatonic| ==> r == ""
  {
    if i < |diatonic| then diatonic[i] else ""
  }

  function Labels(steps: seq<Step>): (r: seq<string>)
    ensures |r| == |steps| && forall i | 0 <= i < |steps| :: r[i] == steps[i].caption
  {
    seq(|steps|, i requires 0 <= i < |steps| => steps[i].caption)
  }

  /** The question pushed for `step`, number `idx` of `total`, in `key`. */
  function JazzQuestion(lessonId: string, labels: seq<string>, total: nat, majorKey: DiatonicChords,
                        key: string, idx: nat, step: Step): Question
  {
    var chordName := ChordAt(majorKey(key), step.chordIndex);
    Question(
      KeyedId(lessonId, key, idx),
      chordName,
      Some(Treble),
      Some(key),
      ChordByName(chordName),
      Some(Metadata(key, idx, total, step.caption, labels)))
  }

  /** The question builder of one progression, as the loops apply it. */
  function Maker(lessonId: string, steps: seq<Step>, majorKey: DiatonicChords): (string, nat, Step) -> Question {
    (key: string, idx: nat, step: Step) => JazzQuestion(lessonId, Labels(steps), |steps|, majorKey, key, idx, step)
  }

  /** `generateQuestionsForJazzProgression`: for each key, for each step, push its question. */
  method GenerateQuestionsForJazzProgression(lessonId: string, steps: seq<Step>, majorKey: DiatonicChords)
    returns (questions: seq<Question>)
    ensures questions == Grid(Keys, steps, Maker(lessonId, steps, majorKey))
  {
    var functionalSequence := Labels(steps);
    questions := [];
    var k := 0;
    while k < |Keys|
      invariant 0 <= k <= |Keys|
      invariant questions == Grid(Keys[..k], steps, Maker(lessonId, steps, majorKey))
    {
      var key := Keys[k];
      var diatonic := majorKey(key);
      var idx := 0;
      while idx < |steps|
        invariant 0 <= idx <= |steps|
        invariant questions ==
          Grid(Keys[..k], steps, Maker(lessonId, steps, majorKey)) + Row(key, steps, Maker(lessonId, steps, majorKey))[..idx]
      {
        RowStep(Grid(Keys[..k], steps, Maker(lessonId, steps, majorKey)), key, steps, Maker(lessonId, steps, majorKey), idx);
        var chordName := ChordAt(diatonic, steps[idx].chordIndex);
        questions := questions + [Question(
          KeyedId(lessonId, key, idx),
          chordName,
          Some(Treble),
          Some(key),
          ChordByName(chordName),
          Some(Metadata(key, idx, |steps|, steps[idx].caption, functionalSequence)))];
        idx := idx + 1;
      }
      GridExtend(Keys, k, steps, Maker(lessonId, steps, majorKey));
      k := k + 1;
    }
    assert Keys[..|Keys|] == Keys;
  }

  /** `generateQuestion` of a lesson: rebuild the list and take its first entry, if any. */
  method GenerateQuestion(lessonId: string, steps: seq<Step>, majorKey: DiatonicChords) returns (q: Option<Question>)
    ensures |steps| == 0 ==> q.None?
    ensures |steps| > 0 ==> q == Some(JazzQuestion(lessonId, Labels(steps), |steps|, majorKey, "C", 0, steps[0]))
  {
    var qs := GenerateQuestionsForJazzProgression(lessonId, steps, majorKey);
    if |steps| == 0 {
      GridLength(Keys, steps, Maker(lessonId, steps, majorKey));
      q := None;
    } else {
      GridLayout(Keys, steps, Maker(lessonId, steps, majorKey), 0, 0);
      q := Some(qs[0]);
    }
  }

  const IIVI: seq<Step> := [Step("ii7", 1), Step("V7", 4), Step("Imaj7", 0)]
  const Turnaround: seq<Step> := [Step("Imaj7", 0), Step("vi7", 5), Step("ii7", 1), Step("V7", 4)]

  lemma KeysFacts()
    ensures |Keys| == 12 && Distinct(Keys)
    ensures forall k | 0 <= k < |Keys| :: NoDash(Keys[k])
  {
  }

  /**
   * 12·n questions, key-major: question k·n + i targets the diatonic chord at step i's
   * index in key k, checks it by chroma-set equality without a bass test, and carries the
   * key, the step's index, the sequence length and all labels.
   */
  lemma JazzQuestions(lessonId: string, steps: seq<Step>, majorKey: DiatonicChords, k: nat, i: nat)
    requires k < 12 && i < |steps|
    ensures |Grid(Keys, steps, Maker(lessonId, steps, majorKey))| == 12 * |steps|
    ensures var q := Grid(Keys, steps, Maker(lessonId, steps, majorKey))[k * |steps| + i];
      var name := ChordAt(majorKey(Keys[k]), steps[i].chordIndex);
      q.id == KeyedId(lessonId, Keys[k], i) && q.targetChord == name &&
      q.keySignature == Some(Keys[k]) && q.clef == Some(Treble) &&
      (forall input, table: ChordTable :: Accepts(q, input, table) == ValidateChord(input, table(name))) &&
      q.metadata == Some(Metadata(Keys[k], i, |steps|, steps[i].caption, Labels(steps)))
  {
    KeysFacts();
    GridLayout(Keys, steps, Maker(lessonId, steps, majorKey), k, i);
  }

  /** The ids of a progression's questions are pairwise distinct. */
  lemma JazzIdsDistinct(lessonId: string, steps: seq<Step>, majorKey: DiatonicChords, p: nat, q: nat)
    requires p < q < |Grid(Keys, steps, Maker(lessonId, steps, majorKey))|
    ensures Grid(Keys, steps, Maker(lessonId, steps, majorKey))[p].id != Grid(Keys, steps, Maker(lessonId, steps, majorKey))[q].id
  {
    KeysFacts();
    var k1, i1 := GridMembers(Keys, steps, Maker(lessonId, steps, majorKey), p);
    var k2, i2 := GridMembers(Keys, steps, Maker(lessonId, steps, majorKey), q);
    KeyedIdInjective(lessonId, Keys[k1], i1, Keys[k2], i2);
  }
}
