/**
 * The interval-identification exercises (src/exercises/intervals/interval-identification.ts):
 * a natural root in the clef's octave and the note a basic interval above it; the answer is
 * the interval's name among six. The harmonic and melodic variants build the same record
 * and differ only in texts.
 */
module IntervalIdentification {
  import opened Wrappers
  import opened Text
  import opened Seqs
  import opened Pitch
  import opened MusicHelpers
  import opened Lessons
  import opened Options
  import opened Exercises

  /** The ten intervals asked for, without the octave. */
  const BasicIntervals: seq<string> := ["m2", "M2", "m3", "M3", "P4", "P5", "m6", "M6", "m7", "M7"]

  /** `Note.transpose(note, interval)`, with "" for a failed transposition. */
  type Transpose = (string, string) -> string

  /** `generateOptions(correctInterval)`: the interval and five other shuffled ones, shuffled. */
  method GenerateOptions(correctInterval: string, rnd1: Random, rnd2: Random) returns (options: seq<string>)
    ensures options == PickOptions(correctInterval, BasicIntervals, 5, rnd1, rnd2)
  {
    options := Options.GenerateOptions(correctInterval, BasicIntervals, 5, rnd1, rnd2);
  }

  lemma IntervalsFacts()
    ensures |BasicIntervals| == 10 && Distinct(BasicIntervals) && "P8" !in BasicIntervals
  {
  }

  /** Six different interval names, the correct one once, all from the ten. */
  lemma IntervalOptionsFacts(correct: string, rnd1: Random, rnd2: Random)
    requires correct in BasicIntervals
    ensures |PickOptions(correct, BasicIntervals, 5, rnd1, rnd2)| == 6
    ensures Distinct(PickOptions(correct, BasicIntervals, 5, rnd1, rnd2))
    ensures multiset(PickOptions(correct, BasicIntervals, 5, rnd1, rnd2))[correct] == 1
    ensures forall x | x in PickOptions(correct, BasicIntervals, 5, rnd1, rnd2) :: x in BasicIntervals
  {
    IntervalsFacts();
    PickOptionsFacts(correct, BasicIntervals, 5, rnd1, rnd2);
  }

  /**
   * `generateHarmonicQuestion` / `generateMelodicQuestion`: the root is shown in octave 4
   * (treble) or 3 (bass) with its transposition by the drawn interval. Where the source
   * retries after a failed transposition, the model answers None.
   */
  method GenerateQuestion(clefCoin: bool, rootDraw: nat, intervalDraw: nat, transpose: Transpose,
                          rnd1: Random, rnd2: Random)
    returns (r: Option<ExerciseQuestion>)
    ensures var root := Notes[RandomIndex(rootDraw, 7)];
      var octave := if clefCoin then 4 else 3;
      var interval := BasicIntervals[RandomIndex(intervalDraw, 10)];
      var second := transpose(root + IntToString(octave), interval);
      (r.None? <==> second == "") &&
      (r.Some? ==>
        var q := r.value;
        q.clef == (if clefCoin then Treble else Bass) && q.keySignature == "C" &&
        q.displayNotes == [root + IntToString(octave), second] &&
        PitchClass(q.displayNotes[0]) == root && Octave(q.displayNotes[0]) == Some(octave) &&
        q.correctAnswer == interval && q.correctAnswer in BasicIntervals && q.correctAnswer != "P8" &&
        q.options == PickOptions(interval, BasicIntervals, 5, rnd1, rnd2))
  {
    var clef := if clefCoin then Treble else Bass;
    var octave := if clef == Treble then 4 else 3;
    var rootNote := Notes[RandomIndex(rootDraw, |Notes|)];
    var interval := BasicIntervals[RandomIndex(intervalDraw, |BasicIntervals|)];
    var rootWithOctave := rootNote + IntToString(octave);
    var secondNote := transpose(rootWithOctave, interval);
    if secondNote == "" {
      return None;
    }
    NotesFacts();
    IntervalsFacts();
    assert rootNote == Show(Note(rootNote[0], 0, None));
    DisplayedNote(Note(rootNote[0], 0, None), octave);
    var options := GenerateOptions(interval, rnd1, rnd2);
    r := Some(ExerciseQuestion(clef, "C", [rootWithOctave, secondNote], interval, options));
  }
}
