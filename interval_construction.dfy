/**
 * The interval-construction exercises (src/exercises/intervals/interval-construction.ts):
 * given a natural root and an interval, name the pitch class the interval above (or
 * below) the root reaches. The wrong options are the pitch classes other intervals from
 * the same root reach.
 */
module IntervalConstruction {
  import opened Wrappers
  import opened Text
  import opened Seqs
  import opened Pitch
  import opened MusicHelpers
  import opened Lessons
  import opened Options
  import opened Exercises

  /** The eleven intervals, the octave included. */
  const BasicIntervals: seq<string> := ["m2", "M2", "m3", "M3", "P4", "P5", "m6", "M6", "m7", "M7", "P8"]

  /** `Note.transpose(note, interval)`, with "" for a failed transposition. */
  type Transpose = (string, string) -> string

  /** JavaScript's `a || b` on strings. */
  function OrElse(a: string, b: string): (r: string)
    ensures r == a || r == b
    ensures r == "" ==> a == "" && b == ""
  {
    if a != "" then a else b
  }

  /** The wrong option an interval from the root gives: `Note.pitchClass(w) || w`. */
  function WrongName(rootNote: string, transpose: Transpose, interval: string): string {
    var w := transpose(rootNote + "4", interval);
    OrElse(PitchClass(w), w)
  }

  /**
   * The filter of `generateOptions`: the intervals whose transposition of the root in
   * octave 4 succeeds and has a pitch class other than the correct note's.
   */
  function WrongIntervals(intervals: seq<string>, correctNote: string, rootNote: string, transpose: Transpose)
    : (r: seq<string>)
    ensures forall x :: x in r <==>
      x in intervals && transpose(rootNote + "4", x) != "" &&
      PitchClass(transpose(rootNote + "4", x)) != PitchClass(correctNote)
    ensures |r| <= |intervals|
  {
    if |intervals| == 0 then []
    else
      var x := intervals[0];
      var w := transpose(rootNote + "4", x);
      var rest := WrongIntervals(intervals[1..], correctNote, rootNote, transpose);
      if w != "" && PitchClass(w) != PitchClass(correctNote) then [x] + rest else rest
  }

  function WrongNames(rootNote: string, transpose: Transpose, intervals: seq<string>): (r: seq<string>)
    ensures |r| == |intervals|
    ensures forall i | 0 <= i < |intervals| :: r[i] == WrongName(rootNote, transpose, intervals[i])
  {
    seq(|intervals|, i requires 0 <= i < |intervals| => WrongName(rootNote, transpose, intervals[i]))
  }

  lemma WrongNamesStep(rootNote: string, transpose: Transpose, ivs: seq<string>, i: nat)
    requires i < |ivs|
    ensures WrongNames(rootNote, transpose, ivs[..i + 1]) ==
      WrongNames(rootNote, transpose, ivs[..i]) + [WrongName(rootNote, transpose, ivs[i])]
  {
    assert ivs[..i + 1] == ivs[..i] + [ivs[i]];
  }

  /** Pushing the name of the next interval, which transposes successfully, extends the options by its wrong name. */
  lemma WrongNamesPush(correctNote: string, rootNote: string, transpose: Transpose, ivs: seq<string>, i: nat)
    requires i < |ivs| && transpose(rootNote + "4", ivs[i]) != ""
    ensures var w := transpose(rootNote + "4", ivs[i]);
      [correctNote] + WrongNames(rootNote, transpose, ivs[..i + 1]) ==
      [correctNote] + WrongNames(rootNote, transpose, ivs[..i]) + [OrElse(PitchClass(w), w)]
  {
    WrongNamesStep(rootNote, transpose, ivs, i);
  }

  /** The options `generateOptions` returns, as a value. */
  function ConstructionOptions(correctNote: string, rootNote: string, transpose: Transpose,
                               rnd1: Random, rnd2: Random): seq<string>
  {
    var wrong := WrongIntervals(BasicIntervals, correctNote, rootNote, transpose);
    var shuffled := Shuffled(wrong, rnd1);
    Shuffled([correctNote] + WrongNames(rootNote, transpose, Take(shuffled, 5)), rnd2)
  }

  /** Every interval left after the filter, in whatever order, transposes the root successfully. */
  lemma ShuffledWrongSucceed(correctNote: string, rootNote: string, transpose: Transpose, rnd: Random, s: seq<string>)
    requires s == Shuffled(WrongIntervals(BasicIntervals, correctNote, rootNote, transpose), rnd)
    ensures forall k | 0 <= k < |s| :: transpose(rootNote + "4", s[k]) != ""
  {
    ShuffledMembers(WrongIntervals(BasicIntervals, correctNote, rootNote, transpose), rnd);
    forall k | 0 <= k < |s| ensures transpose(rootNote + "4", s[k]) != "" {
      assert s[k] in s;
    }
  }

  /**
   * `generateOptions(correctNote, rootNote)`: up to five wrong intervals, each turned into
   * the pitch class it reaches, after the correct note; then shuffled.
   */
  method GenerateOptions(correctNote: string, rootNote: string, transpose: Transpose, rnd1: Random, rnd2: Random)
    returns (options: seq<string>)
    ensures options == ConstructionOptions(correctNote, rootNote, transpose, rnd1, rnd2)
  {
    options := [correctNote];
    var wrongIntervals := WrongIntervals(BasicIntervals, correctNote, rootNote, transpose);
    var shuffled := Shuffle(wrongIntervals, rnd1);
    ShuffledWrongSucceed(correctNote, rootNote, transpose, rnd1, shuffled);
    var i := 0;
    while i < 5 && i < |shuffled|
      invariant 0 <= i <= 5 && i <= |shuffled|
      invariant options == [correctNote] + WrongNames(rootNote, transpose, shuffled[..i])
    {
      var wrongNote := transpose(rootNote + "4", shuffled[i]);
      if wrongNote != "" {
        options := options + [OrElse(PitchClass(wrongNote), wrongNote)];
      }
      WrongNamesPush(correctNote, rootNote, transpose, shuffled, i);
      i := i + 1;
    }
    assert shuffled[..i] == Take(shuffled, 5);
    options := Shuffle(options, rnd2);
  }

  /**
   * No wrong option can be the correct note: a wrong name is a pitch class other than the
   * correct note's, or an unreadable name whose pitch class ("") differs from it.
   */
  lemma WrongNameDiffers(w: string, correctNote: string)
    requires w != "" && PitchClass(w) != PitchClass(correctNote)
    ensures OrElse(PitchClass(w), w) != correctNote
  {
    if PitchClass(w) != "" {
      PitchClassFacts(w);
    }
  }

  /** At most six options, the correct note exactly once. */
  lemma ConstructionOptionsFacts(correctNote: string, rootNote: string, transpose: Transpose, rnd1: Random, rnd2: Random)
    ensures var wrong := WrongIntervals(BasicIntervals, correctNote, rootNote, transpose);
      |ConstructionOptions(correctNote, rootNote, transpose, rnd1, rnd2)| ==
        1 + (if |wrong| < 5 then |wrong| else 5)
    ensures |ConstructionOptions(correctNote, rootNote, transpose, rnd1, rnd2)| <= 6
    ensures multiset(ConstructionOptions(correctNote, rootNote, transpose, rnd1, rnd2))[correctNote] == 1
  {
    var wrong := WrongIntervals(BasicIntervals, correctNote, rootNote, transpose);
    var shuffled := Shuffled(wrong, rnd1);
    ShuffledIsPermutation(wrong, rnd1);
    ShuffledMembers(wrong, rnd1);
    var taken := Take(shuffled, 5);
    var names := WrongNames(rootNote, transpose, taken);
    forall k | 0 <= k < |names| ensures names[k] != correctNote {
      assert taken[k] in shuffled;
      WrongNameDiffers(transpose(rootNote + "4", taken[k]), correctNote);
    }
    assert correctNote !in names;
    var assembled := [correctNote] + names;
    assert multiset(assembled) == multiset([correctNote]) + multiset(names);
    ShuffledIsPermutation(assembled, rnd2);
  }

  /**
   * `generateUpwardQuestion`: the root in octave 4 (treble) or 3 (bass); the answer is the
   * pitch class of its transposition. Where the source retries after a failed
   * transposition, the model answers None.
   */
  method GenerateUpwardQuestion(clefCoin: bool, rootDraw: nat, intervalDraw: nat, transpose: Transpose,
                                rnd1: Random, rnd2: Random)
    returns (r: Option<ExerciseQuestion>)
    ensures var root := Notes[RandomIndex(rootDraw, 7)];
      var octave := if clefCoin then 4 else 3;
      var target := transpose(root + IntToString(octave), BasicIntervals[RandomIndex(intervalDraw, 11)]);
      (r.None? <==> target == "") &&
      (r.Some? ==>
        var q := r.value;
        q.clef == (if clefCoin then Treble else Bass) && q.keySignature == "C" &&
        q.displayNotes == [root + IntToString(octave)] &&
        PitchClass(q.displayNotes[0]) == root && Octave(q.displayNotes[0]) == Some(octave) &&
        q.correctAnswer == OrElse(PitchClass(target), target) &&
        q.options == ConstructionOptions(q.correctAnswer, root, transpose, rnd1, rnd2))
  {
    var clef := if clefCoin then Treble else Bass;
    var octave := if clef == Treble then 4 else 3;
    var rootNote := Notes[RandomIndex(rootDraw, |Notes|)];
    var interval := BasicIntervals[RandomIndex(intervalDraw, |BasicIntervals|)];
    var rootWithOctave := rootNote + IntToString(octave);
    var targetNote := transpose(rootWithOctave, interval);
    if targetNote == "" {
      return None;
    }
    NotesFacts();
    assert rootNote == Show(Note(rootNote[0], 0, None));
    DisplayedNote(Note(rootNote[0], 0, None), octave);
    var targetPitchClass := OrElse(PitchClass(targetNote), targetNote);
    var options := GenerateOptions(targetPitchClass, rootNote, transpose, rnd1, rnd2);
    r := Some(ExerciseQuestion(clef, "C", [rootWithOctave], targetPitchClass, options));
  }

  /** The `semitones` record of `generateDownwardQuestion`, with `|| 0` for names it lacks. */
  function Semitones(interval: string): (st: nat)
    ensures st <= 12
  {
    match interval
    case "m2" => 1
    case "M2" => 2
    case "m3" => 3
    case "M3" => 4
    case "P4" => 5
    case "A4" => 6
    case "d5" => 6
    case "P5" => 7
    case "m6" => 8
    case "M6" => 9
    case "m7" => 10
    case "M7" => 11
    case "P8" => 12
    case _ => 0
  }

  /**
   * The basic intervals span 1 to 12 semitones in increasing order, skipping only the
   * tritone (6), which none of them names: every drawn interval moves the target.
   */
  lemma SemitonesOfBasic(k: nat)
    requires k < |BasicIntervals|
    ensures Semitones(BasicIntervals[k]) == if k < 5 then k + 1 else k + 2
  {
    if k == 0 { assert BasicIntervals[k] == "m2"; }
    else if k == 1 { assert BasicIntervals[k] == "M2"; }
    else if k == 2 { assert BasicIntervals[k] == "m3"; }
    else if k == 3 { assert BasicIntervals[k] == "M3"; }
    else if k == 4 { assert BasicIntervals[k] == "P4"; }
    else if k == 5 { assert BasicIntervals[k] == "P5"; }
    else if k == 6 { assert BasicIntervals[k] == "m6"; }
    else if k == 7 { assert BasicIntervals[k] == "M6"; }
    else if k == 8 { assert BasicIntervals[k] == "m7"; }
    else if k == 9 { assert BasicIntervals[k] == "M7"; }
    else { assert BasicIntervals[k] == "P8"; }
  }

  /** The two names of the tritone share a count, and a name outside the table counts 0. */
  lemma SemitonesTritoneAndUnknown()
    ensures Semitones("A4") == 6 && Semitones("d5") == 6 && Semitones("P4") + 1 == Semitones("A4")
    ensures Semitones("A5") == 0
  {
  }

  /**
   * `generateDownwardQuestion`: the root in octave 5 (treble) or 3 (bass); the target is
   * the root's MIDI number minus the interval's semitones, spelled by `Note.fromMidi`, and
   * the answer is its pitch class. The source's retries never happen: the root always has
   * a MIDI number (48 or more, so `!rootMidi` is false), and `fromMidi` always spells.
   */
  method GenerateDownwardQuestion(clefCoin: bool, rootDraw: nat, intervalDraw: nat, transpose: Transpose,
                                  rnd1: Random, rnd2: Random)
    returns (q: ExerciseQuestion)
    ensures var root := Notes[RandomIndex(rootDraw, 7)];
      var octave := if clefCoin then 5 else 3;
      q.clef == (if clefCoin then Treble else Bass) && q.keySignature == "C" &&
      q.displayNotes == [root + IntToString(octave)] &&
      q.options == ConstructionOptions(q.correctAnswer, root, transpose, rnd1, rnd2)
    ensures Midi(q.displayNotes[0]).Some?
    ensures q.correctAnswer ==
      PitchClass(FromMidi(TargetMidi(Midi(q.displayNotes[0]).value, BasicIntervals[RandomIndex(intervalDraw, 11)])))
  {
    var clef := if clefCoin then Treble else Bass;
    var octave := if clef == Treble then 5 else 3;
    var rootNote := Notes[RandomIndex(rootDraw, |Notes|)];
    assert |BasicIntervals| == 11;
    var interval := BasicIntervals[RandomIndex(intervalDraw, 11)];
    var rootWithOctave := rootNote + IntToString(octave);
    var st := Semitones(interval);
    NotesFacts();
    RootMidi(rootNote, octave);
    var rootMidi := Midi(rootWithOctave).value;
    var targetMidi := TargetMidi(rootMidi, interval);
    var targetNoteResult := FromMidi(targetMidi);
    DownwardAnswer(targetMidi);
    var targetPitchClass := OrElse(PitchClass(targetNoteResult), targetNoteResult);
    assert targetPitchClass == PitchClass(FromMidi(targetMidi));
    var options := GenerateOptions(targetPitchClass, rootNote, transpose, rnd1, rnd2);
    q := ExerciseQuestion(clef, "C", [rootWithOctave], targetPitchClass, options);
  }

  /** The MIDI number of the note `interval` below the root: `rootMidi - semitones`. */
  function TargetMidi(rootMidi: int, interval: string): int
  {
    rootMidi - Semitones(interval)
  }

  /** The pitch class of the note `fromMidi` spells for m: a readable name of chroma m mod 12. */
  lemma DownwardAnswer(m: int)
    ensures PitchClass(FromMidi(m)) != ""
    ensures Chroma(PitchClass(FromMidi(m))) == Some(m % 12)
    ensures Octave(PitchClass(FromMidi(m))).None?
  {
    ParseFromMidi(m);
    PitchClassFacts(FromMidi(m));
  }

  /** A natural root in octaves 3 to 5 has a MIDI number of at least 48. */
  lemma RootMidi(rootNote: string, octave: int)
    requires rootNote in Notes && 3 <= octave <= 5
    ensures IsLetter(rootNote[0])
    ensures Midi(rootNote + IntToString(octave)) == Some(LetterSemitones(rootNote[0]) + 12 * (octave + 1))
    ensures Midi(rootNote + IntToString(octave)).value >= 48
  {
    NotesFacts();
    var b := Note(rootNote[0], 0, None);
    assert rootNote == Show(b);
    assert rootNote + IntToString(octave) == Show(b.(octave := Some(octave)));
    InOctaveMidi(b, LetterSemitones(rootNote[0]), octave);
  }
}
