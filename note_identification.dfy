/**
 * The note-identification exercise (src/exercises/staff-reading/note-identification.ts):
 * a natural note in an octave of the clef's range; the answer is its letter among four.
 */
module NoteIdentification {
  import opened Wrappers
  import opened Text
  import opened Seqs
  import opened Pitch
  import opened MusicHelpers
  import opened Lessons
  import opened Options
  import opened Exercises

  const OctavesTreble: seq<int> := [4, 5]
  const OctavesBass: seq<int> := [2, 3]

  /** `generateOptions(correctNote)`: the letter and three other shuffled letters, shuffled. */
  method GenerateOptions(correctNote: string, rnd1: Random, rnd2: Random) returns (options: seq<string>)
    ensures options == PickOptions(correctNote, Notes, 3, rnd1, rnd2)
  {
    options := Options.GenerateOptions(correctNote, Notes, 3, rnd1, rnd2);
  }

  /**
   * `generateQuestion(clef)`: the octave is drawn from the clef's pair, the letter from the
   * seven; the staff shows letter and octave, the answer is the bare letter.
   */
  method GenerateQuestion(clef: Clef, octaveDraw: nat, noteDraw: nat, rnd1: Random, rnd2: Random)
    returns (q: ExerciseQuestion)
    ensures q.clef == clef && q.keySignature == "C"
    ensures q.correctAnswer in Notes && |q.displayNotes| == 1
    ensures PitchClass(q.displayNotes[0]) == q.correctAnswer
    ensures Octave(q.displayNotes[0]).Some? &&
      Octave(q.displayNotes[0]).value in (if clef == Treble then [4, 5] else [2, 3])
    ensures q.options == PickOptions(q.correctAnswer, Notes, 3, rnd1, rnd2)
  {
    var octaves := if clef == Treble then OctavesTreble else OctavesBass;
    var octave := octaves[RandomIndex(octaveDraw, |octaves|)];
    var noteName := Notes[RandomIndex(noteDraw, |Notes|)];
    var fullNote := noteName + IntToString(octave);
    NotesFacts();
    assert noteName == Show(Note(noteName[0], 0, None));
    DisplayedNote(Note(noteName[0], 0, None), octave);
    var options := GenerateOptions(noteName, rnd1, rnd2);
    q := ExerciseQuestion(clef, "C", [fullNote], noteName, options);
  }

}
