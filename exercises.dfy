/**
 * The multiple-choice question record of the exercises (src/exercises/types.ts), and facts
 * the staff-reading exercises share. Prompts, hints, difficulty and the time-stamped id are
 * texts or I/O and are not modelled.
 */
module Exercises {
  import opened Wrappers
  import opened Text
  import opened Seqs
  import opened Pitch
  import opened Lessons
  import opened MusicHelpers
  import opened Options

  datatype ExerciseQuestion = ExerciseQuestion(
    clef: Clef,
    keySignature: string,
    displayNotes: seq<string>,
    correctAnswer: string,
    options: seq<string>)

  /** The `NOTES` list each staff-reading exercise declares: the seven natural letters. */
  const Notes: seq<string> := ["C", "D", "E", "F", "G", "A", "B"]

  /** Names told apart by their first letter or by their length. */
  predicate NamesTold(ss: seq<string>) {
    forall i, j | 0 <= i < j < |ss| ::
      |ss[i]| > 0 && |ss[j]| > 0 && (ss[i][0] != ss[j][0] || |ss[i]| != |ss[j]|)
  }

  /** First letter and length packed in one number, for names shorter than four characters. */
  function NameCode(name: string): int
    requires |name| > 0
  {
    (name[0] as int) * 4 + |name|
  }

  /** Short names with pairwise different codes are told apart. */
  lemma CodesTell(ss: seq<string>, codes: seq<int>)
    requires |codes| == |ss|
    requires forall i | 0 <= i < |ss| :: 0 < |ss[i]| < 4 && NameCode(ss[i]) == codes[i]
    requires forall i, j | 0 <= i < j < |codes| :: codes[i] != codes[j]
    ensures NamesTold(ss)
  {
    forall i, j | 0 <= i < j < |ss| ensures ss[i][0] != ss[j][0] || |ss[i]| != |ss[j]| {
      assert codes[i] != codes[j];
    }
  }

  lemma NamesToldDistinct(ss: seq<string>)
    requires NamesTold(ss)
    ensures Distinct(ss)
  {
    forall i, j | 0 <= i < j < |ss| ensures ss[i] != ss[j] {
      assert ss[i][0] != ss[j][0] || |ss[i]| != |ss[j]|;
    }
  }

  /** The seven letters are seven different one-letter names of natural notes. */
  lemma NotesFacts()
    ensures |Notes| == 7 && Distinct(Notes)
    ensures forall i | 0 <= i < 7 :: |Notes[i]| == 1 && IsLetter(Notes[i][0])
  {
    assert NamesTold(Notes);
    NamesToldDistinct(Notes);
  }

  /** A natural letter is one of the listed names. */
  lemma LetterInNotes(c: char)
    requires IsLetter(c)
    ensures [c] in Notes
  {
    if c == 'C' { assert [c] == Notes[0]; }
    else if c == 'D' { assert [c] == Notes[1]; }
    else if c == 'E' { assert [c] == Notes[2]; }
    else if c == 'F' { assert [c] == Notes[3]; }
    else if c == 'G' { assert [c] == Notes[4]; }
    else if c == 'A' { assert [c] == Notes[5]; }
    else { assert [c] == Notes[6]; }
  }

  /**
   * A pitch-class name followed by an octave number reads back as that pitch class in
   * that octave: the note drawn on the staff is the answer, in the drawn octave.
   */
  lemma DisplayedNote(n: Note, o: int)
    requires WellFormed(n) && n.octave.None?
    ensures PitchClass(Show(n) + IntToString(o)) == Show(n)
    ensures Octave(Show(n) + IntToString(o)) == Some(o)
  {
    ParseShow(n);
    ParseWithOctave(Show(n), o);
    ChromaWithOctave(Show(n), o);
  }

  /**
   * The letter options of the note-identification and ledger-lines exercises: four
   * different letters, the correct one once, nothing but letters.
   */
  lemma LetterOptionsFacts(correct: string, rnd1: Random, rnd2: Random)
    requires correct in Notes
    ensures |PickOptions(correct, Notes, 3, rnd1, rnd2)| == 4
    ensures Distinct(PickOptions(correct, Notes, 3, rnd1, rnd2))
    ensures multiset(PickOptions(correct, Notes, 3, rnd1, rnd2))[correct] == 1
    ensures forall x | x in PickOptions(correct, Notes, 3, rnd1, rnd2) :: x in Notes
  {
    NotesFacts();
    PickOptionsFacts(correct, Notes, 3, rnd1, rnd2);
  }
}
