/**
 * The ledger-lines exercise (src/exercises/staff-reading/ledger-lines.ts): a note on ledger
 * lines above or below the staff of a random clef; the answer is its letter among four.
 */
module LedgerLines {
  import opened Wrappers
  import opened Text
  import opened Seqs
  import opened Pitch
  import opened MusicHelpers
  import opened Lessons
  import opened Options
  import opened Exercises

  const LedgerTrebleAbove: seq<string> := ["A5", "B5", "C6", "D6", "E6"]
  const LedgerTrebleBelow: seq<string> := ["C4", "B3", "A3", "G3"]
  const LedgerBassAbove: seq<string> := ["C4", "D4", "E4"]
  const LedgerBassBelow: seq<string> := ["E2", "D2", "C2", "B1", "A1"]

  /** `generateOptions(correctNote)`: the letter and three other shuffled letters, shuffled. */
  method GenerateOptions(correctNote: string, rnd1: Random, rnd2: Random) returns (options: seq<string>)
    ensures options == PickOptions(correctNote, Notes, 3, rnd1, rnd2)
  {
    options := Options.GenerateOptions(correctNote, Notes, 3, rnd1, rnd2);
  }

  /** Every ledger note is a natural letter followed by one octave digit. */
  predicate LetterAndDigit(table: seq<string>) {
    forall i | 0 <= i < |table| :: |table[i]| == 2 && IsLetter(table[i][0]) && IsDigit(table[i][1])
  }

  lemma LedgerTablesFacts()
    ensures LetterAndDigit(LedgerTrebleAbove) && LetterAndDigit(LedgerTrebleBelow)
    ensures LetterAndDigit(LedgerBassAbove) && LetterAndDigit(LedgerBassBelow)
  {
  }

  /**
   * `generateQuestion`: a coin picks the clef, a second coin the table above or below that
   * clef's staff, a draw the note; the answer is the note's first character.
   */
  method GenerateQuestion(clefCoin: bool, aboveCoin: bool, noteDraw: nat, rnd1: Random, rnd2: Random)
    returns (q: ExerciseQuestion)
    ensures q.clef == (if clefCoin then Treble else Bass) && q.keySignature == "C"
    ensures |q.displayNotes| == 1
    ensures q.displayNotes[0] in
      (if clefCoin then (if aboveCoin then LedgerTrebleAbove else LedgerTrebleBelow)
       else (if aboveCoin then LedgerBassAbove else LedgerBassBelow))
    ensures q.correctAnswer == q.displayNotes[0][..1] && q.correctAnswer in Notes
    ensures q.options == PickOptions(q.correctAnswer, Notes, 3, rnd1, rnd2)
  {
    var clef := if clefCoin then Treble else Bass;
    var ledgerNotes;
    if clef == Treble {
      ledgerNotes := if aboveCoin then LedgerTrebleAbove else LedgerTrebleBelow;
    } else {
      ledgerNotes := if aboveCoin then LedgerBassAbove else LedgerBassBelow;
    }
    var fullNote := ledgerNotes[RandomIndex(noteDraw, |ledgerNotes|)];
    LedgerTablesFacts();
    var noteName := fullNote[..1];
    assert noteName == [fullNote[0]];
    LetterInNotes(fullNote[0]);
    var options := GenerateOptions(noteName, rnd1, rnd2);
    q := ExerciseQuestion(clef, "C", [fullNote], noteName, options);
  }

  /** The answer letter names the drawn ledger note: same pitch class, octave as written. */
  lemma LedgerAnswerIsPitchClass(fullNote: string)
    requires |fullNote| == 2 && IsLetter(fullNote[0]) && IsDigit(fullNote[1])
    ensures PitchClass(fullNote) == fullNote[..1]
    ensures Octave(fullNote) == Some(DigitValue(fullNote[1]) as int)
  {
    var d := DigitValue(fullNote[1]);
    DigitPrintsAsItself(fullNote[1]);
    assert fullNote == Show(Note(fullNote[0], 0, None)) + IntToString(d);
    DisplayedNote(Note(fullNote[0], 0, None), d);
  }
}
