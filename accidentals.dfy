/**
 * The accidental-reading exercise (src/exercises/staff-reading/accidentals.ts): a letter
 * with a sharp or a flat in an octave of the clef's range; the answer is the name with its
 * accidental, among six names drawn from the 21 plain, sharp and flat letters.
 */
module Accidentals {
  import opened Wrappers
  import opened Text
  import opened Seqs
  import opened Pitch
  import opened MusicHelpers
  import opened Lessons
  import opened Options
  import opened Exercises

  const AccidentalSigns: seq<string> := ["#", "b"]
  const OctavesTreble: seq<int> := [4, 5]
  const OctavesBass: seq<int> := [2, 3]

  /** What the `forEach` pushes for one letter: plain, sharp, flat. */
  function Spellings(note: string): seq<string> {
    [note, note + "#", note + "b"]
  }

  /** The candidate pool for a list of letters, letter after letter. */
  function PoolOf(notes: seq<string>): (r: seq<string>)
    ensures |r| == 3 * |notes|
  {
    if |notes| == 0 then []
    else PoolOf(notes[..|notes| - 1]) + Spellings(notes[|notes| - 1])
  }

  /** The `forEach` loop of `generateOptions` that fills `allPossibleNotes`. */
  method AllPossibleNotes() returns (pool: seq<string>)
    ensures pool == PoolOf(Notes)
  {
    pool := [];
    var i := 0;
    while i < |Notes|
      invariant 0 <= i <= |Notes|
      invariant pool == PoolOf(Notes[..i])
    {
      var note := Notes[i];
      pool := pool + [note];
      pool := pool + [note + "#"];
      pool := pool + [note + "b"];
      assert Notes[..i + 1][..i] == Notes[..i];
      i := i + 1;
    }
    assert Notes[..i] == Notes;
  }

  /** One-letter names, pairwise different. */
  predicate OneLetterNames(notes: seq<string>) {
    Distinct(notes) && forall i | 0 <= i < |notes| :: |notes[i]| == 1
  }

  /**
   * The pool of different one-letter names has no duplicates: names of different letters
   * start differently, and a letter's three spellings differ in length or last sign.
   */
  lemma {:induction false} PoolDistinct(notes: seq<string>)
    requires OneLetterNames(notes)
    ensures Distinct(PoolOf(notes))
    ensures forall x | x in PoolOf(notes) :: |x| > 0 && x[..1] in notes
  {
    if |notes| > 0 {
      var front := notes[..|notes| - 1];
      var last := notes[|notes| - 1];
      assert OneLetterNames(front) by {
        DistinctPrefix(notes, |notes| - 1);
      }
      PoolDistinct(front);
      var pool := PoolOf(front);
      var s := Spellings(last);
      SpellingsFacts(last);
      assert last !in front by {
        forall k | 0 <= k < |front| ensures front[k] != last {
          assert front[k] == notes[k];
        }
      }
      forall i, j | 0 <= i < |pool| && 0 <= j < |s| ensures pool[i] != s[j] {
        assert pool[i] in pool;
        FirstLetterDiffers(front, last, pool[i], s[j]);
      }
      DistinctAppend(pool, s);
      forall x | x in PoolOf(notes) ensures |x| > 0 && x[..1] in notes {
        if x in pool {
          assert x[..1] in front;
        } else {
          assert x in s;
        }
      }
    }
  }

  /** A letter's three spellings differ, and each starts with the letter. */
  lemma SpellingsFacts(last: string)
    requires |last| == 1
    ensures Distinct(Spellings(last))
    ensures forall t | t in Spellings(last) :: |t| > 0 && t[..1] == last
  {
    var s := Spellings(last);
    assert last[..1] == last;
    assert (last + "#")[..1] == last && (last + "b")[..1] == last;
    assert |s[0]| == 1 && |s[1]| == 2 && |s[2]| == 2 && s[1][1] != s[2][1];
  }

  /** A name starting with a letter of the front differs from one starting with a later letter. */
  lemma FirstLetterDiffers(front: seq<string>, last: string, x: string, y: string)
    requires last !in front
    requires |x| > 0 && x[..1] in front
    requires |y| > 0 && y[..1] == last
    ensures x != y
  {
  }

  /** Each letter's three spellings are in the pool. */
  lemma {:induction false} PoolHas(notes: seq<string>, i: nat)
    requires i < |notes|
    ensures forall t | t in Spellings(notes[i]) :: t in PoolOf(notes)
  {
    var front := notes[..|notes| - 1];
    if i < |notes| - 1 {
      assert front[i] == notes[i];
      PoolHas(front, i);
    }
  }

  /** The pool of the seven letters: 21 different names. */
  lemma PoolFacts()
    ensures |PoolOf(Notes)| == 21 && Distinct(PoolOf(Notes))
  {
    NotesFacts();
    PoolDistinct(Notes);
  }

  /** `generateOptions(correctNote)`: the name and five other shuffled names, shuffled. */
  method GenerateOptions(correctNote: string, rnd1: Random, rnd2: Random) returns (options: seq<string>)
    ensures options == PickOptions(correctNote, PoolOf(Notes), 5, rnd1, rnd2)
  {
    var allPossibleNotes := AllPossibleNotes();
    options := Options.GenerateOptions(correctNote, allPossibleNotes, 5, rnd1, rnd2);
  }

  /** Six different names, the correct one once. */
  lemma AccidentalOptionsFacts(correct: string, rnd1: Random, rnd2: Random)
    requires correct in PoolOf(Notes)
    ensures |PickOptions(correct, PoolOf(Notes), 5, rnd1, rnd2)| == 6
    ensures Distinct(PickOptions(correct, PoolOf(Notes), 5, rnd1, rnd2))
    ensures multiset(PickOptions(correct, PoolOf(Notes), 5, rnd1, rnd2))[correct] == 1
  {
    PoolFacts();
    PickOptionsFacts(correct, PoolOf(Notes), 5, rnd1, rnd2);
  }

  /** A letter with a sign is a pool name of two characters, read back from the staff as itself. */
  lemma SignedName(k: nat, a: nat, octave: int)
    requires k < |Notes| && a < |AccidentalSigns|
    ensures var name := Notes[k] + AccidentalSigns[a];
      |name| == 2 && IsLetter(name[0]) && (name[1] == '#' || name[1] == 'b') &&
      name in PoolOf(Notes) &&
      PitchClass(name + IntToString(octave)) == name && Octave(name + IntToString(octave)) == Some(octave)
  {
    var name := Notes[k] + AccidentalSigns[a];
    NotesFacts();
    PoolHas(Notes, k);
    assert name in Spellings(Notes[k]);
    var alt := if a == 0 then 1 else -1;
    assert name == Show(Note(Notes[k][0], alt, None));
    DisplayedNote(Note(Notes[k][0], alt, None), octave);
  }

  /**
   * `generateQuestion`: a coin picks the clef, draws pick the octave, the letter and the
   * sign; the staff shows name and octave, the answer is the name with its sign.
   */
  method GenerateQuestion(clefCoin: bool, octaveDraw: nat, noteDraw: nat, signDraw: nat, rnd1: Random, rnd2: Random)
    returns (q: ExerciseQuestion)
    ensures q.clef == (if clefCoin then Treble else Bass) && q.keySignature == "C"
    ensures |q.correctAnswer| == 2 && IsLetter(q.correctAnswer[0])
    ensures q.correctAnswer[1] == '#' || q.correctAnswer[1] == 'b'
    ensures q.correctAnswer in PoolOf(Notes)
    ensures |q.displayNotes| == 1 && PitchClass(q.displayNotes[0]) == q.correctAnswer
    ensures Octave(q.displayNotes[0]).Some? &&
      Octave(q.displayNotes[0]).value in (if clefCoin then [4, 5] else [2, 3])
    ensures q.options == PickOptions(q.correctAnswer, PoolOf(Notes), 5, rnd1, rnd2)
  {
    var clef := if clefCoin then Treble else Bass;
    var octaves := if clef == Treble then OctavesTreble else OctavesBass;
    var octave := octaves[RandomIndex(octaveDraw, |octaves|)];
    var k := RandomIndex(noteDraw, |Notes|);
    var noteName := Notes[k];
    var accidental := AccidentalSigns[RandomIndex(signDraw, |AccidentalSigns|)];
    var noteWithAccidental := noteName + accidental;
    var fullNote := noteWithAccidental + IntToString(octave);
    SignedName(k, RandomIndex(signDraw, |AccidentalSigns|), octave);
    var options := GenerateOptions(noteWithAccidental, rnd1, rnd2);
    q := ExerciseQuestion(clef, "C", [fullNote], noteWithAccidental, options);
  }
}
