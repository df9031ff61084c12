/**
 * The degree-identification exercise (src/exercises/scales/degree-identification.ts): a
 * note is shown in the key signature of a major key and the player names its scale
 * degree, 1 to 7, or says that it is not in the scale.
 *
 * `Scale.get(name).notes` is the parameter `scale`; a read past the end of a JavaScript
 * array gives `undefined`, which a template string prints as "undefined".
 */
module DegreeIdentification {
  import opened Wrappers
  import opened Text
  import opened Seqs
  import opened Pitch
  import opened MusicHelpers
  import opened Options
  import opened Lessons
  import opened Exercises
  import opened ScaleIdentification

  const MajorKeys: seq<string> := ["C", "G", "D", "F", "Bb", "A", "Eb"]

  const ChromaticNotes: seq<string> := ["C", "C#", "D", "D#", "E", "F", "F#", "G", "G#", "A", "A#", "B"]

  const NonDiatonicLabel: string := "Non-diatonic"

  /** `arr[i]`, printed: the entry, or "undefined" past the end. */
  function EntryOrUndefined(s: seq<string>, i: nat): string {
    if i < |s| then s[i] else "undefined"
  }

  /** `scale.notes.some(sn => Note.chroma(sn) === Note.chroma(n))`; no chroma equals nothing. */
  predicate InScale(n: string, scaleNotes: seq<string>) {
    Chroma(n).Some? && exists k | 0 <= k < |scaleNotes| :: Chroma(scaleNotes[k]) == Chroma(n)
  }

  /** `names.filter(n => !InScale(n))`. */
  function NonDiatonic(names: seq<string>, scaleNotes: seq<string>): (r: seq<string>)
    ensures forall x :: x in r <==> x in names && !InScale(x, scaleNotes)
    ensures |r| <= |names|
  {
    if names == [] then []
    else
      var rest := NonDiatonic(names[1..], scaleNotes);
      assert forall x :: x in names <==> x == names[0] || x in names[1..];
      if InScale(names[0], scaleNotes) then rest else [names[0]] + rest
  }

  /** The chromas the scale's notes sound. */
  function Covered(scaleNotes: seq<string>): (r: set<int>)
    ensures |r| <= |scaleNotes|
  {
    if scaleNotes == [] then {}
    else
      var front := Covered(scaleNotes[..|scaleNotes| - 1]);
      var c := Chroma(scaleNotes[|scaleNotes| - 1]);
      if c.Some? then front + {c.value} else front
  }

  /** A longer scale sounds a chroma when its front or its last note does. */
  lemma InScaleSnoc(n: string, front: seq<string>, last: string)
    requires Chroma(n).Some?
    ensures InScale(n, front + [last]) <==> InScale(n, front) || Chroma(last) == Chroma(n)
  {
    var s := front + [last];
    if InScale(n, front) {
      var k :| 0 <= k < |front| && Chroma(front[k]) == Chroma(n);
      assert s[k] == front[k];
    }
    if Chroma(last) == Chroma(n) {
      assert s[|front|] == last;
    }
    if InScale(n, s) {
      var k :| 0 <= k < |s| && Chroma(s[k]) == Chroma(n);
      if k < |front| {
        assert front[k] == s[k];
      }
    }
  }

  /** A name with a chroma is in the scale exactly when the scale covers its chroma. */
  lemma {:induction false} CoveredIffInScale(n: string, scaleNotes: seq<string>)
    requires Chroma(n).Some?
    ensures InScale(n, scaleNotes) <==> Chroma(n).value in Covered(scaleNotes)
  {
    if scaleNotes != [] {
      var m := |scaleNotes| - 1;
      InScaleSnoc(n, scaleNotes[..m], scaleNotes[m]);
      assert scaleNotes == scaleNotes[..m] + [scaleNotes[m]];
      CoveredIffInScale(n, scaleNotes[..m]);
    }
  }

  /** Names each with a chroma, no two with the same. */
  predicate ChromasTold(names: seq<string>) {
    (forall i | 0 <= i < |names| :: Chroma(names[i]).Some?) &&
    forall i, j | 0 <= i < j < |names| :: Chroma(names[i]) != Chroma(names[j])
  }

  /** The names whose chroma is outside `covered`. */
  function Kept(names: seq<string>, covered: set<int>): seq<string>
    requires forall i | 0 <= i < |names| :: Chroma(names[i]).Some?
  {
    if names == [] then []
    else
      var rest := Kept(names[1..], covered);
      if Chroma(names[0]).value in covered then rest else [names[0]] + rest
  }

  lemma {:induction false} NonDiatonicIsKept(names: seq<string>, scaleNotes: seq<string>)
    requires forall i | 0 <= i < |names| :: Chroma(names[i]).Some?
    ensures NonDiatonic(names, scaleNotes) == Kept(names, Covered(scaleNotes))
  {
    if names != [] {
      CoveredIffInScale(names[0], scaleNotes);
      NonDiatonicIsKept(names[1..], scaleNotes);
    }
  }

  /** A chroma no name has can be dropped from `covered` without changing what is kept. */
  lemma {:induction false} KeptIgnoresUnused(names: seq<string>, covered: set<int>, c: int)
    requires forall i | 0 <= i < |names| :: Chroma(names[i]).Some? && Chroma(names[i]).value != c
    ensures Kept(names, covered) == Kept(names, covered - {c})
  {
    if names != [] {
      KeptIgnoresUnused(names[1..], covered, c);
    }
  }

  /** Each covered chroma removes at most one name when the names' chromas differ. */
  lemma {:induction false} KeptCount(names: seq<string>, covered: set<int>)
    requires ChromasTold(names)
    ensures |Kept(names, covered)| >= |names| - |covered|
  {
    if names != [] {
      var rest := names[1..];
      var c := Chroma(names[0]).value;
      assert ChromasTold(rest) by {
        forall i, j | 0 <= i < j < |rest| ensures Chroma(rest[i]) != Chroma(rest[j]) {
          assert rest[i] == names[i + 1] && rest[j] == names[j + 1];
        }
      }
      if c in covered {
        forall i | 0 <= i < |rest| ensures Chroma(rest[i]).Some? && Chroma(rest[i]).value != c {
          assert rest[i] == names[i + 1];
        }
        KeptIgnoresUnused(rest, covered, c);
        KeptCount(rest, covered - {c});
      } else {
        KeptCount(rest, covered);
      }
    }
  }

  /** A letter alone, or a letter and one sharp, reads as the letter's chroma raised by the sharps. */
  lemma NameChroma(name: string)
    requires 1 <= |name| <= 2 && IsLetter(name[0]) && (|name| == 2 ==> name[1] == '#')
    ensures Parse(name).Some? && Octave(name).None?
    ensures Chroma(name) == Some((LetterSemitones(name[0]) + |name| - 1) % 12)
  {
    var n := NameIsShown(name);
    ShowFacts(n);
  }

  /** Such a name is the text of the note of its letter and sharps, with no octave. */
  lemma NameIsShown(name: string) returns (n: Note)
    requires 1 <= |name| <= 2 && IsLetter(name[0]) && (|name| == 2 ==> name[1] == '#')
    ensures n == Note(name[0], |name| - 1, None) && WellFormed(n) && Show(n) == name
  {
    n := Note(name[0], |name| - 1, None);
    if |name| == 2 {
      assert AccidentalText(1) == "#";
      assert Show(n) == [name[0]] + "#" + "";
    } else {
      assert Show(n) == [name[0]] + "" + "";
    }
  }

  /** The twelve chromatic names sound the chromas 0 to 11 in order. */
  lemma ChromaticChromas()
    ensures |ChromaticNotes| == 12
    ensures forall i | 0 <= i < 12 :: Parse(ChromaticNotes[i]).Some? && Octave(ChromaticNotes[i]).None?
    ensures forall i | 0 <= i < 12 :: Chroma(ChromaticNotes[i]) == Some(i)
  {
    forall i | 0 <= i < 12
      ensures Parse(ChromaticNotes[i]).Some? && Octave(ChromaticNotes[i]).None?
      ensures Chroma(ChromaticNotes[i]) == Some(i)
    {
      NameChroma(ChromaticNotes[i]);
    }
  }

  /**
   * The non-diatonic candidates are the chromatic names whose chroma the scale does not
   * sound, and a scale of k notes leaves at least 12 − k of them: a seven-note scale
   * leaves five, so the pick always finds one.
   */
  lemma NonDiatonicCount(scaleNotes: seq<string>)
    ensures |NonDiatonic(ChromaticNotes, scaleNotes)| >= 12 - |scaleNotes|
  {
    ChromaticChromas();
    assert ChromasTold(ChromaticNotes);
    NonDiatonicIsKept(ChromaticNotes, scaleNotes);
    KeptCount(ChromaticNotes, Covered(scaleNotes));
  }

  /** A candidate is never a scale note: no scale note sounds its chroma. */
  lemma NonDiatonicAvoidsScale(scaleNotes: seq<string>, i: nat, k: nat)
    requires i < |NonDiatonic(ChromaticNotes, scaleNotes)| && k < |scaleNotes|
    ensures Chroma(scaleNotes[k]) != Chroma(NonDiatonic(ChromaticNotes, scaleNotes)[i])
  {
    var candidates := NonDiatonic(ChromaticNotes, scaleNotes);
    assert candidates[i] in candidates;
    ChromaticChromas();
    var j :| 0 <= j < 12 && ChromaticNotes[j] == candidates[i];
    assert Chroma(candidates[i]).Some?;
  }

  /** The labels the options come from: "1" to "7" and "Non-diatonic". */
  function Pool(): seq<string> {
    seq(7, i requires 0 <= i < 7 => IntToString(i + 1)) + [NonDiatonicLabel]
  }

  /** The eight labels differ, and every answer the exercise can give is one of them. */
  lemma PoolFacts(degreeIndex: nat)
    requires degreeIndex < 7
    ensures |Pool()| == 8 && Distinct(Pool())
    ensures IntToString(degreeIndex + 1) in Pool() && NonDiatonicLabel in Pool()
  {
    var p := Pool();
    forall i, j | 0 <= i < j < 8 ensures p[i] != p[j] {
      if j < 7 {
        ParseIntToString(i + 1);
        ParseIntToString(j + 1);
      } else {
        assert AllDigits(p[i]) && !IsDigit(p[j][0]);
      }
    }
    assert p[degreeIndex] == IntToString(degreeIndex + 1);
    assert p[7] == NonDiatonicLabel;
  }

  /** The options loop: `"1"` to `"7"` pushed in order, then `"Non-diatonic"`. */
  method BuildPool() returns (options: seq<string>)
    ensures options == Pool()
  {
    options := [];
    for i := 1 to 8
      invariant options == seq(i - 1, k requires 0 <= k < i - 1 => IntToString(k + 1))
    {
      options := options + [IntToString(i)];
    }
    options := options + [NonDiatonicLabel];
  }

  /** `shuffle(options).slice(0, 6)`. */
  function DegreeOptions(rnd: Random): seq<string> {
    Take(Shuffled(Pool(), rnd), 6)
  }

  /** Six different labels of the pool. */
  lemma DegreeOptionsFacts(rnd: Random)
    ensures |DegreeOptions(rnd)| == 6 && Distinct(DegreeOptions(rnd))
    ensures forall x | x in DegreeOptions(rnd) :: x in Pool()
  {
    PoolFacts(0);
    var shuffled := Shuffled(Pool(), rnd);
    ShuffledIsPermutation(Pool(), rnd);
    ShuffledMembers(Pool(), rnd);
    DistinctPrefix(shuffled, 6);
  }

  /** The slice can drop the correct answer: with every draw 0, "1" is not offered. */
  lemma DegreeSliceCanDropCorrect()
    ensures IntToString(1) !in DegreeOptions(ZeroDraws())
  {
    PoolFacts(0);
    var shuffled := Shuffled(Pool(), ZeroDraws());
    ZeroShuffleEndsWithFirst(Pool());
    ShuffledMembers(Pool(), ZeroDraws());
    LastNotTaken(shuffled);
  }

  /** `MAJOR_KEYS[Math.floor(Math.random() * MAJOR_KEYS.length)]`. */
  function KeyOf(keyDraw: nat): (key: string)
    ensures key in MajorKeys
  {
    MajorKeys[RandomIndex(keyDraw, |MajorKeys|)]
  }

  /** `Math.floor(Math.random() * n)`, which is 0 for an empty list. */
  function DrawIndex(draw: nat, n: nat): (i: nat)
    ensures n > 0 ==> i < n
  {
    if n == 0 then 0 else RandomIndex(draw, n)
  }

  /** The note `generateQuestion` asks about, before the octave is appended. */
  function Target(scaleNotes: seq<string>, nonDiatonicCoin: bool, noteDraw: nat, degreeDraw: nat): string {
    if nonDiatonicCoin then
      var candidates := NonDiatonic(ChromaticNotes, scaleNotes);
      EntryOrUndefined(candidates, DrawIndex(noteDraw, |candidates|))
    else EntryOrUndefined(scaleNotes, RandomIndex(degreeDraw, 7))
  }

  /** `correctDegree.toString()`. */
  function DegreeAnswer(nonDiatonicCoin: bool, degreeDraw: nat): string {
    if nonDiatonicCoin then NonDiatonicLabel else IntToString(RandomIndex(degreeDraw, 7) + 1)
  }

  /**
   * `generateQuestion()`: a major key by `keyDraw`; with the non-diatonic coin a chromatic
   * name the scale does not sound and the answer "Non-diatonic", else the scale note of
   * the degree drawn and its number; the note shown at octave 4 in that key's signature.
   */
  method GenerateQuestion(keyDraw: nat, nonDiatonicCoin: bool, noteDraw: nat, degreeDraw: nat, scale: ScaleGet, rnd: Random)
    returns (q: ExerciseQuestion)
    ensures q.clef == Treble && q.keySignature == KeyOf(keyDraw)
    ensures q.displayNotes == [Target(scale(ScaleName(KeyOf(keyDraw), MajorScale)), nonDiatonicCoin, noteDraw, degreeDraw) + "4"]
    ensures q.correctAnswer == DegreeAnswer(nonDiatonicCoin, degreeDraw)
    ensures q.options == DegreeOptions(rnd)
  {
    var key := MajorKeys[RandomIndex(keyDraw, |MajorKeys|)];
    var scaleNotes := scale(ScaleName(key, MajorScale));
    var targetNote: string;
    var correctAnswer: string;
    if nonDiatonicCoin {
      var nonDiatonicNotes := NonDiatonic(ChromaticNotes, scaleNotes);
      targetNote := EntryOrUndefined(nonDiatonicNotes, DrawIndex(noteDraw, |nonDiatonicNotes|));
      correctAnswer := NonDiatonicLabel;
    } else {
      var degreeIndex := RandomIndex(degreeDraw, 7);
      targetNote := EntryOrUndefined(scaleNotes, degreeIndex);
      correctAnswer := IntToString(degreeIndex + 1);
    }
    var displayNote := targetNote + "4";
    var options := BuildPool();
    var shuffled := Shuffle(options, rnd);
    q := ExerciseQuestion(Treble, key, [displayNote], correctAnswer, Take(shuffled, 6));
  }

  /**
   * In the diatonic case the answer is the degree number 1 to 7 and the note shown is the
   * scale note at that degree, at octave 4 with its own chroma when it is a pitch class.
   */
  lemma DiatonicTarget(scaleNotes: seq<string>, noteDraw: nat, degreeDraw: nat)
    requires |scaleNotes| == 7
    requires forall i | 0 <= i < 7 :: Parse(scaleNotes[i]).Some? && Octave(scaleNotes[i]).None?
    ensures var d := RandomIndex(degreeDraw, 7);
      var target := Target(scaleNotes, false, noteDraw, degreeDraw);
      DegreeAnswer(false, degreeDraw) == IntToString(d + 1) && 1 <= d + 1 <= 7 &&
      target == scaleNotes[d] &&
      Octave(target + IntToString(4)) == Some(4) && Chroma(target + IntToString(4)) == Chroma(target)
  {
    ChromaWithOctave(scaleNotes[RandomIndex(degreeDraw, 7)], 4);
  }

  /**
   * In the non-diatonic case, for a scale of seven notes, the note shown is a chromatic
   * name that no scale note sounds, at octave 4.
   */
  lemma NonDiatonicTarget(scaleNotes: seq<string>, noteDraw: nat, degreeDraw: nat)
    requires |scaleNotes| == 7
    ensures var target := Target(scaleNotes, true, noteDraw, degreeDraw);
      target in ChromaticNotes &&
      Octave(target + IntToString(4)) == Some(4) && Chroma(target + IntToString(4)) == Chroma(target) &&
      forall k | 0 <= k < 7 :: Chroma(scaleNotes[k]) != Chroma(target)
  {
    var candidates := NonDiatonic(ChromaticNotes, scaleNotes);
    NonDiatonicCount(scaleNotes);
    var i := DrawIndex(noteDraw, |candidates|);
    var target := candidates[i];
    assert target in candidates;
    ChromaticChromas();
    ChromaWithOctave(target, 4);
    forall k | 0 <= k < 7 ensures Chroma(scaleNotes[k]) != Chroma(target) {
      NonDiatonicAvoidsScale(scaleNotes, i, k);
    }
  }
}
