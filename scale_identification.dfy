/**
 * The scale-identification exercise (src/exercises/scales/scale-identification.ts): a
 * major or natural-minor scale is shown on the treble staff and the player names its
 * type, or in the advanced mode its tonic and type.
 *
 * `Scale.get(name).notes` of the tonal library is a parameter: the model does not know
 * which notes it returns, only how the exercise uses them.
 */
module ScaleIdentification {
  import opened Wrappers
  import opened Text
  import opened Seqs
  import opened Pitch
  import opened MusicHelpers
  import opened Options
  import opened Lessons
  import opened Exercises

  /** `Scale.get(name).notes`. */
  type ScaleGet = string -> seq<string>

  const MajorRoots: seq<string> := ["C", "G", "D", "F", "Bb", "A"]
  const MinorRoots: seq<string> := ["A", "E", "D", "G", "B"]

  /** The name `getScaleNotes` asks the library for. */
  function ScaleName(root: string, scaleType: ScaleType): string {
    if scaleType == MinorScale then root + " natural minor" else root + " major"
  }

  function TypeLabel(scaleType: ScaleType): string {
    if scaleType == MajorScale then "Major" else "Minor"
  }

  /** The correct answer: `"root Major"`/`"root Minor"` with the root, else the type alone. */
  function CorrectAnswer(root: string, scaleType: ScaleType, includeRoot: bool): string {
    if includeRoot then root + " " + TypeLabel(scaleType) else TypeLabel(scaleType)
  }

  /** `scaleNotes.map((note, i) => note + (i < 4 ? 4 : 5))`. */
  function DisplayNotes(scaleNotes: seq<string>): (r: seq<string>)
    ensures |r| == |scaleNotes|
    ensures forall i | 0 <= i < |r| :: r[i] == scaleNotes[i] + IntToString(if i < 4 then 4 else 5)
  {
    seq(|scaleNotes|, i requires 0 <= i < |scaleNotes| => scaleNotes[i] + IntToString(if i < 4 then 4 else 5))
  }

  /**
   * Scale notes given as pitch classes are drawn with the first four in octave 4 and the
   * rest in octave 5, each with its own chroma.
   */
  lemma DisplayOctaves(scaleNotes: seq<string>)
    requires forall i | 0 <= i < |scaleNotes| :: Parse(scaleNotes[i]).Some? && Octave(scaleNotes[i]).None?
    ensures forall i | 0 <= i < |scaleNotes| ::
      Octave(DisplayNotes(scaleNotes)[i]) == Some(if i < 4 then 4 else 5) &&
      Chroma(DisplayNotes(scaleNotes)[i]) == Chroma(scaleNotes[i])
  {
    forall i | 0 <= i < |scaleNotes|
      ensures Octave(DisplayNotes(scaleNotes)[i]) == Some(if i < 4 then 4 else 5)
      ensures Chroma(DisplayNotes(scaleNotes)[i]) == Chroma(scaleNotes[i])
    {
      ChromaWithOctave(scaleNotes[i], if i < 4 then 4 else 5);
    }
  }

  /** `roots.map(root => root + suffix)`. */
  function Labeled(roots: seq<string>, suffix: string): (r: seq<string>)
    ensures |r| == |roots| && forall i | 0 <= i < |roots| :: r[i] == roots[i] + suffix
  {
    seq(|roots|, i requires 0 <= i < |roots| => roots[i] + suffix)
  }

  /** The options after one `forEach`: each candidate pushed unless correct or present. */
  function Added<T(==)>(options: seq<T>, candidates: seq<T>, correct: T): seq<T> {
    if candidates == [] then options
    else
      var rest := Added(options, candidates[..|candidates| - 1], correct);
      var c := candidates[|candidates| - 1];
      if c != correct && c !in rest then rest + [c] else rest
  }

  /** The options `generateOptions` assembles before shuffling. */
  function Assembled(correctAnswer: string, includeRoot: bool): seq<string> {
    if includeRoot then
      Added(Added([correctAnswer], Labeled(MajorRoots, " Major"), correctAnswer),
            Labeled(MinorRoots, " Minor"), correctAnswer)
    else [correctAnswer, "Major", "Minor"]
  }

  /** `generateOptions`: `shuffle(options).slice(0, 6)`. */
  function ScaleOptions(correctAnswer: string, includeRoot: bool, rnd: Random): seq<string> {
    Take(Shuffled(Assembled(correctAnswer, includeRoot), rnd), 6)
  }

  /** One `forEach` pushing `root + suffix` for each root not yet present. */
  method PushLabels(options: seq<string>, roots: seq<string>, suffix: string, correctAnswer: string)
    returns (r: seq<string>)
    ensures r == Added(options, Labeled(roots, suffix), correctAnswer)
  {
    r := options;
    ghost var labels := Labeled(roots, suffix);
    for i := 0 to |roots|
      invariant r == Added(options, labels[..i], correctAnswer)
    {
      assert labels[..i + 1][..i] == labels[..i];
      var opt := roots[i] + suffix;
      if opt != correctAnswer && opt !in r {
        r := r + [opt];
      }
    }
    assert labels[..|roots|] == labels;
  }

  /** `generateOptions(correctAnswer, includeRoot)`. */
  method GenerateOptions(correctAnswer: string, includeRoot: bool, rnd: Random)
    returns (options: seq<string>)
    ensures options == ScaleOptions(correctAnswer, includeRoot, rnd)
  {
    options := [correctAnswer];
    if includeRoot {
      options := PushLabels(options, MajorRoots, " Major", correctAnswer);
      options := PushLabels(options, MinorRoots, " Minor", correctAnswer);
    } else {
      options := options + ["Major", "Minor"];
      assert options == [correctAnswer, "Major", "Minor"];
    }
    var shuffled := Shuffle(options, rnd);
    options := Take(shuffled, 6);
  }

  /** `s.filter(c => c !== x)` of a longer list: the filter of the front, then the last entry if kept. */
  lemma {:induction false} WithoutSnoc<T(!new)>(s: seq<T>, c: T, x: T)
    ensures Without(s + [c], x) == Without(s, x) + (if c == x then [] else [c])
  {
    if s == [] {
      assert [c][1..] == [];
    } else {
      assert (s + [c])[1..] == s[1..] + [c];
      WithoutSnoc(s[1..], c, x);
    }
  }

  /** One more candidate, new to the front and absent unless correct, keeps the pushed labels those of the filter. */
  lemma AddedSnoc<T(!new)>(options: seq<T>, front: seq<T>, c: T, correct: T)
    requires Added(options, front, correct) == options + Without(front, correct)
    requires c !in front && (c in options ==> c == correct)
    ensures Added(options, front + [c], correct) == options + Without(front + [c], correct)
  {
    AddedLast(options, front, c, correct);
    WithoutSnoc(front, c, correct);
    if c != correct {
      var kept := Without(front, correct);
      assert c !in kept;
      assert (options + kept) + [c] == options + (kept + [c]);
    }
  }

  /** The last candidate is pushed after the others, unless correct or already present. */
  lemma AddedLast<T>(options: seq<T>, front: seq<T>, c: T, correct: T)
    ensures var rest := Added(options, front, correct);
      Added(options, front + [c], correct) == if c != correct && c !in rest then rest + [c] else rest
  {
    assert (front + [c])[..|front|] == front;
  }

  /** The front of a duplicate-free list keeps the push condition and lacks the last entry. */
  lemma FrontFacts<T>(options: seq<T>, candidates: seq<T>, correct: T)
    requires |candidates| > 0 && Distinct(candidates)
    requires forall k | 0 <= k < |candidates| :: candidates[k] in options ==> candidates[k] == correct
    ensures var front := candidates[..|candidates| - 1];
      Distinct(front) &&
      (forall k | 0 <= k < |front| :: front[k] in options ==> front[k] == correct) &&
      candidates[|candidates| - 1] !in front
  {
    var n := |candidates| - 1;
    DistinctPrefix(candidates, n);
    forall k | 0 <= k < n ensures candidates[..n][k] != candidates[n] {
    }
  }

  /**
   * Pushing different candidates, none present except perhaps the correct answer, appends
   * exactly the candidates other than the correct answer, in order.
   */
  lemma {:induction false} AddedAppends<T(!new)>(options: seq<T>, candidates: seq<T>, correct: T)
    requires Distinct(candidates)
    requires forall k | 0 <= k < |candidates| :: candidates[k] in options ==> candidates[k] == correct
    ensures Added(options, candidates, correct) == options + Without(candidates, correct)
  {
    if candidates != [] {
      var n := |candidates| - 1;
      var front := candidates[..n];
      FrontFacts(options, candidates, correct);
      AddedAppends(options, front, correct);
      AddedSnoc(options, front, candidates[n], correct);
      assert candidates == front + [candidates[n]];
    }
  }

  /** `a + suffix == b + suffix` only for a == b. */
  lemma SuffixInjective(a: string, b: string, suffix: string)
    requires a + suffix == b + suffix
    ensures a == b
  {
    assert a == (a + suffix)[..|a|];
    assert b == (b + suffix)[..|b|];
  }

  /** Labels with suffixes of the same length and different text never coincide. */
  lemma SuffixesDiffer(a: string, b: string, s: string, t: string)
    requires |s| == |t| && s != t
    ensures a + s != b + t
  {
    assert (a + s)[|a|..] == s;
    assert (b + t)[|b|..] == t;
  }

  /** Different roots give different labels. */
  lemma LabeledDistinct(roots: seq<string>, suffix: string)
    requires Distinct(roots)
    ensures Distinct(Labeled(roots, suffix))
  {
    var l := Labeled(roots, suffix);
    forall i, j | 0 <= i < j < |l| ensures l[i] != l[j] {
      if l[i] == l[j] {
        SuffixInjective(roots[i], roots[j], suffix);
      }
    }
  }

  lemma RootsFacts()
    ensures Distinct(MajorRoots) && Distinct(MinorRoots)
  {
    assert NamesTold(MajorRoots);
    NamesToldDistinct(MajorRoots);
    assert NamesTold(MinorRoots);
    NamesToldDistinct(MinorRoots);
  }

  /** The eleven labels: six different major labels, five different minor labels, none shared. */
  lemma LabelsFacts()
    ensures Distinct(Labeled(MajorRoots, " Major")) && Distinct(Labeled(MinorRoots, " Minor"))
    ensures forall i, j | 0 <= i < |MinorRoots| && 0 <= j < |MajorRoots| ::
      Labeled(MinorRoots, " Minor")[i] != Labeled(MajorRoots, " Major")[j]
    ensures forall i | 0 <= i < |MinorRoots| :: Labeled(MinorRoots, " Minor")[i] !in Labeled(MajorRoots, " Major")
  {
    RootsFacts();
    LabeledDistinct(MajorRoots, " Major");
    LabeledDistinct(MinorRoots, " Minor");
    forall i, j | 0 <= i < |MinorRoots| && 0 <= j < |MajorRoots|
      ensures Labeled(MinorRoots, " Minor")[i] != Labeled(MajorRoots, " Major")[j]
    {
      SuffixesDiffer(MinorRoots[i], MajorRoots[j], " Minor", " Major");
    }
  }

  /**
   * Pushing two duplicate-free label lists with nothing in common after the correct answer
   * gives the correct answer followed by every other label once; when the correct answer is
   * itself a label, that is each label exactly once.
   */
  lemma AddedTwice<T(!new)>(correct: T, majors: seq<T>, minors: seq<T>)
    requires Distinct(majors) && Distinct(minors)
    requires forall i | 0 <= i < |minors| :: minors[i] !in majors
    ensures var r := Added(Added([correct], majors, correct), minors, correct);
      r == [correct] + Without(majors, correct) + Without(minors, correct) &&
      Distinct(r) && r[0] == correct &&
      |majors| + |minors| <= |r| <= |majors| + |minors| + 1 &&
      (correct in majors + minors ==> multiset(r) == multiset(majors + minors))
  {
    AddedAppends([correct], majors, correct);
    var first := [correct] + Without(majors, correct);
    forall k | 0 <= k < |minors| ensures minors[k] !in Without(majors, correct) {
      assert minors[k] !in majors;
    }
    AddedAppends(first, minors, correct);
    WithoutKeepsDistinct(majors, correct);
    WithoutKeepsDistinct(minors, correct);
    DistinctCons(correct, Without(majors, correct));
    var second := Without(minors, correct);
    forall i, j | 0 <= i < |first| && 0 <= j < |second| ensures first[i] != second[j] {
      assert second[j] in minors && second[j] != correct;
      var a :| 0 <= a < |minors| && minors[a] == second[j];
      assert second[j] !in Without(majors, correct);
      assert second[j] !in first;
    }
    DistinctAppend(first, second);
    WithoutCounts(majors, correct);
    WithoutCounts(minors, correct);
    if correct in majors {
      DistinctOccursOnce(majors, correct);
      assert correct !in minors;
      assert |second| == |minors|;
    } else if correct in minors {
      DistinctOccursOnce(minors, correct);
      assert |Without(majors, correct)| == |majors|;
    }
    if correct in majors + minors {
      PutBackOnce(correct, majors, minors);
    }
  }

  /** The correct answer, a label of exactly one of two disjoint lists, put back in front of both filters. */
  lemma PutBackOnce<T(!new)>(correct: T, majors: seq<T>, minors: seq<T>)
    requires Distinct(majors) && Distinct(minors)
    requires forall i | 0 <= i < |minors| :: minors[i] !in majors
    requires correct in majors + minors
    ensures multiset([correct] + Without(majors, correct) + Without(minors, correct)) == multiset(majors + minors)
  {
    WithoutCounts(majors, correct);
    WithoutCounts(minors, correct);
    if correct in majors {
      DistinctOccursOnce(majors, correct);
      assert correct !in minors;
      assert multiset(minors)[correct := 0] == multiset(minors);
      assert multiset{correct} + multiset(majors)[correct := 0] == multiset(majors);
    } else {
      assert correct in minors;
      DistinctOccursOnce(minors, correct);
      assert multiset(majors)[correct := 0] == multiset(majors);
      assert multiset{correct} + multiset(minors)[correct := 0] == multiset(minors);
    }
  }

  /**
   * With the root, the assembled options are the correct answer followed by the eleven
   * labels other than it: no duplicates, the correct answer first, 11 or 12 entries.
   */
  lemma AssembledWithRoot(correctAnswer: string)
    ensures var majors := Labeled(MajorRoots, " Major");
      var minors := Labeled(MinorRoots, " Minor");
      Assembled(correctAnswer, true) == [correctAnswer] + Without(majors, correctAnswer) + Without(minors, correctAnswer)
    ensures Distinct(Assembled(correctAnswer, true))
    ensures Assembled(correctAnswer, true)[0] == correctAnswer
    ensures 11 <= |Assembled(correctAnswer, true)| <= 12
    ensures correctAnswer in Labeled(MajorRoots, " Major") + Labeled(MinorRoots, " Minor") ==>
      multiset(Assembled(correctAnswer, true)) == multiset(Labeled(MajorRoots, " Major") + Labeled(MinorRoots, " Minor"))
  {
    LabelsFacts();
    AddedTwice(correctAnswer, Labeled(MajorRoots, " Major"), Labeled(MinorRoots, " Minor"));
  }

  /**
   * The returned options number at most six; with the root they have no duplicates and
   * nothing but the correct answer and the labels, and they hold the correct answer
   * exactly when the shuffle leaves it among the first six.
   */
  lemma ScaleOptionsFacts(correctAnswer: string, includeRoot: bool, rnd: Random)
    ensures |ScaleOptions(correctAnswer, includeRoot, rnd)| <= 6
    ensures includeRoot ==> Distinct(ScaleOptions(correctAnswer, includeRoot, rnd))
    ensures includeRoot ==> |ScaleOptions(correctAnswer, includeRoot, rnd)| == 6
    ensures forall x | x in ScaleOptions(correctAnswer, includeRoot, rnd) :: x in Assembled(correctAnswer, includeRoot)
    ensures var shuffled := Shuffled(Assembled(correctAnswer, includeRoot), rnd);
      correctAnswer in ScaleOptions(correctAnswer, includeRoot, rnd) <==>
      exists i | 0 <= i < 6 && i < |shuffled| :: shuffled[i] == correctAnswer
  {
    var assembled := Assembled(correctAnswer, includeRoot);
    var shuffled := Shuffled(assembled, rnd);
    ShuffledIsPermutation(assembled, rnd);
    ShuffledMembers(assembled, rnd);
    var r := Take(shuffled, 6);
    if includeRoot {
      AssembledWithRoot(correctAnswer);
      DistinctPrefix(shuffled, |r|);
    }
    forall x | x in r ensures x in assembled {
      assert x in shuffled;
    }
    if correctAnswer in r {
      var i :| 0 <= i < |r| && r[i] == correctAnswer;
      assert shuffled[i] == correctAnswer;
    }
  }

  /**
   * In plain mode the options are the correct label, "Major" and "Minor" in some order:
   * the correct label appears twice.
   */
  lemma PlainOptionsRepeatCorrect(scaleType: ScaleType, rnd: Random)
    ensures var correct := TypeLabel(scaleType);
      |ScaleOptions(correct, false, rnd)| == 3 &&
      multiset(ScaleOptions(correct, false, rnd))[correct] == 2
  {
    var correct := TypeLabel(scaleType);
    var assembled := Assembled(correct, false);
    ShuffledIsPermutation(assembled, rnd);
    assert multiset(assembled)[correct] == 2;
  }

  /** With every draw 0, each swap exchanges position i with 0. */
  function ZeroDraws(): Random {
    k => 0
  }

  /** With every draw 0, shuffling a list of two or more ends it with its first entry. */
  lemma ZeroShuffleEndsWithFirst(s: seq<string>)
    requires |s| >= 2
    ensures |Shuffled(s, ZeroDraws())| == |s|
    ensures Shuffled(s, ZeroDraws())[|s| - 1] == s[0]
  {
    var first := Swap(s, |s| - 1, RandomIndex(0, |s|));
    assert Shuffled(s, ZeroDraws()) == Rest(first, ZeroDraws(), 1);
    RestKeepsSettled(first, ZeroDraws(), 1, |s| - 1);
  }

  /** The last entry of a duplicate-free list longer than six is not among its first six. */
  lemma LastNotTaken(s: seq<string>)
    requires Distinct(s) && |s| > 6
    ensures s[|s| - 1] !in Take(s, 6)
  {
    forall i | 0 <= i < 6 ensures s[i] != s[|s| - 1] {
    }
  }

  /**
   * The final `slice(0, 6)` can drop the correct answer: with the root, for every correct
   * answer, the draws that are all 0 leave options without it.
   */
  lemma SliceCanDropCorrect(correctAnswer: string)
    ensures correctAnswer !in ScaleOptions(correctAnswer, true, ZeroDraws())
  {
    var assembled := Assembled(correctAnswer, true);
    AssembledWithRoot(correctAnswer);
    var shuffled := Shuffled(assembled, ZeroDraws());
    ZeroShuffleEndsWithFirst(assembled);
    ShuffledMembers(assembled, ZeroDraws());
    LastNotTaken(shuffled);
  }

  /**
   * `generateQuestion(includeRoot)`: the type by a coin, a root of that type's list, its
   * scale notes shown in octaves 4 and 5 on the treble staff, the key signature of the
   * scale, and the answer with or without the root.
   */
  method GenerateQuestion(includeRoot: bool, majorCoin: bool, rootDraw: nat, scale: ScaleGet, rnd: Random)
    returns (q: ExerciseQuestion)
    ensures var scaleType := if majorCoin then MajorScale else MinorScale;
      var roots := if majorCoin then MajorRoots else MinorRoots;
      var root := roots[RandomIndex(rootDraw, |roots|)];
      q.clef == Treble &&
      q.keySignature == GetKeySignatureForScale(root, scaleType) &&
      q.displayNotes == DisplayNotes(scale(ScaleName(root, scaleType))) &&
      q.correctAnswer == CorrectAnswer(root, scaleType, includeRoot) &&
      q.options == ScaleOptions(q.correctAnswer, includeRoot, rnd)
  {
    var scaleType := if majorCoin then MajorScale else MinorScale;
    var roots := if scaleType == MajorScale then MajorRoots else MinorRoots;
    var root := PickRandom(roots, rootDraw).value;
    var scaleNotes := scale(ScaleName(root, scaleType));
    var displayNotes := DisplayNotes(scaleNotes);
    var keySignature := GetKeySignatureForScale(root, scaleType);
    var correctAnswer := CorrectAnswer(root, scaleType, includeRoot);
    var options := GenerateOptions(correctAnswer, includeRoot, rnd);
    q := ExerciseQuestion(Treble, keySignature, displayNotes, correctAnswer, options);
  }

  /** With the root, the answer is the root followed by " Major" or " Minor". */
  lemma CorrectAnswerWithRoot(root: string, scaleType: ScaleType)
    ensures CorrectAnswer(root, scaleType, true) == root + (if scaleType == MajorScale then " Major" else " Minor")
  {
    assert " " + TypeLabel(scaleType) == (if scaleType == MajorScale then " Major" else " Minor");
  }

  /**
   * With the root, the correct answer is one of the eleven labels, so the assembled options
   * are exactly the eleven labels, each once.
   */
  lemma CorrectAnswerIsLabel(majorCoin: bool, rootDraw: nat)
    ensures var scaleType := if majorCoin then MajorScale else MinorScale;
      var roots := if majorCoin then MajorRoots else MinorRoots;
      var correct := CorrectAnswer(roots[RandomIndex(rootDraw, |roots|)], scaleType, true);
      correct in Labeled(MajorRoots, " Major") + Labeled(MinorRoots, " Minor") &&
      multiset(Assembled(correct, true)) == multiset(Labeled(MajorRoots, " Major") + Labeled(MinorRoots, " Minor"))
  {
    var scaleType := if majorCoin then MajorScale else MinorScale;
    var roots := if majorCoin then MajorRoots else MinorRoots;
    var k := RandomIndex(rootDraw, |roots|);
    var correct := CorrectAnswer(roots[k], scaleType, true);
    CorrectAnswerWithRoot(roots[k], scaleType);
    var majors := Labeled(MajorRoots, " Major");
    var minors := Labeled(MinorRoots, " Minor");
    if majorCoin {
      assert correct == majors[k];
      assert (majors + minors)[k] == majors[k];
    } else {
      assert correct == minors[k];
      assert (majors + minors)[|majors| + k] == minors[k];
    }
    AssembledWithRoot(correct);
  }
}
