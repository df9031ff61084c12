/**
 * The scale-construction exercise (src/exercises/scales/scale-construction.ts): the
 * player is asked to build a major or natural-minor scale and picks the right list of
 * notes among three or four.
 *
 * The source repeats the root lists and `getScaleNotes` of the scale-identification
 * exercise word for word; the model reuses `ScaleIdentification.MajorRoots`,
 * `MinorRoots` and `ScaleName`. `Scale.get(name).notes` is the parameter `scale`.
 */
module ScaleConstruction {
  import opened Wrappers
  import opened Text
  import opened Seqs
  import opened MusicHelpers
  import opened Lessons
  import opened Exercises
  import opened ScaleIdentification
  import ChordProgressions

  /** An answer: the scale's notes joined by `", "`. */
  function Answer(scale: ScaleGet, root: string, scaleType: ScaleType): string {
    Join(scale(ScaleName(root, scaleType)), ", ")
  }

  function RootsOf(scaleType: ScaleType): seq<string> {
    if scaleType == MajorScale then MajorRoots else MinorRoots
  }

  function OtherType(scaleType: ScaleType): ScaleType {
    if scaleType == MajorScale then MinorScale else MajorScale
  }

  /** `pickRandom(roots.filter(r => r !== root))`: a root of the list other than `root`. */
  function OtherRoot(roots: seq<string>, root: string, draw: nat): (r: Option<string>)
    ensures r.Some? <==> exists x | x in roots :: x != root
    ensures r.Some? ==> r.value in roots && r.value != root
  {
    var others := Without(roots, root);
    assert |others| > 0 ==> others[0] in others;
    PickRandom(others, draw)
  }

  /** A list whose first two roots differ has a root other than any given one. */
  lemma OtherRootExists(roots: seq<string>, root: string, draw: nat)
    requires |roots| >= 2 && roots[0] != roots[1]
    ensures OtherRoot(roots, root, draw).Some?
  {
    if roots[0] == root {
      assert roots[1] in roots && roots[1] != root;
    } else {
      assert roots[0] in roots && roots[0] != root;
    }
  }

  /** The wrong root a question draws from a type's list: always there, never the chosen root. */
  function WrongRoot(scaleType: ScaleType, root: string, draw: nat): (r: string)
    ensures r in RootsOf(scaleType) && r != root
  {
    var roots := RootsOf(scaleType);
    assert roots[0] != roots[1];
    OtherRootExists(roots, root, draw);
    OtherRoot(roots, root, draw).value
  }

  /**
   * The options before the final shuffle: the correct answer; a scale of the same type on
   * another root; the same root in the other type when that type lists the root; a scale
   * of the other type on a root other than `root`.
   */
  function ConstructionOptions(scale: ScaleGet, root: string, scaleType: ScaleType, wrongRoot1: string, wrongRoot2: string)
    : seq<string>
  {
    var wrongType := OtherType(scaleType);
    [Answer(scale, root, scaleType), Answer(scale, wrongRoot1, scaleType)]
    + (if root in RootsOf(wrongType) then [Answer(scale, root, wrongType)] else [])
    + [Answer(scale, wrongRoot2, wrongType)]
  }

  /**
   * Three or four options, four exactly when the other type lists the root, the correct
   * answer first; shuffled, they are the same options and still hold the correct answer.
   */
  lemma ConstructionOptionsFacts(scale: ScaleGet, root: string, scaleType: ScaleType, wrongRoot1: string, wrongRoot2: string, rnd: Random)
    ensures var options := ConstructionOptions(scale, root, scaleType, wrongRoot1, wrongRoot2);
      |options| == (if root in RootsOf(OtherType(scaleType)) then 4 else 3) &&
      options[0] == Answer(scale, root, scaleType) &&
      multiset(Shuffled(options, rnd)) == multiset(options) &&
      Answer(scale, root, scaleType) in Shuffled(options, rnd)
  {
    var options := ConstructionOptions(scale, root, scaleType, wrongRoot1, wrongRoot2);
    ShuffledMembers(options, rnd);
    ShuffledIsPermutation(options, rnd);
    assert options[0] in options;
  }

  /** A root shared by both lists: D, G and A have both a major and a natural-minor option. */
  lemma SharedRoots()
    ensures forall r | r in MajorRoots :: r in MinorRoots <==> r in ["D", "G", "A"]
  {
  }

  /** A whole or a half step of a hint. */
  datatype Step = Whole | Half

  function Size(step: Step): int {
    if step == Whole then 2 else 1
  }

  /** The English hint: a title and the step pattern, W for a whole and H for a half step. */
  function Hint(scaleType: ScaleType): string {
    if scaleType == MajorScale then "Major scale pattern: " + HintPattern(scaleType)
    else "Natural minor pattern: " + HintPattern(scaleType)
  }

  function HintPattern(scaleType: ScaleType): string {
    if scaleType == MajorScale then "W-W-H-W-W-W-H" else "W-H-W-W-H-W-W"
  }

  /** The steps a dash-separated pattern spells: every other character, W or H. */
  function Spelled(text: string): (r: seq<Step>)
    ensures |r| == (|text| + 1) / 2
    ensures forall i | 0 <= i < |r| :: r[i] == if text[2 * i] == 'W' then Whole else Half
  {
    seq((|text| + 1) / 2, i requires 0 <= i < (|text| + 1) / 2 => if text[2 * i] == 'W' then Whole else Half)
  }

  /** The semitones above the tonic reached after each prefix of a pattern. */
  function Offsets(steps: seq<Step>): (r: seq<int>)
    ensures |r| == |steps| + 1 && r[0] == 0
    ensures forall i | 0 <= i < |steps| :: r[i + 1] == r[i] + Size(steps[i])
  {
    if steps == [] then [0]
    else
      var front := Offsets(steps[..|steps| - 1]);
      front + [front[|front| - 1] + Size(steps[|steps| - 1])]
  }

  /** The two hints spell seven steps each. */
  lemma SpelledHints()
    ensures Spelled(HintPattern(MajorScale)) == [Whole, Whole, Half, Whole, Whole, Whole, Half]
    ensures Spelled(HintPattern(MinorScale)) == [Whole, Half, Whole, Whole, Half, Whole, Whole]
  {
  }

  /** The offsets a seven-step pattern climbs through, one step at a time. */
  lemma SevenStepOffsets(p: seq<Step>)
    requires |p| == 7
    ensures var s := seq(7, i requires 0 <= i < 7 => Size(p[i]));
      Offsets(p) == [0, s[0], s[0] + s[1], s[0] + s[1] + s[2], s[0] + s[1] + s[2] + s[3],
        s[0] + s[1] + s[2] + s[3] + s[4], s[0] + s[1] + s[2] + s[3] + s[4] + s[5],
        s[0] + s[1] + s[2] + s[3] + s[4] + s[5] + s[6]]
  {
  }

  /** The offsets the two step patterns climb through, tonic to octave. */
  lemma PatternOffsets()
    ensures Offsets([Whole, Whole, Half, Whole, Whole, Whole, Half]) == [0, 2, 4, 5, 7, 9, 11, 12]
    ensures Offsets([Whole, Half, Whole, Whole, Half, Whole, Whole]) == [0, 2, 3, 5, 7, 8, 10, 12]
  {
    SevenStepOffsets([Whole, Whole, Half, Whole, Whole, Whole, Half]);
    SevenStepOffsets([Whole, Half, Whole, Whole, Half, Whole, Whole]);
  }

  /** The major hint climbs through the major scale the progression engine uses and closes the octave. */
  lemma MajorHintIsMajorScale()
    ensures Offsets(Spelled(HintPattern(MajorScale)))[..7] == ChordProgressions.ScaleOffsets(false)
    ensures Offsets(Spelled(HintPattern(MajorScale)))[7] == 12
  {
    SpelledHints();
    PatternOffsets();
    var sc := ChordProgressions.ScaleOffsets(false);
    assert sc == [0, 2, 4, 5, 7, 9, 11];
  }

  /**
   * The natural-minor hint is the major scale read from its sixth degree, the relative
   * minor, and also closes the octave.
   */
  lemma MinorHintIsRelativeMinor()
    ensures forall i | 0 <= i < 2 ::
      Offsets(Spelled(HintPattern(MinorScale)))[i] == ChordProgressions.MajorOffsets[i + 5] - 9
    ensures forall i | 2 <= i < 7 ::
      Offsets(Spelled(HintPattern(MinorScale)))[i] == ChordProgressions.MajorOffsets[i - 2] + 3
    ensures Offsets(Spelled(HintPattern(MinorScale)))[7] == 12
  {
    SpelledHints();
    PatternOffsets();
  }

  /** `Math.random() > 0.5 ? 'major' : 'minor'`, the coin given. */
  function TypeOf(majorCoin: bool): ScaleType {
    if majorCoin then MajorScale else MinorScale
  }

  /** `pickRandom(roots)` from the chosen type's list. */
  function ChosenRoot(majorCoin: bool, rootDraw: nat): (root: string)
    ensures root in RootsOf(TypeOf(majorCoin))
  {
    var roots := RootsOf(TypeOf(majorCoin));
    roots[RandomIndex(rootDraw, |roots|)]
  }

  /** A question with the hint the source attaches to it. */
  datatype ConstructionQuestion = ConstructionQuestion(question: ExerciseQuestion, hint: string)

  /**
   * `generateQuestion()`: the type by a coin, a root of that type's list, the answer and
   * the key signature of that scale, the root shown at octave 4, and the shuffled options.
   */
  method GenerateQuestion(majorCoin: bool, rootDraw: nat, wrongDraw1: nat, wrongDraw2: nat, scale: ScaleGet, rnd: Random)
    returns (r: ConstructionQuestion)
    ensures r.question.clef == Treble && r.hint == Hint(TypeOf(majorCoin))
    ensures r.question.keySignature == GetKeySignatureForScale(ChosenRoot(majorCoin, rootDraw), TypeOf(majorCoin))
    ensures r.question.displayNotes == [ChosenRoot(majorCoin, rootDraw) + "4"]
    ensures r.question.correctAnswer == Answer(scale, ChosenRoot(majorCoin, rootDraw), TypeOf(majorCoin))
    ensures var scaleType := TypeOf(majorCoin);
      var root := ChosenRoot(majorCoin, rootDraw);
      r.question.options == Shuffled(ConstructionOptions(scale, root, scaleType,
        WrongRoot(scaleType, root, wrongDraw1), WrongRoot(OtherType(scaleType), root, wrongDraw2)), rnd)
  {
    var scaleType := TypeOf(majorCoin);
    var roots := RootsOf(scaleType);
    var root := PickRandom(roots, rootDraw).value;
    var correctAnswer := Answer(scale, root, scaleType);
    var keySignature := GetKeySignatureForScale(root, scaleType);
    var wrongRoot1 := WrongRoot(scaleType, root, wrongDraw1);
    var options := [correctAnswer, Answer(scale, wrongRoot1, scaleType)];
    var wrongType := OtherType(scaleType);
    var wrongTypeRoots := RootsOf(wrongType);
    var sameRoot := if root in wrongTypeRoots then [Answer(scale, root, wrongType)] else [];
    var wrongRoot2 := WrongRoot(wrongType, root, wrongDraw2);
    options := options + sameRoot + [Answer(scale, wrongRoot2, wrongType)];
    var shuffled := Shuffle(options, rnd);
    r := ConstructionQuestion(ExerciseQuestion(Treble, keySignature, [root + "4"], correctAnswer, shuffled), Hint(scaleType));
  }
}
