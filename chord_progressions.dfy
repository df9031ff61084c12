/**
 * The classical progression engine of src/lessons/basic-harmony/chord-progressions.ts:
 * chords built on MIDI numbers from scale degrees, functional roots, figured-bass
 * inversions, and the questions of a progression over twelve keys.
 *
 * Degrees are 0-based scale degrees of the major (or harmonic major) scale; degree d
 * sounds at root + scale[d mod 7] + 12·floor(d / 7). The inversion codes the source
 * compares as strings (`"53"`, `"3"`, `"6"`, `"64"`, `"7"`, `"65"`, `"43"`, `"2"`) are
 * the constructors of `Figure`.
 */
module ChordProgressions {
  import opened Wrappers
  import opened Text
  import opened Pitch
  import opened Seqs
  import opened Lessons
  import opened Grids
  import opened MusicTheory

  /** Semitones of the major scale above its tonic. */
  const MajorOffsets: seq<int> := [0, 2, 4, 5, 7, 9, 11]

  /** The scale of `generateChord`: major, or harmonic major (the 9 lowered to 8). */
  function ScaleOffsets(harm: bool): (r: seq<int>)
    ensures |r| == 7
    ensures forall i | 0 <= i < 7 && i != 5 :: r[i] == MajorOffsets[i]
    ensures r[5] == if harm then 8 else 9
  {
    seq(7, i requires 0 <= i < 7 => if harm && MajorOffsets[i] == 9 then 8 else MajorOffsets[i])
  }

  /** Both scales climb strictly within one octave. */
  lemma ScaleOffsetsIncreasing(harm: bool, i: nat, j: nat)
    requires i < j < 7
    ensures 0 <= ScaleOffsets(harm)[i] < ScaleOffsets(harm)[j] < 12
  {
  }

  /** `getNote(d)` as a MIDI number, before `Note.fromMidi` names it. */
  function GetNote(rootMidi: int, harm: bool, d: nat): int {
    rootMidi + ScaleOffsets(harm)[d % 7] + 12 * (d / 7)
  }

  /** Seven degrees up is one octave up: twelve semitones, the same pitch class. */
  lemma GetNoteOctave(rootMidi: int, harm: bool, d: nat)
    ensures GetNote(rootMidi, harm, d + 7) == GetNote(rootMidi, harm, d) + 12
    ensures GetNote(rootMidi, harm, d + 7) % 12 == GetNote(rootMidi, harm, d) % 12
  {
    assert (d + 7) % 7 == d % 7 && (d + 7) / 7 == d / 7 + 1;
  }

  /** A higher degree sounds higher, for both scales. */
  lemma GetNoteIncreasing(rootMidi: int, harm: bool, d: nat, e: nat)
    requires d < e
    ensures GetNote(rootMidi, harm, d) < GetNote(rootMidi, harm, e)
  {
    var sc := ScaleOffsets(harm);
    if d / 7 == e / 7 {
      ScaleOffsetsIncreasing(harm, d % 7, e % 7);
    } else {
      assert d / 7 < e / 7;
      assert 0 <= sc[d % 7] < 12 && 0 <= sc[e % 7] < 12 by {
        if d % 7 < 6 { ScaleOffsetsIncreasing(harm, d % 7, 6); }
        if e % 7 < 6 { ScaleOffsetsIncreasing(harm, e % 7, 6); }
        if d % 7 > 0 { ScaleOffsetsIncreasing(harm, 0, d % 7); }
        if e % 7 > 0 { ScaleOffsetsIncreasing(harm, 0, e % 7); }
      }
    }
  }

  /** The harmonic functions of the sequences. */
  datatype Func = T | II | S | D | VII

  /** The 0-based scale degree of each function's root. */
  function RootDegree(f: Func): nat {
    match f
    case T => 0
    case II => 1
    case S => 3
    case D => 4
    case VII => 6
  }

  /** The figured-bass codes: triad 53 (also written 3), 6, 64; seventh chord 7, 65, 43, 2. */
  datatype Figure = Fig53 | Fig3 | Fig6 | Fig64 | Fig7 | Fig65 | Fig43 | Fig2

  predicate IsSeventhCode(inv: Figure) {
    inv == Fig7 || inv == Fig65 || inv == Fig43 || inv == Fig2
  }

  /** Chord members above the root: a seventh chord for seventh codes and for II and VII. */
  function Structure(f: Func, inv: Figure): (r: seq<nat>)
    ensures r == [0, 2, 4] || r == [0, 2, 4, 6]
    ensures |r| == 4 <==> IsSeventhCode(inv) || f == II || f == VII
  {
    if IsSeventhCode(inv) || f == II || f == VII then [0, 2, 4, 6] else [0, 2, 4]
  }

  /** A chord stacked in thirds on `root`: root, third, fifth and, for a seventh chord, seventh. */
  function Stack(root: nat, seventh: bool): (r: seq<nat>)
    ensures |r| == if seventh then 4 else 3
    ensures forall i | 0 <= i < |r| :: r[i] == root + 2 * i
  {
    if seventh then [root, root + 2, root + 4, root + 6] else [root, root + 2, root + 4]
  }

  /** The chord's degrees in root position (`structure.map(i => rootDeg + i)`). */
  function Degrees(f: Func, inv: Figure): (r: seq<nat>)
    ensures |r| == |Structure(f, inv)|
    ensures forall i | 0 <= i < |r| :: r[i] == RootDegree(f) + Structure(f, inv)[i]
  {
    Stack(RootDegree(f), |Structure(f, inv)| == 4)
  }

  /** The inversion rotation; members moved above the bass gain seven degrees. */
  function Rotate(nd: seq<nat>, inv: Figure): (r: seq<nat>)
    requires |nd| == 3 || |nd| == 4
    requires IsSeventhCode(inv) ==> |nd| == 4
    ensures |r| == 3 || |r| == 4
  {
    match inv
    case Fig6 => [nd[1], nd[2], nd[0] + 7]
    case Fig64 => [nd[2], nd[0] + 7, nd[1] + 7]
    case Fig65 => [nd[1], nd[2], nd[3], nd[0] + 7]
    case Fig43 => [nd[2], nd[3], nd[0] + 7, nd[1] + 7]
    case Fig2 => [nd[3], nd[0] + 7, nd[1] + 7, nd[2] + 7]
    case _ => nd
  }

  /** The degrees `generateChord` voices for a function and a figure. */
  function Voicing(f: Func, inv: Figure): (r: seq<nat>)
    ensures |r| == 3 || |r| == 4
  {
    Rotate(Degrees(f, inv), inv)
  }

  /**
   * Which chord member a figured-bass code puts in the bass: 0 root, 1 third, 2 fifth,
   * 3 seventh.
   */
  function BassMember(inv: Figure): nat {
    match inv
    case Fig6 | Fig65 => 1
    case Fig64 | Fig43 => 2
    case Fig2 => 3
    case _ => 0
  }

  lemma RotateBass(root: nat, seventh: bool, inv: Figure)
    requires IsSeventhCode(inv) ==> seventh
    ensures Rotate(Stack(root, seventh), inv)[0] == root + 2 * BassMember(inv)
  {
  }

  /** The bass of every voicing is the chord member its figure names. */
  lemma VoicingBass(f: Func, inv: Figure)
    ensures Voicing(f, inv)[0] == RootDegree(f) + 2 * BassMember(inv)
  {
    RotateBass(RootDegree(f), |Structure(f, inv)| == 4, inv);
  }

  lemma RotateAscending(root: nat, seventh: bool, inv: Figure)
    requires IsSeventhCode(inv) ==> seventh
    ensures var r := Rotate(Stack(root, seventh), inv);
      (forall i, j | 0 <= i < j < |r| :: r[i] < r[j]) && forall i | 0 <= i < |r| :: r[i] <= root + 13
  {
    var r := Rotate(Stack(root, seventh), inv);
    if |r| == 4 {
      assert r[0] < r[1] < r[2] < r[3] <= root + 13;
    } else {
      assert r[0] < r[1] < r[2] <= root + 13;
    }
  }

  /** Every voicing climbs strictly, so its first degree is its lowest. */
  lemma VoicingAscending(f: Func, inv: Figure)
    ensures forall i, j | 0 <= i < j < |Voicing(f, inv)| :: Voicing(f, inv)[i] < Voicing(f, inv)[j]
    ensures forall i | 0 <= i < |Voicing(f, inv)| :: Voicing(f, inv)[i] <= RootDegree(f) + 13
  {
    RotateAscending(RootDegree(f), |Structure(f, inv)| == 4, inv);
  }

  /** A triad code on a triad, or any other code: the rotation loses no chord member. */
  predicate Fits(f: Func, inv: Figure) {
    (inv == Fig6 || inv == Fig64) ==> |Structure(f, inv)| == 3
  }

  /** `d mod 7` for each degree: the scale step, which fixes the pitch class. */
  function Steps7(ds: seq<nat>): (r: seq<nat>)
    ensures |r| == |ds| && forall i | 0 <= i < |ds| :: r[i] == ds[i] % 7
  {
    seq(|ds|, i requires 0 <= i < |ds| => ds[i] % 7)
  }

  /** The degrees one octave (seven degrees) higher. */
  function Up(ds: seq<nat>): (r: seq<nat>)
    ensures |r| == |ds| && forall i | 0 <= i < |ds| :: r[i] == ds[i] + 7
  {
    seq(|ds|, i requires 0 <= i < |ds| => ds[i] + 7)
  }

  /** Moving the lowest k members an octave up, above the rest, keeps the scale steps. */
  lemma RaisingKeepsSteps(s: seq<nat>, k: nat)
    requires k <= |s|
    ensures multiset(Steps7(s[k..] + Up(s[..k]))) == multiset(Steps7(s))
  {
    var a := s[..k];
    var b := s[k..];
    assert Steps7(b + Up(a)) == Steps7(b) + Steps7(a) by {
      forall i | 0 <= i < |b| + |a| ensures Steps7(b + Up(a))[i] == (Steps7(b) + Steps7(a))[i] {
        if i >= |b| {
          assert (a[i - |b|] + 7) % 7 == a[i - |b|] % 7;
        }
      }
    }
    assert s == a + b;
    assert Steps7(s) == Steps7(a) + Steps7(b);
  }

  /** On a chord of the right size, each inversion raises the members below its bass. */
  lemma RotateIsRaising(root: nat, seventh: bool, inv: Figure)
    requires IsSeventhCode(inv) ==> seventh
    requires (inv == Fig6 || inv == Fig64) ==> !seventh
    ensures BassMember(inv) <= |Stack(root, seventh)|
    ensures var nd := Stack(root, seventh);
      Rotate(nd, inv) == nd[BassMember(inv)..] + Up(nd[..BassMember(inv)])
  {
    var nd := Stack(root, seventh);
    var k := BassMember(inv);
    assert Rotate(nd, inv) == nd[k..] + Up(nd[..k]);
  }

  lemma RotateKeepsSteps(root: nat, seventh: bool, inv: Figure)
    requires IsSeventhCode(inv) ==> seventh
    requires (inv == Fig6 || inv == Fig64) ==> !seventh
    ensures |Rotate(Stack(root, seventh), inv)| == |Stack(root, seventh)|
    ensures multiset(Steps7(Rotate(Stack(root, seventh), inv))) == multiset(Steps7(Stack(root, seventh)))
  {
    RotateIsRaising(root, seventh, inv);
    RaisingKeepsSteps(Stack(root, seventh), BassMember(inv));
  }

  /** A fitting rotation keeps the chord's size and its scale steps, counted with multiplicity. */
  lemma VoicingKeepsSteps(f: Func, inv: Figure)
    requires Fits(f, inv)
    ensures |Voicing(f, inv)| == |Degrees(f, inv)|
    ensures multiset(Steps7(Voicing(f, inv))) == multiset(Steps7(Degrees(f, inv)))
  {
    RotateKeepsSteps(RootDegree(f), |Structure(f, inv)| == 4, inv);
  }

  /** A triad code on a seventh chord (II or VII with "6" or "64") drops the seventh. */
  lemma TriadCodeOnSeventhDropsSeventh(f: Func, inv: Figure)
    requires inv == Fig6 || inv == Fig64
    requires f == II || f == VII
    ensures |Voicing(f, inv)| == 3 && |Degrees(f, inv)| == 4
    ensures RootDegree(f) + 6 !in Voicing(f, inv)
  {
  }

  /** There is no incomplete-triad voicing: 3 is the root-position triad, like 53. */
  lemma CodeThreeIsRootPosition(f: Func)
    ensures Voicing(f, Fig3) == Voicing(f, Fig53) == Degrees(f, Fig53)
    ensures f == T ==> Voicing(f, Fig3) == [0, 2, 4]
  {
  }

  /**
   * `generateChord`: the voicing's degrees named by `Note.fromMidi`, anchored on the key
   * in octave 3; no notes when the key has no MIDI number (or, as `!rootMidi` reads, 0).
   */
  function GenerateChord(key: string, f: Func, inv: Figure, harm: bool): (r: seq<string>)
    ensures |r| == 0 || |r| == |Voicing(f, inv)|
  {
    ChordOnRoot(Midi(key + "3"), f, inv, harm)
  }

  /** The chord on the anchor's MIDI number `rootMidi` (`Note.midi(key + "3")`). */
  function ChordOnRoot(rootMidi: Option<int>, f: Func, inv: Figure, harm: bool): (r: seq<string>)
    ensures |r| == 0 || |r| == |Voicing(f, inv)|
  {
    match rootMidi
    case None => []
    case Some(m) =>
      if m == 0 then []
      else Named(m, harm, Voicing(f, inv))
  }

  /** `rotated.map(getNote)`: each degree named by `Note.fromMidi`. */
  function Named(rootMidi: int, harm: bool, v: seq<nat>): (r: seq<string>)
    ensures |r| == |v| && forall i | 0 <= i < |v| :: r[i] == FromMidi(GetNote(rootMidi, harm, v[i]))
  {
    seq(|v|, i requires 0 <= i < |v| => FromMidi(GetNote(rootMidi, harm, v[i])))
  }

  /** Degrees up to 20, named, have their pitch and pitch class. */
  lemma NamedPitches(rootMidi: int, harm: bool, v: seq<nat>, i: nat)
    requires 0 <= rootMidi && rootMidi + 35 <= 127
    requires i < |v| && v[i] <= 20
    ensures Midi(Named(rootMidi, harm, v)[i]) == Some(GetNote(rootMidi, harm, v[i]))
    ensures Chroma(Named(rootMidi, harm, v)[i]) == Some(GetNote(rootMidi, harm, v[i]) % 12)
  {
    GetNoteRange(rootMidi, harm, v[i]);
    FromMidiInRange(GetNote(rootMidi, harm, v[i]));
  }

  /** Every scale offset lies within the octave. */
  lemma ScaleOffsetBounds(harm: bool, k: nat)
    requires k < 7
    ensures 0 <= ScaleOffsets(harm)[k] <= 11
  {
    if k < 6 { ScaleOffsetsIncreasing(harm, k, 6); }
    if k > 0 { ScaleOffsetsIncreasing(harm, 0, k); }
  }

  /** Degrees up to 20 stay within three octaves of the root, on the root's scale steps. */
  lemma GetNoteRange(rootMidi: int, harm: bool, d: nat)
    requires d <= 20
    ensures rootMidi <= GetNote(rootMidi, harm, d) <= rootMidi + 35
    ensures GetNote(rootMidi, harm, d) % 12 == (rootMidi + ScaleOffsets(harm)[d % 7]) % 12
  {
    ScaleOffsetBounds(harm, d % 7);
    ShiftByOctaves(rootMidi + ScaleOffsets(harm)[d % 7], d / 7);
  }

  /** The named notes have the voicing's pitches, and the voicing's pitch classes. */
  lemma GenerateChordPitches(key: string, f: Func, inv: Figure, harm: bool, m: int, i: nat)
    requires Midi(key + "3") == Some(m) && m > 0 && m + 35 <= 127
    requires i < |Voicing(f, inv)|
    ensures |GenerateChord(key, f, inv, harm)| == |Voicing(f, inv)|
    ensures Midi(GenerateChord(key, f, inv, harm)[i]) == Some(GetNote(m, harm, Voicing(f, inv)[i]))
    ensures Chroma(GenerateChord(key, f, inv, harm)[i]) == Some(GetNote(m, harm, Voicing(f, inv)[i]) % 12)
  {
    VoicingAscending(f, inv);
    assert GenerateChord(key, f, inv, harm) == ChordOnRoot(Some(m), f, inv, harm);
    NamedPitches(m, harm, Voicing(f, inv), i);
  }

  /** The chord is voiced upward, so the strict checker's lowest target note is the first. */
  lemma GenerateChordBassFirst(key: string, f: Func, inv: Figure, harm: bool, m: int)
    requires Midi(key + "3") == Some(m) && m > 0 && m + 35 <= 127
    ensures |GenerateChord(key, f, inv, harm)| > 0
    ensures LowestIndex(GenerateChord(key, f, inv, harm)) == 0
  {
    var notes := GenerateChord(key, f, inv, harm);
    var v := Voicing(f, inv);
    VoicingAscending(f, inv);
    GenerateChordPitches(key, f, inv, harm, m, 0);
    forall j | 0 < j < |notes| ensures MidiOr0(notes[0]) < MidiOr0(notes[j]) {
      GenerateChordPitches(key, f, inv, harm, m, j);
      GetNoteIncreasing(m, harm, v[0], v[j]);
    }
  }

  /**
   * On a generated chord the strict checker wants the right number of notes, every chord
   * chroma, and a lowest played note with the chroma of the chord's first (bass) note.
   */
  lemma StrictCheckOfGeneratedChord(key: string, f: Func, inv: Figure, harm: bool, m: int, input: seq<string>)
    requires Midi(key + "3") == Some(m) && m > 0 && m + 35 <= 127
    ensures var notes := GenerateChord(key, f, inv, harm);
      StrictValidate(input, notes) <==>
        |input| == |notes| &&
        (forall i | 0 <= i < |notes| :: Chroma(notes[i]) in Chromas(input)) &&
        Chroma(input[LowestIndex(input)]) == Chroma(notes[0])
  {
    GenerateChordBassFirst(key, f, inv, harm, m);
    StrictValidateCases(input, GenerateChord(key, f, inv, harm));
  }

  /** One step of a sequence: function, inversion code, harmonic flag, label. */
  datatype Step = Step(f: Func, inv: Figure, harm: bool, caption: string)

  /** The twelve keys, by circle of fifths and practical use. */
  const Keys: seq<string> := ["C", "G", "F", "D", "Bb", "A", "Eb", "E", "Ab", "B", "Db", "F#"]

  const SequenceA: seq<Step> := [
    Step(T, Fig53, false, "T53"), Step(S, Fig64, false, "S64"), Step(II, Fig2, true, "II2 (harm)"),
    Step(D, Fig65, false, "D65"), Step(T, Fig53, false, "T53")]
  const SequenceB: seq<Step> := [
    Step(T, Fig6, false, "T6"), Step(S, Fig53, false, "S53"), Step(II, Fig65, true, "II65 (harm)"),
    Step(D, Fig2, false, "D2"), Step(T, Fig6, false, "T6")]
  const SequenceC: seq<Step> := [
    Step(T, Fig64, false, "T64"), Step(S, Fig6, false, "S6"), Step(II, Fig43, true, "II43 (harm)"),
    Step(D, Fig7, false, "D7"), Step(T, Fig53, false, "T3")]
  const SequenceD: seq<Step> := [
    Step(T, Fig53, false, "T53"), Step(S, Fig64, false, "S64"), Step(II, Fig2, true, "II2 (harm)"),
    Step(VII, Fig7, true, "VII7 (harm)"), Step(D, Fig65, false, "D65"), Step(T, Fig53, false, "T53")]
  const SequenceE: seq<Step> := [
    Step(T, Fig6, false, "T6"), Step(S, Fig53, false, "S53"), Step(II, Fig65, true, "II65 (harm)"),
    Step(VII, Fig43, true, "VII43 (harm)"), Step(D, Fig2, false, "D2"), Step(T, Fig6, false, "T6")]
  const SequenceF: seq<Step> := [
    Step(T, Fig64, false, "T64"), Step(S, Fig6, false, "S6"), Step(II, Fig43, true, "II43 (harm)"),
    Step(VII, Fig2, true, "VII2 (harm)"), Step(D, Fig7, false, "D7"), Step(T, Fig53, false, "T3")]

  function Labels(steps: seq<Step>): (r: seq<string>)
    ensures |r| == |steps| && forall i | 0 <= i < |steps| :: r[i] == steps[i].caption
  {
    seq(|steps|, i requires 0 <= i < |steps| => steps[i].caption)
  }

  /** The question pushed for `step`, number `idx` of `total`, in `key`. */
  function ProgressionQuestion(seqName: string, labels: seq<string>, total: nat, key: string, idx: nat, step: Step): Question {
    Question(
      KeyedId(seqName, key, idx),
      key + " Major",
      Some(Treble),
      Some(key),
      StrictBass(GenerateChord(key, step.f, step.inv, step.harm)),
      Some(Metadata(key, idx, total, step.caption, labels)))
  }

  /** The question builder of one sequence, as the loops apply it. */
  function Maker(seqName: string, steps: seq<Step>): (string, nat, Step) -> Question {
    (key: string, idx: nat, step: Step) => ProgressionQuestion(seqName, Labels(steps), |steps|, key, idx, step)
  }

  /** `generateQuestionsForSequence`: for each key, for each step, push its question. */
  method GenerateQuestionsForSequence(steps: seq<Step>, seqName: string) returns (questions: seq<Question>)
    ensures questions == Grid(Keys, steps, Maker(seqName, steps))
  {
    var labels := Labels(steps);
    questions := [];
    var k := 0;
    while k < |Keys|
      invariant 0 <= k <= |Keys|
      invariant questions == Grid(Keys[..k], steps, Maker(seqName, steps))
    {
      var key := Keys[k];
      var idx := 0;
      while idx < |steps|
        invariant 0 <= idx <= |steps|
        invariant questions ==
          Grid(Keys[..k], steps, Maker(seqName, steps)) + Row(key, steps, Maker(seqName, steps))[..idx]
      {
        RowStep(Grid(Keys[..k], steps, Maker(seqName, steps)), key, steps, Maker(seqName, steps), idx);
        questions := questions + [ProgressionQuestion(seqName, labels, |steps|, key, idx, steps[idx])];
        idx := idx + 1;
      }
      GridExtend(Keys, k, steps, Maker(seqName, steps));
      k := k + 1;
    }
    assert Keys[..|Keys|] == Keys;
  }

  /** The keys of the sequences: twelve distinct names, none with a dash. */
  lemma KeysFacts()
    ensures |Keys| == 12 && Distinct(Keys)
    ensures forall k | 0 <= k < |Keys| :: NoDash(Keys[k])
  {
  }

  /**
   * 12·n questions, key-major: question k·n + i asks step i in key k, under key signature
   * and metadata key k, with its index, the sequence length and all labels.
   */
  lemma GeneratedQuestions(seqName: string, steps: seq<Step>, k: nat, i: nat)
    requires k < 12 && i < |steps|
    ensures |Grid(Keys, steps, Maker(seqName, steps))| == 12 * |steps|
    ensures var q := Grid(Keys, steps, Maker(seqName, steps))[k * |steps| + i];
      q.id == KeyedId(seqName, Keys[k], i) && q.targetChord == Keys[k] + " Major" &&
      q.keySignature == Some(Keys[k]) &&
      q.check == StrictBass(GenerateChord(Keys[k], steps[i].f, steps[i].inv, steps[i].harm)) &&
      q.metadata == Some(Metadata(Keys[k], i, |steps|, steps[i].caption, Labels(steps)))
  {
    KeysFacts();
    GridLayout(Keys, steps, Maker(seqName, steps), k, i);
  }

  /** The ids of a sequence's questions are pairwise distinct. */
  lemma SequenceIdsDistinct(seqName: string, steps: seq<Step>, p: nat, q: nat)
    requires p < q < |Grid(Keys, steps, Maker(seqName, steps))|
    ensures Grid(Keys, steps, Maker(seqName, steps))[p].id != Grid(Keys, steps, Maker(seqName, steps))[q].id
  {
    KeysFacts();
    var k1, i1 := GridMembers(Keys, steps, Maker(seqName, steps), p);
    var k2, i2 := GridMembers(Keys, steps, Maker(seqName, steps), q);
    KeyedIdInjective(seqName, Keys[k1], i1, Keys[k2], i2);
  }
}
