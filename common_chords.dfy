/**
 * The chord lessons built by `buildQuestions` (src/lessons/basic-harmony/common-chords.ts):
 * every chord type of a lesson on each of seven roots, pushed key by key, then shuffled
 * in place.
 */
module CommonChords {
  import opened Wrappers
  import opened Seqs
  import opened Text
  import opened MusicTheory
  import opened MusicHelpers
  import opened Lessons
  import opened Grids

  const Keys: seq<string> := ["C", "G", "D", "A", "F", "Bb", "Eb"]

  /** A chord type of a lesson (its hint key is a text key and is not modelled). */
  datatype ChordType = ChordType(nameEn: string, symbol: string)

  /** `Key.minorKey(key).relativeMajor`, a table of tonal that is not modelled. */
  type RelativeMajor = string -> string

  /** `type.symbol || 'triad'`: the id part of a chord type. */
  function IdLabel(t: ChordType): (r: string)
    ensures r != ""
    ensures t.symbol != "" ==> r == t.symbol
  {
    if t.symbol == "" then "triad" else t.symbol
  }

  /** `type.nameEn.toLowerCase().includes('minor')`. */
  predicate IsMinorName(nameEn: string) {
    Contains(ToLower(nameEn), "minor")
  }

  /** `${lessonId}-${root}-${typeLabelForId}`. */
  function ChordId(lessonId: string, key: string, t: ChordType): string {
    lessonId + "-" + key + "-" + IdLabel(t)
  }

  function KeySignature(relativeMajor: RelativeMajor, key: string, t: ChordType): string {
    if IsMinorName(t.nameEn) then relativeMajor(key) else key
  }

  /** The question pushed for type `t` on root `key` (the index is not used). */
  function ChordQuestion(lessonId: string, relativeMajor: RelativeMajor, key: string, idx: nat, t: ChordType): Question {
    Question(
      ChordId(lessonId, key, t),
      key + t.symbol,
      Some(Treble),
      Some(KeySignature(relativeMajor, key, t)),
      ChordByName(key + t.symbol),
      None)
  }

  function Maker(lessonId: string, relativeMajor: RelativeMajor): (string, nat, ChordType) -> Question {
    (key: string, idx: nat, t: ChordType) => ChordQuestion(lessonId, relativeMajor, key, idx, t)
  }

  /** The list before the shuffle. */
  function Generated(lessonId: string, chordTypes: seq<ChordType>, relativeMajor: RelativeMajor): seq<Question> {
    Grid(Keys, chordTypes, Maker(lessonId, relativeMajor))
  }

  /** `buildQuestions`: the nested push loops, then the Fisher–Yates loop on the same array. */
  method BuildQuestions(lessonId: string, chordTypes: seq<ChordType>, relativeMajor: RelativeMajor, rnd: Random)
    returns (questions: seq<Question>)
    ensures questions == Shuffled(Generated(lessonId, chordTypes, relativeMajor), rnd)
  {
    var built := PushQuestions(lessonId, chordTypes, relativeMajor);
    var a := new Question[|built|](i requires 0 <= i < |built| => built[i]);
    assert a[..] == built;
    FisherYates(a, rnd);
    questions := a[..];
  }

  /** The nested push loops of `buildQuestions`: one question per root and chord type. */
  method PushQuestions(lessonId: string, chordTypes: seq<ChordType>, relativeMajor: RelativeMajor)
    returns (built: seq<Question>)
    ensures built == Generated(lessonId, chordTypes, relativeMajor)
  {
    built := [];
    var k := 0;
    while k < |Keys|
      invariant 0 <= k <= |Keys|
      invariant built == Grid(Keys[..k], chordTypes, Maker(lessonId, relativeMajor))
    {
      var key := Keys[k];
      var t := 0;
      while t < |chordTypes|
        invariant 0 <= t <= |chordTypes|
        invariant built == Grid(Keys[..k], chordTypes, Maker(lessonId, relativeMajor)) +
          Row(key, chordTypes, Maker(lessonId, relativeMajor))[..t]
      {
        RowStep(Grid(Keys[..k], chordTypes, Maker(lessonId, relativeMajor)), key, chordTypes, Maker(lessonId, relativeMajor), t);
        built := built + [ChordQuestion(lessonId, relativeMajor, key, t, chordTypes[t])];
        t := t + 1;
      }
      GridExtend(Keys, k, chordTypes, Maker(lessonId, relativeMajor));
      k := k + 1;
    }
    assert Keys[..|Keys|] == Keys;
  }

  const SeventhChordTypes: seq<ChordType> := [
    ChordType("Major 7 (maj7)", "maj7"), ChordType("Minor 7 (m7)", "m7"),
    ChordType("Dominant 7 (7)", "7"), ChordType("Half-diminished 7 (m7♭5)", "m7b5")]
  const SusChordTypes: seq<ChordType> := [ChordType("Sus2 (sus2)", "sus2"), ChordType("Sus4 (sus4)", "sus4")]
  const AlteredTriadTypes: seq<ChordType> := [
    ChordType("Diminished triad (dim)", "dim"), ChordType("Augmented triad (aug)", "aug")]

  lemma KeysFacts()
    ensures |Keys| == 7 && Distinct(Keys)
    ensures forall k | 0 <= k < |Keys| :: '-' !in Keys[k]
  {
  }

  /** |KEYS| · |chordTypes| questions, a permutation of the list the loops pushed. */
  lemma ChordsPermutation(lessonId: string, chordTypes: seq<ChordType>, relativeMajor: RelativeMajor, rnd: Random)
    ensures |Shuffled(Generated(lessonId, chordTypes, relativeMajor), rnd)| == 7 * |chordTypes|
    ensures multiset(Shuffled(Generated(lessonId, chordTypes, relativeMajor), rnd)) ==
      multiset(Generated(lessonId, chordTypes, relativeMajor))
  {
    GridLength(Keys, chordTypes, Maker(lessonId, relativeMajor));
    ShuffledIsPermutation(Generated(lessonId, chordTypes, relativeMajor), rnd);
  }

  /** Every (root, type) pair has its question in the shuffled list. */
  lemma ChordsCover(lessonId: string, chordTypes: seq<ChordType>, relativeMajor: RelativeMajor, rnd: Random)
    ensures forall k, t | 0 <= k < 7 && 0 <= t < |chordTypes| ::
      ChordQuestion(lessonId, relativeMajor, Keys[k], t, chordTypes[t]) in
        Shuffled(Generated(lessonId, chordTypes, relativeMajor), rnd)
  {
    ShuffledMembers(Generated(lessonId, chordTypes, relativeMajor), rnd);
    GridContains(Keys, chordTypes, Maker(lessonId, relativeMajor));
  }

  /** The shuffled list holds nothing but the (root, type) pairs' questions. */
  lemma ChordsOnly(lessonId: string, chordTypes: seq<ChordType>, relativeMajor: RelativeMajor, rnd: Random, q: Question)
    requires q in Shuffled(Generated(lessonId, chordTypes, relativeMajor), rnd)
    ensures exists k, t | 0 <= k < 7 && 0 <= t < |chordTypes| ::
      q == ChordQuestion(lessonId, relativeMajor, Keys[k], t, chordTypes[t])
  {
    var g := Generated(lessonId, chordTypes, relativeMajor);
    ShuffledMembers(g, rnd);
    var p :| 0 <= p < |g| && g[p] == q;
    var k, t := GridMembers(Keys, chordTypes, Maker(lessonId, relativeMajor), p);
    assert q == ChordQuestion(lessonId, relativeMajor, Keys[k], t, chordTypes[t]);
  }

  /**
   * The question on `key` for type `t` targets `key+symbol`, is checked by chroma-set
   * equality, and switches to the relative major's signature iff the lower-cased English
   * name contains "minor".
   */
  lemma ChordQuestionFacts(lessonId: string, relativeMajor: RelativeMajor, key: string, idx: nat, t: ChordType)
    ensures var q := ChordQuestion(lessonId, relativeMajor, key, idx, t);
      q.targetChord == key + t.symbol && q.clef == Some(Treble) &&
      (IsMinorName(t.nameEn) ==> q.keySignature == Some(relativeMajor(key))) &&
      (!IsMinorName(t.nameEn) ==> q.keySignature == Some(key)) &&
      forall input, table: ChordTable :: Accepts(q, input, table) == ValidateChord(input, table(key + t.symbol))
  {
  }

  /** "Minor 7 (m7)" switches the key signature to the relative major. */
  lemma MinorSeventhIsMinor()
    ensures IsMinorName("Minor 7 (m7)")
  {
    var lower := ToLower("Minor 7 (m7)");
    assert lower[..5] == "minor" by {
      assert lower[0] == 'm' && lower[1] == 'i' && lower[2] == 'n' && lower[3] == 'o' && lower[4] == 'r';
    }
    assert OccursAt(lower, "minor", 0);
  }

  /** "Half-diminished 7 (m7♭5)", a chord with a minor third, keeps the root's key signature. */
  lemma HalfDiminishedIsNotMinor()
    ensures !IsMinorName("Half-diminished 7 (m7♭5)")
  {
    NameLacks("Half-diminished 7 (m7♭5)", 'r');
  }

  /** A name lacking one letter of "minor", in either case, is not a minor name. */
  lemma NameLacks(nameEn: string, c: char)
    requires c in "minor" && c !in nameEn && (c as int - 32) as char !in nameEn
    ensures !IsMinorName(nameEn)
  {
    ToLowerMissing(nameEn, c);
    MissingCharNotContained(ToLower(nameEn), "minor", c);
  }

  function IdLabels(chordTypes: seq<ChordType>): (r: seq<string>)
    ensures |r| == |chordTypes| && forall i | 0 <= i < |chordTypes| :: r[i] == IdLabel(chordTypes[i])
  {
    seq(|chordTypes|, i requires 0 <= i < |chordTypes| => IdLabel(chordTypes[i]))
  }

  /** Ids of different (root, type) pairs differ when the types' id parts do. */
  lemma ChordIdInjective(lessonId: string, chordTypes: seq<ChordType>, relativeMajor: RelativeMajor,
                         k1: nat, t1: nat, k2: nat, t2: nat)
    requires Distinct(IdLabels(chordTypes))
    requires k1 < 7 && t1 < |chordTypes| && k2 < 7 && t2 < |chordTypes|
    ensures ChordQuestion(lessonId, relativeMajor, Keys[k1], t1, chordTypes[t1]).id ==
            ChordQuestion(lessonId, relativeMajor, Keys[k2], t2, chordTypes[t2]).id
      ==> k1 == k2 && t1 == t2
  {
    KeysFacts();
    if ChordId(lessonId, Keys[k1], chordTypes[t1]) == ChordId(lessonId, Keys[k2], chordTypes[t2]) {
      SplitAfterPrefix(lessonId, Keys[k1], IdLabel(chordTypes[t1]), Keys[k2], IdLabel(chordTypes[t2]), '-');
      assert IdLabels(chordTypes)[t1] == IdLabels(chordTypes)[t2];
    }
  }

  /** With distinct id parts, the ids of the shuffled list are pairwise distinct. */
  lemma ChordIdsDistinct(lessonId: string, chordTypes: seq<ChordType>, relativeMajor: RelativeMajor, rnd: Random)
    requires Distinct(IdLabels(chordTypes))
    ensures IdsDistinct(Shuffled(Generated(lessonId, chordTypes, relativeMajor), rnd))
  {
    var g := Generated(lessonId, chordTypes, relativeMajor);
    forall p, q | 0 <= p < q < |g| ensures g[p].id != g[q].id {
      var k1, t1 := GridMembers(Keys, chordTypes, Maker(lessonId, relativeMajor), p);
      var k2, t2 := GridMembers(Keys, chordTypes, Maker(lessonId, relativeMajor), q);
      ChordIdInjective(lessonId, chordTypes, relativeMajor, k1, t1, k2, t2);
    }
    ShuffledIsPermutation(g, rnd);
    PermutationKeepsIdsDistinct(g, Shuffled(g, rnd));
  }

  /** The three lessons' chord types have distinct id parts. */
  lemma LessonLabelsDistinct()
    ensures Distinct(IdLabels(SeventhChordTypes))
    ensures Distinct(IdLabels(SusChordTypes))
    ensures Distinct(IdLabels(AlteredTriadTypes))
  {
  }
}
