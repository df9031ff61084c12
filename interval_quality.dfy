/**
 * The interval-quality drill (src/exercises/intervals/interval-quality.ts): a natural
 * root and an interval number are drawn, then one of the two qualities that number comes
 * in; the answer is the pitch class of the note that many semitones above the root. The
 * options are the correct note, the notes of both qualities of the number, and random
 * note names up to six, shuffled.
 */
module IntervalQuality {
  import opened Wrappers
  import opened Text
  import opened Seqs
  import opened Pitch
  import opened MusicHelpers
  import opened Lessons
  import opened Exercises
  import IntervalConstruction

  /** One entry of `INTERVALS_BY_NUMBER`. */
  datatype IntervalData = IntervalData(quality: string, interval: string, semitones: nat)

  /** One key of `INTERVALS_BY_NUMBER` with its entries, in the record's key order. */
  datatype NumberGroup = NumberGroup(number: string, intervals: seq<IntervalData>)

  const IntervalsByNumber: seq<NumberGroup> := [
    NumberGroup("2nd", [IntervalData("minor", "m2", 1), IntervalData("major", "M2", 2)]),
    NumberGroup("3rd", [IntervalData("minor", "m3", 3), IntervalData("major", "M3", 4)]),
    NumberGroup("4th", [IntervalData("perfect", "P4", 5), IntervalData("augmented", "A4", 6)]),
    NumberGroup("5th", [IntervalData("diminished", "d5", 6), IntervalData("perfect", "P5", 7)]),
    NumberGroup("6th", [IntervalData("minor", "m6", 8), IntervalData("major", "M6", 9)]),
    NumberGroup("7th", [IntervalData("minor", "m7", 10), IntervalData("major", "M7", 11)])
  ]

  /** The filler names of `generateOptions`: twelve sharps and naturals, then five flats. */
  const AllNotes: seq<string> :=
    ["C", "C#", "D", "D#", "E", "F", "F#", "G", "G#", "A", "A#", "B", "Db", "Eb", "Gb", "Ab", "Bb"]

  function Numbers(groups: seq<NumberGroup>): (r: seq<string>)
    ensures |r| == |groups| && forall k | 0 <= k < |groups| :: r[k] == groups[k].number
  {
    seq(|groups|, k requires 0 <= k < |groups| => groups[k].number)
  }

  /** `INTERVALS_BY_NUMBER[number]`: the entries of the first group with that key. */
  function Lookup(groups: seq<NumberGroup>, number: string): (r: Option<seq<IntervalData>>)
    ensures r.None? <==> number !in Numbers(groups)
    ensures r.Some? ==> exists k | 0 <= k < |groups| :: groups[k].number == number && r.value == groups[k].intervals
  {
    if groups == [] then None
    else if groups[0].number == number then Some(groups[0].intervals)
    else
      var r := Lookup(groups[1..], number);
      assert Numbers(groups) == [groups[0].number] + Numbers(groups[1..]);
      if r.Some? then
        var k :| 0 <= k < |groups[1..]| && groups[1..][k].number == number && r.value == groups[1..][k].intervals;
        assert groups[k + 1] == groups[1..][k];
        r
      else r
  }

  /** With keys that differ, each key finds its own group. */
  lemma LookupFinds(groups: seq<NumberGroup>, k: nat)
    requires k < |groups| && Distinct(Numbers(groups))
    ensures Lookup(groups, groups[k].number) == Some(groups[k].intervals)
  {
    var names := Numbers(groups);
    var r := Lookup(groups, groups[k].number);
    assert names[k] == groups[k].number;
    var j :| 0 <= j < |groups| && groups[j].number == groups[k].number && r.value == groups[j].intervals;
    SameEntrySameIndex(names, j, k);
  }

  /** In a list without repeats, equal entries sit at the same index. */
  lemma SameEntrySameIndex<T>(s: seq<T>, i: nat, j: nat)
    requires Distinct(s) && i < |s| && j < |s| && s[i] == s[j]
    ensures i == j
  {
  }

  /** The table: six numbers with different keys, each in two qualities a semitone apart. */
  lemma TableFacts()
    ensures |IntervalsByNumber| == 6 && Distinct(Numbers(IntervalsByNumber))
    ensures forall k | 0 <= k < 6 ::
      |IntervalsByNumber[k].intervals| == 2 &&
      IntervalsByNumber[k].intervals[1].semitones == IntervalsByNumber[k].intervals[0].semitones + 1
  {
    assert NamesTold(Numbers(IntervalsByNumber));
    NamesToldDistinct(Numbers(IntervalsByNumber));
  }

  /**
   * Every semitone count of the table is the one the interval-construction exercise's
   * `semitones` record gives the same interval name.
   */
  lemma TableAgreesWithSemitones()
    ensures forall k, e | 0 <= k < |IntervalsByNumber| && 0 <= e < |IntervalsByNumber[k].intervals| ::
      IntervalConstruction.Semitones(IntervalsByNumber[k].intervals[e].interval) ==
      IntervalsByNumber[k].intervals[e].semitones
  {
  }

  /** The filler names are seventeen different names. */
  lemma AllNotesFacts()
    ensures |AllNotes| == 17 && Distinct(AllNotes)
  {
    forall i, j | 0 <= i < j < |AllNotes| ensures AllNotes[i] != AllNotes[j] {
      assert |AllNotes[i]| != |AllNotes[j]| || AllNotes[i][0] != AllNotes[j][0] ||
        AllNotes[i][|AllNotes[i]| - 1] != AllNotes[j][|AllNotes[j]| - 1];
    }
  }

  /** The MIDI number `semitones` above the root: `rootMidi + semitones`. */
  function TargetMidi(rootMidi: int, semitones: int): int
  {
    rootMidi + semitones
  }

  /**
   * The note one entry adds in `generateOptions`: the pitch class of the note its
   * semitones above the root in octave 4, or "" where `rootMidi`, `note` or `pc` is falsy.
   */
  function SeedName(rootNote: string, data: IntervalData): string {
    match Midi(rootNote + "4")
    case None => ""
    case Some(rootMidi) =>
      if rootMidi == 0 then ""
      else
        var note := FromMidi(TargetMidi(rootMidi, data.semitones));
        if note == "" then "" else PitchClass(note)
  }

  /** The options after the `forEach` over the entries: each new, non-empty name pushed. */
  function Seeded(options: seq<string>, rootNote: string, entries: seq<IntervalData>): (r: seq<string>)
  {
    if entries == [] then options
    else
      var rest := Seeded(options, rootNote, entries[..|entries| - 1]);
      var pc := SeedName(rootNote, entries[|entries| - 1]);
      if pc != "" && pc !in rest then rest + [pc] else rest
  }

  /** Seeding keeps what was there in front, adds no duplicate and at most one name per entry. */
  lemma {:induction false} SeededFacts(options: seq<string>, rootNote: string, entries: seq<IntervalData>)
    requires Distinct(options)
    ensures Distinct(Seeded(options, rootNote, entries))
    ensures |options| <= |Seeded(options, rootNote, entries)| <= |options| + |entries|
    ensures Seeded(options, rootNote, entries)[..|options|] == options
  {
    if entries != [] {
      var rest := Seeded(options, rootNote, entries[..|entries| - 1]);
      SeededFacts(options, rootNote, entries[..|entries| - 1]);
      var pc := SeedName(rootNote, entries[|entries| - 1]);
      if pc != "" && pc !in rest {
        DistinctAppend(rest, [pc]);
        assert (rest + [pc])[..|options|] == rest[..|options|];
      }
    }
  }

  /** `shuffledNotes.pop()` called n times: the last n entries, last one first. */
  function Popped(s: seq<string>, n: nat): (r: seq<string>)
    requires n <= |s|
    ensures |r| == n
  {
    if n == 0 then [] else Popped(s, n - 1) + [s[|s| - n]]
  }

  /** How many names the `while` loop pops: up to six options, or until the names run out. */
  function FillCount(have: nat, available: nat): (n: nat)
    ensures n <= available
    ensures have + n == 6 || n == available || have >= 6
  {
    if have >= 6 then 0 else if 6 - have < available then 6 - have else available
  }

  /**
   * The seeded options followed by the names the `while` loop pops from a shuffled copy of
   * `names` without them.
   */
  function Filled(seeded: seq<string>, names: seq<string>, rnd1: Random): seq<string> {
    var shuffled := Shuffled(WithoutAll(names, seeded), rnd1);
    ShuffledIsPermutation(WithoutAll(names, seeded), rnd1);
    seeded + Popped(shuffled, FillCount(|seeded|, |shuffled|))
  }

  /** The options before the final shuffle: seeded names, then popped filler names. */
  function Assembled(correctNote: string, rootNote: string, entries: seq<IntervalData>, rnd1: Random)
    : seq<string>
  {
    Filled(Seeded([correctNote], rootNote, entries), AllNotes, rnd1)
  }

  /** The result of `generateOptions`, for the draws of its two shuffles. */
  function QualityOptions(correctNote: string, rootNote: string, intervalNumber: string,
                          rnd1: Random, rnd2: Random): seq<string>
    requires Lookup(IntervalsByNumber, intervalNumber).Some?
  {
    Shuffled(Assembled(correctNote, rootNote, Lookup(IntervalsByNumber, intervalNumber).value, rnd1), rnd2)
  }

  /**
   * `generateOptions`: the correct note, the new names of the number's entries, then names
   * popped from a shuffled list of the names not yet present until there are six; shuffled.
   * An `intervalNumber` that is not a key makes the source throw, so it is required.
   */
  method GenerateOptions(correctNote: string, rootNote: string, intervalNumber: string,
                         rnd1: Random, rnd2: Random)
    returns (options: seq<string>)
    requires Lookup(IntervalsByNumber, intervalNumber).Some?
    ensures options == QualityOptions(correctNote, rootNote, intervalNumber, rnd1, rnd2)
  {
    var intervalsOfNumber := Lookup(IntervalsByNumber, intervalNumber).value;
    options := SeedOptions(correctNote, rootNote, intervalsOfNumber);
    var shuffledNotes := Shuffle(WithoutAll(AllNotes, options), rnd1);
    options := PopFillers(options, shuffledNotes);
    options := Shuffle(options, rnd2);
  }

  /** The seeding half of `generateOptions`: the `forEach` over the number's entries. */
  method SeedOptions(correctNote: string, rootNote: string, intervalsOfNumber: seq<IntervalData>)
    returns (options: seq<string>)
    ensures options == Seeded([correctNote], rootNote, intervalsOfNumber)
  {
    options := [correctNote];
    for i := 0 to |intervalsOfNumber|
      invariant options == Seeded([correctNote], rootNote, intervalsOfNumber[..i])
    {
      assert intervalsOfNumber[..i + 1][..i] == intervalsOfNumber[..i];
      var intData := intervalsOfNumber[i];
      var rootMidi := Midi(rootNote + "4");
      if rootMidi.Some? && rootMidi.value != 0 {
        var noteMidi := TargetMidi(rootMidi.value, intData.semitones);
        var note := FromMidi(noteMidi);
        if note != "" {
          var pc := PitchClass(note);
          if pc != "" && pc !in options {
            options := options + [pc];
          }
        }
      }
    }
    assert intervalsOfNumber[..|intervalsOfNumber|] == intervalsOfNumber;
  }

  /** The `while` loop of `generateOptions`: pop names onto the options until there are six. */
  method PopFillers(seeded: seq<string>, shuffled: seq<string>) returns (options: seq<string>)
    ensures options == seeded + Popped(shuffled, FillCount(|seeded|, |shuffled|))
  {
    options := seeded;
    var shuffledNotes := shuffled;
    ghost var popped := 0;
    while |options| < 6 && |shuffledNotes| > 0
      invariant popped <= |shuffled| && shuffledNotes == shuffled[..|shuffled| - popped]
      invariant options == seeded + Popped(shuffled, popped)
      invariant |options| == |seeded| + popped
      invariant |seeded| < 6 ==> |options| <= 6
      invariant |seeded| >= 6 ==> popped == 0
      decreases |shuffledNotes|
    {
      var last := shuffledNotes[|shuffledNotes| - 1];
      assert last == shuffled[|shuffled| - 1 - popped];
      assert seeded + Popped(shuffled, popped) + [last] == seeded + Popped(shuffled, popped + 1);
      options := options + [last];
      shuffledNotes := shuffledNotes[..|shuffledNotes| - 1];
      assert shuffledNotes == shuffled[..|shuffled| - (popped + 1)];
      popped := popped + 1;
    }
    assert popped == FillCount(|seeded|, |shuffled|);
  }

  /** Popped names are the list's own, and a duplicate-free list pops different names. */
  lemma {:induction false} PoppedFacts(s: seq<string>, n: nat)
    requires n <= |s|
    ensures forall x | x in Popped(s, n) :: x in s
    ensures Distinct(s) ==> Distinct(Popped(s, n))
  {
    if n > 0 {
      PoppedFacts(s, n - 1);
      if Distinct(s) {
        var p := Popped(s, n - 1);
        forall i | 0 <= i < |p| ensures p[i] != s[|s| - n] {
          PoppedAt(s, n - 1, i);
          assert s[|s| - 1 - i] != s[|s| - n];
        }
        DistinctAppend(Popped(s, n - 1), [s[|s| - n]]);
      }
    }
  }

  /** Pop number i + 1 takes the entry i + 1 places from the end. */
  lemma {:induction false} PoppedAt(s: seq<string>, n: nat, i: nat)
    requires i < n <= |s|
    ensures Popped(s, n)[i] == s[|s| - 1 - i]
  {
    if i < n - 1 {
      PoppedAt(s, n - 1, i);
    }
  }

  /**
   * Filling a duplicate-free start of at most six from at least six different names gives
   * exactly six different options that begin with the start.
   */
  lemma FilledFacts(seeded: seq<string>, names: seq<string>, rnd1: Random)
    requires Distinct(seeded) && |seeded| <= 6
    requires Distinct(names) && |names| >= 6
    ensures |Filled(seeded, names, rnd1)| == 6
    ensures Distinct(Filled(seeded, names, rnd1))
    ensures Filled(seeded, names, rnd1)[..|seeded|] == seeded
  {
    var filtered := WithoutAll(names, seeded);
    WithoutAllLength(names, seeded);
    var shuffled := Shuffled(filtered, rnd1);
    ShuffledIsPermutation(filtered, rnd1);
    ShuffledMembers(filtered, rnd1);
    var n := FillCount(|seeded|, |shuffled|);
    assert n == 6 - |seeded|;
    var popped := Popped(shuffled, n);
    PoppedFacts(shuffled, n);
    forall i, j | 0 <= i < |seeded| && 0 <= j < |popped| ensures seeded[i] != popped[j] {
      assert popped[j] in shuffled;
    }
    DistinctAppend(seeded, popped);
    assert (seeded + popped)[..|seeded|] == seeded;
  }

  /**
   * For every number of the table and any correct note, the options number exactly six,
   * have no duplicates, hold the correct note exactly once, and are a reordering of the
   * assembled list (at most three seeded, the other three or more popped).
   */
  lemma QualityOptionsFacts(correctNote: string, rootNote: string, intervalNumber: string,
                            rnd1: Random, rnd2: Random)
    requires Lookup(IntervalsByNumber, intervalNumber).Some?
    ensures var entries := Lookup(IntervalsByNumber, intervalNumber).value;
      multiset(QualityOptions(correctNote, rootNote, intervalNumber, rnd1, rnd2)) ==
      multiset(Assembled(correctNote, rootNote, entries, rnd1))
    ensures |QualityOptions(correctNote, rootNote, intervalNumber, rnd1, rnd2)| == 6
    ensures Distinct(QualityOptions(correctNote, rootNote, intervalNumber, rnd1, rnd2))
    ensures multiset(QualityOptions(correctNote, rootNote, intervalNumber, rnd1, rnd2))[correctNote] == 1
  {
    var entries := Lookup(IntervalsByNumber, intervalNumber).value;
    TableFacts();
    AllNotesFacts();
    var seeded := Seeded([correctNote], rootNote, entries);
    SeededFacts([correctNote], rootNote, entries);
    FilledFacts(seeded, AllNotes, rnd1);
    var assembled := Assembled(correctNote, rootNote, entries, rnd1);
    assert seeded[..1] == [correctNote];
    assert assembled[..|seeded|] == seeded;
    assert assembled[0] == assembled[..|seeded|][0] == seeded[..1][0];
    ShuffledIsPermutation(assembled, rnd2);
    ShuffledMembers(assembled, rnd2);
    DistinctOccursOnce(Shuffled(assembled, rnd2), correctNote);
  }

  /**
   * The key `Object.keys(INTERVALS_BY_NUMBER)` yields for a draw: a key of the table, whose
   * entries come in two qualities.
   */
  function DrawnNumber(numberDraw: nat): (number: string)
    ensures Lookup(IntervalsByNumber, number).Some?
    ensures |Lookup(IntervalsByNumber, number).value| == 2
  {
    TableFacts();
    LookupFinds(IntervalsByNumber, RandomIndex(numberDraw, |IntervalsByNumber|));
    IntervalsByNumber[RandomIndex(numberDraw, |IntervalsByNumber|)].number
  }

  /** The entry `intervalsOfNumber[Math.floor(Math.random() * 2)]` yields for the draws. */
  function DrawnInterval(numberDraw: nat, qualityDraw: nat): (data: IntervalData)
    ensures data in Lookup(IntervalsByNumber, DrawnNumber(numberDraw)).value
  {
    var intervalsOfNumber := Lookup(IntervalsByNumber, DrawnNumber(numberDraw)).value;
    intervalsOfNumber[RandomIndex(qualityDraw, |intervalsOfNumber|)]
  }

  /**
   * `generateQuestion`: treble (octave 4) or bass (octave 3), a natural root, a number
   * key in the record's order and one of its two entries; the answer is the pitch class
   * of the note the entry's semitones above the root. The source's retries never happen:
   * the root has a MIDI number (48 or more) and `fromMidi` always spells a note.
   */
  method GenerateQuestion(clefCoin: bool, rootDraw: nat, numberDraw: nat, qualityDraw: nat,
                          rnd1: Random, rnd2: Random)
    returns (q: ExerciseQuestion)
    ensures var root := Notes[RandomIndex(rootDraw, 7)];
      q.clef == (if clefCoin then Treble else Bass) && q.keySignature == "C" &&
      q.displayNotes == [root + IntToString(if clefCoin then 4 else 3)] &&
      q.options == QualityOptions(q.correctAnswer, root, DrawnNumber(numberDraw), rnd1, rnd2)
    ensures Midi(q.displayNotes[0]).Some?
    ensures q.correctAnswer ==
      PitchClass(FromMidi(TargetMidi(Midi(q.displayNotes[0]).value, DrawnInterval(numberDraw, qualityDraw).semitones)))
  {
    var clef := if clefCoin then Treble else Bass;
    var octave := if clef == Treble then 4 else 3;
    NotesFacts();
    var rootNote := Notes[RandomIndex(rootDraw, |Notes|)];
    var intervalNumber := DrawnNumber(numberDraw);
    var intervalsOfNumber := Lookup(IntervalsByNumber, intervalNumber).value;
    var chosenInterval := DrawnInterval(numberDraw, qualityDraw);
    var rootWithOctave := rootNote + IntToString(octave);
    IntervalConstruction.RootMidi(rootNote, octave);
    var rootMidi := Midi(rootWithOctave).value;
    var targetMidi := TargetMidi(rootMidi, chosenInterval.semitones);
    var targetNote := FromMidi(targetMidi);
    IntervalConstruction.DownwardAnswer(targetMidi);
    var targetPitchClass := IntervalConstruction.OrElse(PitchClass(targetNote), targetNote);
    var options := GenerateOptions(targetPitchClass, rootNote, intervalNumber, rnd1, rnd2);
    q := ExerciseQuestion(clef, "C", [rootWithOctave], targetPitchClass, options);
  }
}
