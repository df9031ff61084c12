/**
 * The key-signature exercises (src/exercises/staff-reading/key-signatures.ts): name the
 * key of a signature, and name the notes a signature alters.
 */
module KeySignatures {
  import opened Wrappers
  import opened Seqs
  import opened Text
  import opened Pitch
  import opened MusicHelpers
  import opened Lessons
  import opened Options
  import opened Exercises

  datatype KeyData = KeyData(key: string, sharps: nat, flats: nat)

  const MajorKeys: seq<KeyData> := [
    KeyData("C", 0, 0), KeyData("G", 1, 0), KeyData("D", 2, 0), KeyData("A", 3, 0),
    KeyData("E", 4, 0), KeyData("B", 5, 0), KeyData("F#", 6, 0), KeyData("F", 0, 1),
    KeyData("Bb", 0, 2), KeyData("Eb", 0, 3), KeyData("Ab", 0, 4), KeyData("Db", 0, 5),
    KeyData("Gb", 0, 6)]

  const RelativeMinors: map<string, string> := map[
    "C" := "Am", "G" := "Em", "D" := "Bm", "A" := "F#m", "E" := "C#m", "B" := "G#m",
    "F#" := "D#m", "F" := "Dm", "Bb" := "Gm", "Eb" := "Cm", "Ab" := "Fm", "Db" := "Bbm",
    "Gb" := "Ebm"]

  /** `Object.values(RELATIVE_MINORS)`, in insertion order. */
  const RelativeMinorNames: seq<string> :=
    ["Am", "Em", "Bm", "F#m", "C#m", "G#m", "D#m", "Dm", "Gm", "Cm", "Fm", "Bbm", "Ebm"]

  const SharpOrder: seq<string> := ["F#", "C#", "G#", "D#", "A#", "E#", "B#"]
  const FlatOrder: seq<string> := ["Bb", "Eb", "Ab", "Db", "Gb", "Cb", "Fb"]

  /** `MAJOR_KEYS.find(k => k.key === name)`. */
  function FindKey(keys: seq<KeyData>, name: string): (r: Option<KeyData>)
    ensures r.Some? ==> r.value in keys && r.value.key == name
    ensures r.None? <==> forall d | d in keys :: d.key != name
  {
    if |keys| == 0 then None
    else if keys[0].key == name then Some(keys[0])
    else FindKey(keys[1..], name)
  }

  /**
   * `getAffectedNotes`: the first `sharps` of the sharp order or the first `flats` of the
   * flat order. The source looks the key up in MAJOR_KEYS; here the table is a parameter.
   */
  function GetAffectedNotes(keys: seq<KeyData>, keySignature: string): seq<string> {
    match FindKey(keys, keySignature)
    case None => []
    case Some(d) =>
      if d.sharps > 0 then Take(SharpOrder, d.sharps)
      else if d.flats > 0 then Take(FlatOrder, d.flats)
      else []
  }

  /** `keys.map(k => k.key)`. */
  function KeyNames(keys: seq<KeyData>): (r: seq<string>)
    ensures |r| == |keys| && forall i | 0 <= i < |keys| :: r[i] == keys[i].key
  {
    seq(|keys|, i requires 0 <= i < |keys| => keys[i].key)
  }

  /** The major-key names, with the relative minors after them when asked for. */
  function AllKeys(includeMinor: bool): seq<string> {
    if includeMinor then KeyNames(MajorKeys) + RelativeMinorNames else KeyNames(MajorKeys)
  }

  /** `generateOptions(correctKey, includeMinor)`. */
  method GenerateOptionsForKey(correctKey: string, includeMinor: bool, rnd1: Random, rnd2: Random)
    returns (options: seq<string>)
    ensures options == PickOptions(correctKey, AllKeys(includeMinor), 5, rnd1, rnd2)
  {
    options := GenerateOptions(correctKey, AllKeys(includeMinor), 5, rnd1, rnd2);
  }

  /**
   * `generateKeySignatureQuestion`: a random major key's signature; the answer is the key,
   * or its relative minor when minors are included and the coin says so.
   */
  method GenerateKeySignatureQuestion(includeMinor: bool, keyDraw: nat, coin: bool, rnd1: Random, rnd2: Random)
    returns (q: ExerciseQuestion)
    ensures var d := MajorKeys[RandomIndex(keyDraw, |MajorKeys|)];
      q.keySignature == d.key && q.clef == Treble && q.displayNotes == [] &&
      q.correctAnswer == (if !includeMinor || coin then d.key else RelativeMinors[d.key])
    ensures q.options == PickOptions(q.correctAnswer, AllKeys(includeMinor), 5, rnd1, rnd2)
    ensures q.correctAnswer in AllKeys(includeMinor)
  {
    var keyData := MajorKeys[RandomIndex(keyDraw, |MajorKeys|)];
    var useMajor := !includeMinor || coin;
    assert keyData.key in RelativeMinors by {
      KeysHaveMinors();
    }
    var correctKey := if useMajor then keyData.key else RelativeMinors[keyData.key];
    assert correctKey in AllKeys(includeMinor) by {
      RelativeMinorNamesMatch();
      var k := RandomIndex(keyDraw, |MajorKeys|);
      assert KeyNames(MajorKeys)[k] == keyData.key;
      if !useMajor {
        assert AllKeys(includeMinor)[|MajorKeys| + k] == RelativeMinorNames[k];
      }
    }
    var options := GenerateOptionsForKey(correctKey, includeMinor, rnd1, rnd2);
    q := ExerciseQuestion(Treble, keyData.key, [], correctKey, options);
  }

  /** The list of relative minors follows the key table: entry i is the minor of key i. */
  lemma RelativeMinorNamesMatch()
    ensures forall i | 0 <= i < |MajorKeys| :: RelativeMinors[MajorKeys[i].key] == RelativeMinorNames[i]
  {
  }

  /** Every option list of the key-signature question has six different names, the answer once. */
  lemma KeySignatureOptions(correct: string, includeMinor: bool, rnd1: Random, rnd2: Random)
    requires correct in AllKeys(includeMinor)
    ensures |PickOptions(correct, AllKeys(includeMinor), 5, rnd1, rnd2)| == 6
    ensures Distinct(PickOptions(correct, AllKeys(includeMinor), 5, rnd1, rnd2))
    ensures multiset(PickOptions(correct, AllKeys(includeMinor), 5, rnd1, rnd2))[correct] == 1
  {
    AllKeysDistinct(includeMinor);
    PickOptionsFacts(correct, AllKeys(includeMinor), 5, rnd1, rnd2);
  }

  lemma MinorNamesTold()
    ensures NamesTold(RelativeMinorNames)
    ensures forall i | 0 <= i < |RelativeMinorNames| ::
      |RelativeMinorNames[i]| > 0 && RelativeMinorNames[i][|RelativeMinorNames[i]| - 1] == 'm'
  {
  }

  lemma MajorNamesLast()
    ensures forall i | 0 <= i < |MajorKeys| ::
      |MajorKeys[i].key| > 0 && MajorKeys[i].key[|MajorKeys[i].key| - 1] != 'm'
  {
  }

  /** The option pool has no duplicates: 13 major names, and 13 minor names after them. */
  lemma AllKeysDistinct(includeMinor: bool)
    ensures Distinct(AllKeys(includeMinor))
    ensures |AllKeys(includeMinor)| == if includeMinor then 26 else 13
  {
    var majors := KeyNames(MajorKeys);
    MajorKeysNames();
    assert NamesTold(majors) by {
      forall i, j | 0 <= i < j < |majors|
        ensures |majors[i]| > 0 && |majors[j]| > 0 && (majors[i][0] != majors[j][0] || |majors[i]| != |majors[j]|)
      {
      }
    }
    NamesToldDistinct(majors);
    if includeMinor {
      MinorNamesTold();
      MajorNamesLast();
      NamesToldDistinct(RelativeMinorNames);
      forall i, j | 0 <= i < |majors| && 0 <= j < |RelativeMinorNames| ensures majors[i] != RelativeMinorNames[j] {
        assert majors[i][|majors[i]| - 1] != RelativeMinorNames[j][|RelativeMinorNames[j]| - 1];
      }
      DistinctAppend(majors, RelativeMinorNames);
    }
  }

  lemma KeysHaveMinors()
    ensures forall d | d in MajorKeys :: d.key in RelativeMinors
  {
  }

  /**
   * Each relative minor of the table is named by a root and "m", and the root lies three
   * semitones below the major key.
   */
  lemma RelativeMinorRoot(key: string) returns (root: string)
    requires key in RelativeMinors
    ensures RelativeMinors[key] == root + "m"
    ensures Chroma(root).Some? && Chroma(key).Some?
    ensures Chroma(key).value == (Chroma(root).value + 3) % 12
  {
    if key == "C" || key == "G" || key == "D" || key == "A" {
      root := RelativeMinorsPart1(key);
    } else if key == "E" || key == "B" || key == "F#" {
      root := RelativeMinorsPart2(key);
    } else if key == "F" || key == "Bb" || key == "Eb" {
      root := RelativeMinorsPart3(key);
    } else {
      root := RelativeMinorsPart4(key);
    }
  }

  lemma RelativeMinorsPart1(key: string) returns (root: string)
    requires key in {"C", "G", "D", "A"}
    ensures RelativeMinors[key] == root + "m"
    ensures Chroma(root).Some? && Chroma(key).Some?
    ensures Chroma(key).value == (Chroma(root).value + 3) % 12
  {
    if key == "C" {
      root := "A";
      assert RelativeMinors[key] == root + "m";
      NamesThirdApart(root, key, Note('A', 0, None), Note('C', 0, None), 9);
    } else if key == "G" {
      root := "E";
      assert RelativeMinors[key] == root + "m";
      NamesThirdApart(root, key, Note('E', 0, None), Note('G', 0, None), 4);
    } else if key == "D" {
      root := "B";
      assert RelativeMinors[key] == root + "m";
      NamesThirdApart(root, key, Note('B', 0, None), Note('D', 0, None), 11);
    } else {
      root := "F#";
      assert RelativeMinors[key] == root + "m";
      NamesThirdApart(root, key, Note('F', 1, None), Note('A', 0, None), 6);
    }
  }

  lemma RelativeMinorsPart2(key: string) returns (root: string)
    requires key in {"E", "B", "F#"}
    ensures RelativeMinors[key] == root + "m"
    ensures Chroma(root).Some? && Chroma(key).Some?
    ensures Chroma(key).value == (Chroma(root).value + 3) % 12
  {
    if key == "E" {
      root := "C#";
      assert RelativeMinors[key] == root + "m";
      NamesThirdApart(root, key, Note('C', 1, None), Note('E', 0, None), 1);
    } else if key == "B" {
      root := "G#";
      assert RelativeMinors[key] == root + "m";
      NamesThirdApart(root, key, Note('G', 1, None), Note('B', 0, None), 8);
    } else {
      root := "D#";
      assert RelativeMinors[key] == root + "m";
      NamesThirdApart(root, key, Note('D', 1, None), Note('F', 1, None), 3);
    }
  }

  lemma RelativeMinorsPart3(key: string) returns (root: string)
    requires key in {"F", "Bb", "Eb"}
    ensures RelativeMinors[key] == root + "m"
    ensures Chroma(root).Some? && Chroma(key).Some?
    ensures Chroma(key).value == (Chroma(root).value + 3) % 12
  {
    if key == "F" {
      root := "D";
      assert RelativeMinors[key] == root + "m";
      NamesThirdApart(root, key, Note('D', 0, None), Note('F', 0, None), 2);
    } else if key == "Bb" {
      root := "G";
      assert RelativeMinors[key] == root + "m";
      NamesThirdApart(root, key, Note('G', 0, None), Note('B', -1, None), 7);
    } else {
      root := "C";
      assert RelativeMinors[key] == root + "m";
      NamesThirdApart(root, key, Note('C', 0, None), Note('E', -1, None), 0);
    }
  }

  lemma RelativeMinorsPart4(key: string) returns (root: string)
    requires key in {"Ab", "Db", "Gb"}
    ensures RelativeMinors[key] == root + "m"
    ensures Chroma(root).Some? && Chroma(key).Some?
    ensures Chroma(key).value == (Chroma(root).value + 3) % 12
  {
    if key == "Ab" {
      root := "F";
      assert RelativeMinors[key] == root + "m";
      NamesThirdApart(root, key, Note('F', 0, None), Note('A', -1, None), 5);
    } else if key == "Db" {
      root := "Bb";
      assert RelativeMinors[key] == root + "m";
      NamesThirdApart(root, key, Note('B', -1, None), Note('D', -1, None), 10);
    } else {
      root := "Eb";
      assert RelativeMinors[key] == root + "m";
      NamesThirdApart(root, key, Note('E', -1, None), Note('G', -1, None), 3);
    }
  }

  /** `keys.filter(k => k.sharps > 0 || k.flats > 0)`. */
  function AccidentalKeys(keys: seq<KeyData>): (r: seq<KeyData>)
    ensures forall d :: d in r <==> d in keys && (d.sharps > 0 || d.flats > 0)
  {
    if |keys| == 0 then []
    else if keys[0].sharps > 0 || keys[0].flats > 0 then [keys[0]] + AccidentalKeys(keys[1..])
    else AccidentalKeys(keys[1..])
  }

  /** `keys.filter(k => k.key !== name)`. */
  function OtherKeys(keys: seq<KeyData>, name: string): (r: seq<KeyData>)
    ensures forall d :: d in r <==> d in keys && d.key != name
    ensures |r| <= |keys|
  {
    if |keys| == 0 then []
    else if keys[0].key == name then OtherKeys(keys[1..], name)
    else [keys[0]] + OtherKeys(keys[1..], name)
  }

  /** The answer text of a key: its altered notes joined by ", ". */
  function AffectedText(keys: seq<KeyData>, key: string): string {
    Join(GetAffectedNotes(keys, key), ", ")
  }

  function AffectedTexts(keys: seq<KeyData>, ds: seq<KeyData>): (r: seq<string>)
    ensures |r| == |ds| && forall i | 0 <= i < |ds| :: r[i] == AffectedText(keys, ds[i].key)
  {
    seq(|ds|, i requires 0 <= i < |ds| => AffectedText(keys, ds[i].key))
  }

  lemma AffectedTextsStep(keys: seq<KeyData>, ds: seq<KeyData>, i: nat)
    requires i < |ds|
    ensures AffectedTexts(keys, ds[..i + 1]) == AffectedTexts(keys, ds[..i]) + [AffectedText(keys, ds[i].key)]
  {
    assert ds[..i + 1] == ds[..i] + [ds[i]];
  }

  /** The source's loop: push the texts of the first three shuffled keys (fewer if there are fewer). */
  method PushWrongTexts(keys: seq<KeyData>, options: seq<string>, shuffledKeys: seq<KeyData>)
    returns (r: seq<string>)
    ensures r == options + AffectedTexts(keys, shuffledKeys[..if |shuffledKeys| < 3 then |shuffledKeys| else 3])
  {
    r := options;
    var i := 0;
    while i < 3 && i < |shuffledKeys|
      invariant 0 <= i <= 3 && i <= |shuffledKeys|
      invariant r == options + AffectedTexts(keys, shuffledKeys[..i])
    {
      r := r + [AffectedText(keys, shuffledKeys[i].key)];
      AffectedTextsStep(keys, shuffledKeys, i);
      i := i + 1;
    }
  }

  /**
   * `generateAffectedNotesQuestion` over a key table (the source uses MAJOR_KEYS): a key
   * with accidentals; the options are its altered-notes text and those of up to three
   * other shuffled keys, shuffled again. In a well-formed table the key's text is there
   * once; MajorKeysTable shows MAJOR_KEYS is one, with twelve keys to draw from.
   */
  method GenerateAffectedNotesQuestion(keys: seq<KeyData>, keyDraw: nat, rnd1: Random, rnd2: Random)
    returns (q: ExerciseQuestion)
    requires |AccidentalKeys(keys)| > 0
    ensures var acc := AccidentalKeys(keys);
      var d := acc[RandomIndex(keyDraw, |acc|)];
      q.keySignature == d.key && q.correctAnswer == AffectedText(keys, d.key) &&
      q.clef == Treble && q.displayNotes == []
    ensures q.correctAnswer in q.options && |q.options| <= 4
    ensures NamesDistinct(AccidentalKeys(keys)) ==>
      |q.options| == (if |AccidentalKeys(keys)| < 4 then |AccidentalKeys(keys)| else 4)
    ensures TableOk(keys) ==> multiset(q.options)[q.correctAnswer] == 1
  {
    var keysWithAccidentals := AccidentalKeys(keys);
    var idx := RandomIndex(keyDraw, |keysWithAccidentals|);
    var keyData := keysWithAccidentals[idx];
    var correctAnswer := AffectedText(keys, keyData.key);
    var options := [correctAnswer];
    var otherKeys := OtherKeys(keysWithAccidentals, keyData.key);
    var shuffledKeys := Shuffle(otherKeys, rnd1);
    options := PushWrongTexts(keys, options, shuffledKeys);
    var i := if |shuffledKeys| < 3 then |shuffledKeys| else 3;
    if NamesDistinct(keysWithAccidentals) {
      OtherKeysLength(keysWithAccidentals, idx);
    }
    if TableOk(keys) {
      ShuffledMembers(otherKeys, rnd1);
      AssembledOnce(keys, keyData, shuffledKeys, i);
    }
    var shuffledOptions := Shuffle(options, rnd2);
    assert correctAnswer in multiset(shuffledOptions) by {
      assert options[0] == correctAnswer;
    }
    q := ExerciseQuestion(Treble, keyData.key, [], correctAnswer, shuffledOptions);
  }

  /** Names told apart by first letter or by length (a cheap witness that they differ). */
  predicate NamesDistinct(keys: seq<KeyData>) {
    forall i, j | 0 <= i < j < |keys| :: NamesDiffer(keys[i], keys[j])
  }

  predicate NamesDiffer(a: KeyData, b: KeyData) {
    |a.key| > 0 && |b.key| > 0 && (a.key[0] != b.key[0] || |a.key| != |b.key|)
  }

  /** No two entries of a table have the same sharps and flats. */
  predicate CountsDistinct(keys: seq<KeyData>) {
    forall i, j | 0 <= i < j < |keys| ::
      keys[i].sharps != keys[j].sharps || keys[i].flats != keys[j].flats
  }

  /** Sharps or flats, never both, at most seven. */
  predicate Bounded(keys: seq<KeyData>) {
    forall i | 0 <= i < |keys| ::
      (keys[i].sharps == 0 || keys[i].flats == 0) && keys[i].sharps <= 7 && keys[i].flats <= 7
  }

  predicate TableOk(keys: seq<KeyData>) {
    NamesDistinct(keys) && CountsDistinct(keys) && Bounded(keys)
  }

  /** The key table is well formed, and its keys with accidentals are all but C. */
  lemma MajorKeysTable()
    ensures TableOk(MajorKeys)
    ensures AccidentalKeys(MajorKeys) == MajorKeys[1..]
    ensures NamesDistinct(AccidentalKeys(MajorKeys)) && |AccidentalKeys(MajorKeys)| == 12
  {
    MajorKeysNames();
    MajorKeysCounts();
    NamesDistinctTail(MajorKeys);
    AccidentalKeysAll(MajorKeys[1..]);
  }

  lemma MajorKeysNames()
    ensures NamesDistinct(MajorKeys)
  {
    var names := KeyNames(MajorKeys);
    MajorNamesListed();
    MajorNameCodes();
    CodesTell(names, MajorCodes);
    forall i, j | 0 <= i < j < |MajorKeys| ensures NamesDiffer(MajorKeys[i], MajorKeys[j]) {
      assert names[i] == MajorKeys[i].key && names[j] == MajorKeys[j].key;
    }
  }

  const MajorNames: seq<string> := ["C", "G", "D", "A", "E", "B", "F#", "F", "Bb", "Eb", "Ab", "Db", "Gb"]

  /** `NameCode` of each major key name, in table order. */
  const MajorCodes: seq<int> := [269, 285, 273, 261, 277, 265, 282, 281, 266, 278, 262, 274, 286]

  lemma MajorNamesListed()
    ensures KeyNames(MajorKeys) == MajorNames
  {
  }

  lemma MajorNameCodes()
    ensures |MajorCodes| == |MajorNames|
    ensures forall i | 0 <= i < |MajorNames| :: 0 < |MajorNames[i]| < 4 && NameCode(MajorNames[i]) == MajorCodes[i]
    ensures forall i, j | 0 <= i < j < |MajorCodes| :: MajorCodes[i] != MajorCodes[j]
  {
  }

  lemma MajorKeysCounts()
    ensures CountsDistinct(MajorKeys) && Bounded(MajorKeys)
  {
  }

  lemma NamesDistinctTail(keys: seq<KeyData>)
    requires NamesDistinct(keys) && |keys| > 0
    ensures NamesDistinct(keys[1..])
  {
    var t := keys[1..];
    forall a, b | 0 <= a < b < |t|
      ensures NamesDiffer(t[a], t[b])
    {
      assert NamesDiffer(keys[a + 1], keys[b + 1]);
    }
  }

  /** A table whose every entry has an accidental filters to itself. */
  lemma {:induction false} AccidentalKeysAll(keys: seq<KeyData>)
    requires forall i | 0 <= i < |keys| :: keys[i].sharps > 0 || keys[i].flats > 0
    ensures AccidentalKeys(keys) == keys
  {
    if |keys| > 0 {
      AccidentalKeysAll(keys[1..]);
    }
  }

  lemma {:induction false} FindKeyFinds(keys: seq<KeyData>, i: nat)
    requires NamesDistinct(keys) && i < |keys|
    ensures FindKey(keys, keys[i].key) == Some(keys[i])
  {
    if i > 0 {
      assert keys[0].key != keys[i].key;
      assert keys[1..][i - 1] == keys[i];
      FindKeyFinds(keys[1..], i - 1);
    }
  }

  /**
   * `getAffectedNotes` on a table whose names differ, whose first entry has no accidentals
   * and whose other entries have some (as in MAJOR_KEYS, see AffectedNotesOfMajorKeys): a
   * listed key gives the first `sharps` names of the sharp order or the first `flats` of
   * the flat order; exactly the first key and unlisted names give none.
   */
  lemma AffectedNotesOfTable(keys: seq<KeyData>, name: string)
    requires NamesDistinct(keys) && |keys| > 0
    requires keys[0].sharps == 0 && keys[0].flats == 0
    requires forall i | 0 < i < |keys| :: keys[i].sharps > 0 || keys[i].flats > 0
    ensures GetAffectedNotes(keys, name) == [] <==>
      name == keys[0].key || forall d | d in keys :: d.key != name
    ensures forall i | 0 <= i < |keys| && keys[i].key == name ::
      GetAffectedNotes(keys, name) == CountNames(keys[i])
  {
    if i :| 0 <= i < |keys| && keys[i].key == name {
      FindKeyFinds(keys, i);
      SameNameSameEntry(keys, i);
      if i > 0 {
        assert NamesDiffer(keys[0], keys[i]);
      }
    } else {
      forall d | d in keys ensures d.key != name {
        var k :| 0 <= k < |keys| && keys[k] == d;
      }
    }
  }

  /** In a table whose names differ, the entry of a name is the only one. */
  lemma SameNameSameEntry(keys: seq<KeyData>, i: nat)
    requires NamesDistinct(keys) && i < |keys|
    ensures forall j | 0 <= j < |keys| && keys[j].key == keys[i].key :: j == i
  {
    forall j | 0 <= j < |keys| && j != i ensures keys[j].key != keys[i].key {
      if j < i {
        assert NamesDiffer(keys[j], keys[i]);
      } else if i < j {
        assert NamesDiffer(keys[i], keys[j]);
      }
    }
  }

  /** Past the first entry, a table that filters to its tail has accidentals everywhere. */
  lemma AccidentalTail(keys: seq<KeyData>)
    requires |keys| > 0 && AccidentalKeys(keys) == keys[1..]
    ensures forall i | 0 < i < |keys| :: keys[i].sharps > 0 || keys[i].flats > 0
  {
    forall i | 0 < i < |keys| ensures keys[i].sharps > 0 || keys[i].flats > 0 {
      assert keys[i] == keys[1..][i - 1];
      assert keys[i] in AccidentalKeys(keys);
    }
  }

  /** `getAffectedNotes` itself: exactly C and names outside MAJOR_KEYS alter no notes. */
  lemma AffectedNotesOfMajorKeys(name: string)
    ensures GetAffectedNotes(MajorKeys, name) == [] <==>
      name == "C" || forall d | d in MajorKeys :: d.key != name
  {
    MajorKeysNames();
    MajorKeysAccidentals();
    AffectedNotesOfTable(MajorKeys, name);
  }

  /** Every key of MAJOR_KEYS but the first, C, has sharps or flats. */
  lemma MajorKeysAccidentals()
    ensures forall i | 0 < i < |MajorKeys| :: MajorKeys[i].sharps > 0 || MajorKeys[i].flats > 0
  {
    MajorKeysTable();
    AccidentalTail(MajorKeys);
  }

  /** `getAffectedNotes` of a key of MAJOR_KEYS: the first of the sharp or the flat order. */
  lemma AffectedNotesOfMajorKey(i: nat)
    requires i < |MajorKeys|
    ensures GetAffectedNotes(MajorKeys, MajorKeys[i].key) == CountNames(MajorKeys[i])
  {
    MajorKeysNames();
    FindKeyFinds(MajorKeys, i);
  }

  /** The names a key's counts alter: the first `sharps` sharps, else the first `flats` flats. */
  function CountNames(d: KeyData): seq<string> {
    if d.sharps > 0 then Take(SharpOrder, d.sharps) else Take(FlatOrder, d.flats)
  }

  lemma {:induction false} OtherKeysLength(keys: seq<KeyData>, i: nat)
    requires NamesDistinct(keys) && i < |keys|
    ensures |OtherKeys(keys, keys[i].key)| == |keys| - 1
  {
    if i == 0 {
      forall d | d in keys[1..] ensures d.key != keys[0].key {
        var k :| 0 <= k < |keys[1..]| && keys[1..][k] == d;
        assert keys[k + 1] == d;
      }
      OtherKeysNone(keys[1..], keys[0].key);
    } else {
      assert keys[1..][i - 1] == keys[i];
      assert keys[0].key != keys[i].key;
      OtherKeysLength(keys[1..], i - 1);
    }
  }

  lemma {:induction false} OtherKeysNone(keys: seq<KeyData>, name: string)
    requires forall d | d in keys :: d.key != name
    ensures OtherKeys(keys, name) == keys
  {
    if |keys| > 0 {
      OtherKeysNone(keys[1..], name);
    }
  }

  /** The altered-notes text of a signature with `sharps` sharps or `flats` flats. */
  function CountText(sharps: nat, flats: nat): string {
    if sharps > 0 then Join(Take(SharpOrder, sharps), ", ")
    else if flats > 0 then Join(Take(FlatOrder, flats), ", ")
    else ""
  }

  lemma OrderFacts()
    ensures forall k | 0 <= k < 7 :: |SharpOrder[k]| == 2 && |FlatOrder[k]| == 2
    ensures SharpOrder[0][0] == 'F' && FlatOrder[0][0] == 'B'
  {
  }

  /**
   * Different counts give different texts: same kind of accidental, different lengths;
   * different kinds, different first letters.
   */
  lemma CountTextInjective(s1: nat, f1: nat, s2: nat, f2: nat)
    requires (s1 > 0) != (f1 > 0) && (s2 > 0) != (f2 > 0)
    requires s1 <= 7 && f1 <= 7 && s2 <= 7 && f2 <= 7
    requires s1 != s2 || f1 != f2
    ensures CountText(s1, f1) != CountText(s2, f2)
  {
    OrderFacts();
    var a := if s1 > 0 then Take(SharpOrder, s1) else Take(FlatOrder, f1);
    var b := if s2 > 0 then Take(SharpOrder, s2) else Take(FlatOrder, f2);
    JoinPairsLength(a);
    JoinPairsLength(b);
    JoinStart(a, ", ");
    JoinStart(b, ", ");
  }

  /** The text of a listed key is the text of its counts. */
  lemma AffectedOf(keys: seq<KeyData>, d: KeyData)
    requires NamesDistinct(keys) && d in keys
    ensures AffectedText(keys, d.key) == CountText(d.sharps, d.flats)
  {
    var i :| 0 <= i < |keys| && keys[i] == d;
    FindKeyFinds(keys, i);
  }

  /** The altered-notes texts of two different keys with accidentals differ. */
  lemma AffectedTextsDiffer(keys: seq<KeyData>, a: KeyData, b: KeyData)
    requires TableOk(keys) && a in keys && b in keys && a.key != b.key
    requires a.sharps + a.flats > 0 && b.sharps + b.flats > 0
    ensures AffectedText(keys, a.key) != AffectedText(keys, b.key)
  {
    var i :| 0 <= i < |keys| && keys[i] == a;
    var j :| 0 <= j < |keys| && keys[j] == b;
    AffectedOf(keys, a);
    AffectedOf(keys, b);
    assert i != j;
    if i < j {
      assert keys[i].sharps != keys[j].sharps || keys[i].flats != keys[j].flats;
    } else {
      assert keys[j].sharps != keys[i].sharps || keys[j].flats != keys[i].flats;
    }
    CountTextInjective(a.sharps, a.flats, b.sharps, b.flats);
  }

  /** The assembled options hold the correct text once: no other key shares it. */
  lemma AssembledOnce(keys: seq<KeyData>, chosen: KeyData, shuffled: seq<KeyData>, n: nat)
    requires TableOk(keys) && chosen in AccidentalKeys(keys) && n <= |shuffled|
    requires forall x | x in shuffled :: x in AccidentalKeys(keys) && x.key != chosen.key
    ensures multiset([AffectedText(keys, chosen.key)] + AffectedTexts(keys, shuffled[..n]))[AffectedText(keys, chosen.key)] == 1
  {
    var t := AffectedText(keys, chosen.key);
    var wrong := AffectedTexts(keys, shuffled[..n]);
    forall k | 0 <= k < |wrong| ensures wrong[k] != t {
      assert shuffled[k] in shuffled;
      AffectedTextsDiffer(keys, chosen, shuffled[k]);
    }
    assert t !in wrong;
    assert multiset([t] + wrong) == multiset([t]) + multiset(wrong);
  }
}
