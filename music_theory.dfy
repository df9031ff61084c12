/**
 * The answer checker and note helpers of src/engine/MusicTheory.ts.
 *
 * Chord and key tables come from tonal (`Chord.get(name).notes`,
 * `Key.majorKey(key).chords`); here they are parameters: `target` is the list of the
 * target chord's pitch-class names, `chords` the key's seven diatonic chord names.
 */
module MusicTheory {
  import opened Wrappers
  import opened Text
  import opened Pitch

  predicate AllHaveChroma(notes: seq<string>) {
    forall i | 0 <= i < |notes| :: Chroma(notes[i]).Some?
  }

  /** The chromas of the names in order; `None` where tonal answers `undefined`. */
  function Chromas(notes: seq<string>): (r: seq<Option<int>>)
    ensures |r| == |notes| && forall i | 0 <= i < |notes| :: r[i] == Chroma(notes[i])
  {
    seq(|notes|, i requires 0 <= i < |notes| => Chroma(notes[i]))
  }

  /** The set of pitch classes sounded by the parseable names of a list. */
  ghost function ChromaSet(notes: seq<string>): set<int> {
    set i | 0 <= i < |notes| && Chroma(notes[i]).Some? :: Chroma(notes[i]).value
  }

  /**
   * `validateChord`: false when a target or an input name has no chroma; otherwise
   * every target chroma must be played and every played chroma must be in the target.
   */
  function ValidateChord(input: seq<string>, target: seq<string>): bool {
    if !AllHaveChroma(target) || !AllHaveChroma(input) then false
    else
      var tc := Chromas(target);
      var ic := Chromas(input);
      (forall c | c in tc :: c in ic) && (forall c | c in ic :: c in tc)
  }

  lemma ChromasMembership(notes: seq<string>, c: int)
    requires AllHaveChroma(notes)
    ensures Some(c) in Chromas(notes) <==> c in ChromaSet(notes)
  {
    var cs := Chromas(notes);
    if Some(c) in cs {
      var i :| 0 <= i < |cs| && cs[i] == Some(c);
      assert Chroma(notes[i]).value == c;
    }
    if c in ChromaSet(notes) {
      var i :| 0 <= i < |notes| && Chroma(notes[i]).Some? && Chroma(notes[i]).value == c;
      assert cs[i] == Some(c);
    }
  }

  /** The checker decides exactly pitch-class-set equality of two parseable lists. */
  lemma ValidateChordIsChromaSetEquality(input: seq<string>, target: seq<string>)
    ensures ValidateChord(input, target) <==>
      AllHaveChroma(input) && AllHaveChroma(target) && ChromaSet(input) == ChromaSet(target)
  {
    if AllHaveChroma(input) && AllHaveChroma(target) {
      var tc := Chromas(target);
      var ic := Chromas(input);
      forall c ensures Some(c) in tc <==> c in ChromaSet(target) {
        ChromasMembership(target, c);
      }
      forall c ensures Some(c) in ic <==> c in ChromaSet(input) {
        ChromasMembership(input, c);
      }
      if ValidateChord(input, target) {
        forall c ensures c in ChromaSet(input) <==> c in ChromaSet(target) {
          assert Some(c) in ic <==> Some(c) in tc;
        }
      } else {
        var w: Option<int> :| (w in tc && w !in ic) || (w in ic && w !in tc);
        assert w.Some?;
        assert w.value in ChromaSet(input) || w.value in ChromaSet(target);
        assert w.value !in ChromaSet(input) || w.value !in ChromaSet(target);
      }
    }
  }

  /** Two inputs that sound the same pitch classes are judged alike. */
  lemma ValidateChordDependsOnlyOnChromas(input: seq<string>, other: seq<string>, target: seq<string>)
    requires AllHaveChroma(input) <==> AllHaveChroma(other)
    requires AllHaveChroma(input) ==> ChromaSet(input) == ChromaSet(other)
    ensures ValidateChord(input, target) == ValidateChord(other, target)
  {
    ValidateChordIsChromaSetEquality(input, target);
    ValidateChordIsChromaSetEquality(other, target);
  }

  /** Reordering the played notes never changes the verdict. */
  lemma ValidateChordReorder(input: seq<string>, reordered: seq<string>, target: seq<string>)
    requires multiset(input) == multiset(reordered)
    ensures ValidateChord(input, target) == ValidateChord(reordered, target)
  {
    forall x | x in input ensures x in reordered {
      assert x in multiset(input);
    }
    forall x | x in reordered ensures x in input {
      assert x in multiset(reordered);
    }
    assert AllHaveChroma(input) <==> AllHaveChroma(reordered) by {
      if AllHaveChroma(input) {
        forall i | 0 <= i < |reordered| ensures Chroma(reordered[i]).Some? {
          assert reordered[i] in input;
        }
      }
      if AllHaveChroma(reordered) {
        forall i | 0 <= i < |input| ensures Chroma(input[i]).Some? {
          assert input[i] in reordered;
        }
      }
    }
    SameMembersSameChromaSet(input, reordered);
    ValidateChordDependsOnlyOnChromas(input, reordered, target);
  }

  lemma SameMembersSameChromaSet(a: seq<string>, b: seq<string>)
    requires forall x :: x in a <==> x in b
    ensures ChromaSet(a) == ChromaSet(b)
  {
    forall c | c in ChromaSet(a) ensures c in ChromaSet(b) {
      var i :| 0 <= i < |a| && Chroma(a[i]).Some? && Chroma(a[i]).value == c;
      assert a[i] in b;
      var j :| 0 <= j < |b| && b[j] == a[i];
    }
    forall c | c in ChromaSet(b) ensures c in ChromaSet(a) {
      var j :| 0 <= j < |b| && Chroma(b[j]).Some? && Chroma(b[j]).value == c;
      assert b[j] in a;
      var i :| 0 <= i < |a| && a[i] == b[j];
    }
  }

  /**
   * Replacing one played note by another of the same pitch class (an octave shift
   * or an enharmonic respelling) never changes the verdict.
   */
  lemma ValidateChordSamePitchClass(input: seq<string>, i: nat, replacement: string, target: seq<string>)
    requires i < |input|
    requires Chroma(replacement).Some? && Chroma(replacement) == Chroma(input[i])
    ensures ValidateChord(input[i := replacement], target) == ValidateChord(input, target)
  {
    var other := input[i := replacement];
    assert AllHaveChroma(input) <==> AllHaveChroma(other) by {
      assert forall k | 0 <= k < |input| :: Chroma(other[k]) == Chroma(input[k]);
    }
    if AllHaveChroma(input) {
      forall c ensures c in ChromaSet(input) <==> c in ChromaSet(other) {
        if c in ChromaSet(input) {
          var k :| 0 <= k < |input| && Chroma(input[k]).Some? && Chroma(input[k]).value == c;
          assert Chroma(other[k]) == Chroma(input[k]);
        }
        if c in ChromaSet(other) {
          var k :| 0 <= k < |other| && Chroma(other[k]).Some? && Chroma(other[k]).value == c;
          assert Chroma(other[k]) == Chroma(input[k]);
        }
      }
    }
    ValidateChordDependsOnlyOnChromas(input, other, target);
  }

  /** An empty answer is never a chord. */
  lemma ValidateChordRejectsEmpty(target: seq<string>)
    requires |target| > 0
    ensures !ValidateChord([], target)
  {
    if AllHaveChroma(target) {
      assert Chroma(target[0]) in Chromas(target);
    }
  }

  /** Playing a chord tone again, in any octave or spelling, keeps a correct answer correct. */
  lemma ValidateChordAcceptsDoubling(input: seq<string>, target: seq<string>, i: nat, extra: string)
    requires ValidateChord(input, target)
    requires i < |input| && Chroma(extra) == Chroma(input[i])
    ensures ValidateChord(input + [extra], target)
  {
    var more := input + [extra];
    ValidateChordIsChromaSetEquality(input, target);
    ValidateChordIsChromaSetEquality(more, target);
    assert more[i] == input[i];
    assert AllHaveChroma(more) by {
      forall k | 0 <= k < |more| ensures Chroma(more[k]).Some? {
        if k < |input| {
          assert more[k] == input[k];
        }
      }
    }
    forall c ensures c in ChromaSet(more) <==> c in ChromaSet(input) {
      if c in ChromaSet(more) {
        var k :| 0 <= k < |more| && Chroma(more[k]).Some? && Chroma(more[k]).value == c;
        if k < |input| {
          assert more[k] == input[k];
        } else {
          assert Chroma(input[i]).value == c;
        }
      }
      if c in ChromaSet(input) {
        var k :| 0 <= k < |input| && Chroma(input[k]).Some? && Chroma(input[k]).value == c;
        assert more[k] == input[k];
      }
    }
  }

  /** A played pitch class that is not in the chord makes the answer wrong. */
  lemma ValidateChordRejectsExtra(input: seq<string>, target: seq<string>, extra: string)
    requires Chroma(extra).Some?
    requires forall k | 0 <= k < |target| :: Chroma(target[k]) != Chroma(extra)
    ensures !ValidateChord(input + [extra], target)
  {
    var more := input + [extra];
    ValidateChordIsChromaSetEquality(more, target);
    assert more[|input|] == extra;
    assert Chroma(extra).value in ChromaSet(more);
    assert Chroma(extra).value !in ChromaSet(target);
  }

  /** `compareNotes`: difference of MIDI numbers, a name without one counting as 0. */
  function CompareNotes(a: string, b: string): int {
    MidiOr0(a) - MidiOr0(b)
  }

  /** `compareNotes` is a consistent comparator: antisymmetric, zero on itself, transitive. */
  lemma CompareNotesIsOrdering(a: string, b: string, c: string)
    ensures CompareNotes(a, a) == 0
    ensures CompareNotes(a, b) == -CompareNotes(b, a)
    ensures CompareNotes(a, b) <= 0 && CompareNotes(b, c) <= 0 ==> CompareNotes(a, c) <= 0
    ensures CompareNotes(a, b) < 0 <==> MidiOr0(a) < MidiOr0(b)
  {
  }

  /** The same note an octave higher compares as 12 semitones above. */
  lemma CompareNotesOctaveApart(n: Note, base: int, o: int)
    requires WellFormed(n) && LetterSemitones(n.letter) + n.alt == base && 0 <= base < 12
    requires 0 <= base + 12 * (o + 1) && base + 12 * (o + 2) <= 127
    ensures CompareNotes(Show(n.(octave := Some(o + 1))), Show(n.(octave := Some(o)))) == 12
  {
    InOctave(n, base, o);
    InOctave(n, base, o + 1);
  }

  /** Two spellings of the same sounding pitch compare equal, e.g. C#4 and Db4. */
  lemma CompareNotesEnharmonic(n: Note, m: Note)
    requires WellFormed(n) && WellFormed(m) && n.octave.Some? && m.octave.Some?
    requires Height(n) == Height(m) && 0 <= Height(n) <= 127
    ensures CompareNotes(Show(n), Show(m)) == 0
  {
    ShowFacts(n);
    ShowFacts(m);
  }

  /** `${Note.octave(x)}`: an absent octave prints as "undefined". */
  function OctaveString(octave: Option<int>): string {
    match octave
    case Some(o) => IntToString(o)
    case None => "undefined"
  }

  /** `indexOf`: the first position holding `x`. */
  function IndexOf<T(==)>(s: seq<T>, x: T): (r: Option<nat>)
    ensures r.Some? ==> r.value < |s| && s[r.value] == x && forall k | 0 <= k < r.value :: s[k] != x
    ensures r.None? ==> x !in s
  {
    if |s| == 0 then None
    else if s[0] == x then Some(0)
    else match IndexOf(s[1..], x)
      case None => None
      case Some(k) => Some(k + 1)
  }

  /**
   * How one played note is displayed against the target chord: a note without chroma
   * is kept; a note whose chroma is a target chroma takes the spelling of the first
   * such target note followed by its own octave number; any other note is simplified.
   */
  function SpellNote(note: string, target: seq<string>, simplify: string -> string): (r: string)
    ensures Chroma(note).None? ==> r == note
    ensures Chroma(note).Some? && Chroma(note) !in Chromas(target) ==> r == simplify(note)
  {
    match Chroma(note)
    case None => note
    case Some(c) =>
      match IndexOf(Chromas(target), Some(c))
      case Some(k) => target[k] + OctaveString(Octave(note))
      case None => simplify(note)
  }

  /** A note whose chroma the target has takes the spelling of the first such target note. */
  lemma SpellNoteFirstMatch(note: string, target: seq<string>, simplify: string -> string, k: nat)
    requires k < |target| && Chroma(note).Some? && Chroma(target[k]) == Chroma(note)
    requires forall j | 0 <= j < k :: Chroma(target[j]) != Chroma(note)
    ensures SpellNote(note, target, simplify) == target[k] + OctaveString(Octave(note))
  {
    var cs := Chromas(target);
    var found := IndexOf(cs, Chroma(note));
    assert cs[k] == Chroma(note);
    assert found.Some? && found.value == k by {
      assert found.value <= k;
      assert found.value >= k;
    }
  }

  /** `spellNotesCorrectly`: every played note respelled on its own, in order. */
  function SpellNotesCorrectly(input: seq<string>, target: seq<string>, simplify: string -> string): (r: seq<string>)
    ensures |r| == |input|
    ensures forall i | 0 <= i < |input| :: r[i] == SpellNote(input[i], target, simplify)
  {
    seq(|input|, i requires 0 <= i < |input| => SpellNote(input[i], target, simplify))
  }

  /** Every entry of a chord's note list is a pitch-class name without octave. */
  predicate PitchClassNames(target: seq<string>) {
    forall k | 0 <= k < |target| :: Parse(target[k]).Some? && Parse(target[k]).value.octave.None?
  }

  /**
   * Respelling is for display only: when the target lists pitch classes and the
   * simplifier keeps chromas, every played note with an octave keeps its chroma.
   */
  lemma SpellNoteKeepsChroma(note: string, target: seq<string>, simplify: string -> string)
    requires PitchClassNames(target)
    requires Octave(note).Some?
    requires Chroma(simplify(note)) == Chroma(note)
    ensures Chroma(SpellNote(note, target, simplify)) == Chroma(note)
  {
    var c := Chroma(note).value;
    var o := Octave(note).value;
    match IndexOf(Chromas(target), Some(c))
    case Some(k) =>
      assert SpellNote(note, target, simplify) == target[k] + IntToString(o);
      ChromaWithOctave(target[k], o);
    case None =>
  }

  lemma SpellNotesCorrectlyKeepsVerdict(input: seq<string>, target: seq<string>, simplify: string -> string)
    requires PitchClassNames(target)
    requires forall i | 0 <= i < |input| :: Octave(input[i]).Some?
    requires forall i | 0 <= i < |input| :: Chroma(simplify(input[i])) == Chroma(input[i])
    ensures ValidateChord(SpellNotesCorrectly(input, target, simplify), target) == ValidateChord(input, target)
  {
    var r := SpellNotesCorrectly(input, target, simplify);
    forall i | 0 <= i < |input| ensures Chroma(r[i]) == Chroma(input[i]) {
      SpellNoteKeepsChroma(input[i], target, simplify);
    }
    assert AllHaveChroma(input) <==> AllHaveChroma(r);
    if AllHaveChroma(input) {
      forall c ensures c in ChromaSet(input) <==> c in ChromaSet(r) {
        if c in ChromaSet(input) {
          var k :| 0 <= k < |input| && Chroma(input[k]).Some? && Chroma(input[k]).value == c;
          assert Chroma(r[k]) == Chroma(input[k]);
        }
        if c in ChromaSet(r) {
          var k :| 0 <= k < |r| && Chroma(r[k]).Some? && Chroma(r[k]).value == c;
          assert Chroma(r[k]) == Chroma(input[k]);
        }
      }
    }
    ValidateChordDependsOnlyOnChromas(input, r, target);
  }

  lemma C4Facts()
    ensures Midi("C4") == Some(60) && Chroma("C4") == Some(0) && Octave("C4") == Some(4)
  {
    C4Text();
    ShowFacts(Note('C', 0, Some(4)));
  }

  lemma C4Text()
    ensures Show(Note('C', 0, Some(4))) == "C4"
  {
    assert AccidentalText(0) == "";
    OneDigit(4);
  }

  lemma BSharpFacts()
    ensures Chroma("B#") == Some(0) && Midi("B#4") == Some(72)
  {
    BSharpText();
    ShowFacts(Note('B', 1, None));
    ShowFacts(Note('B', 1, Some(4)));
  }

  lemma BSharpText()
    ensures Show(Note('B', 1, None)) == "B#" && Show(Note('B', 1, Some(4))) == "B#4"
  {
    assert AccidentalText(1) == "#";
    OneDigit(4);
  }

  /**
   * As written, the played octave number is copied onto the target spelling, so a
   * spelling on the other side of the B/C boundary names another octave: a played C4
   * (MIDI 60) against a chord spelled with B# is shown as B#4, which is MIDI 72.
   */
  lemma SpellNoteShiftsOctave(target: seq<string>, simplify: string -> string)
    requires |target| > 0 && target[0] == "B#"
    ensures Midi("C4") == Some(60)
    ensures SpellNote("C4", target, simplify) == "B#4"
    ensures Midi("B#4") == Some(72)
  {
    C4Facts();
    BSharpFacts();
    SpellNoteFirstMatch("C4", target, simplify, 0);
    C4OctaveText();
    assert "B#" + "4" == "B#4";
  }

  lemma C4OctaveText()
    ensures OctaveString(Octave("C4")) == "4"
  {
    C4Facts();
    OneDigit(4);
  }

  /**
   * The octave to write after the spelling `p` so that the name sounds at `m`;
   * `None` when `p` is not a pitch-class name of the same chroma.
   */
  function OctaveFor(p: string, m: int): (o: Option<int>)
    ensures o.Some? ==>
      (Parse(p).Some? && Parse(p).value.octave.None? && Height(Parse(p).value.(octave := o)) == m)
  {
    match Parse(p)
    case None => None
    case Some(n) =>
      var base := LetterSemitones(n.letter) + n.alt;
      if n.octave.Some? || (m - base) % 12 != 0 then None
      else
        assert 12 * ((m - base) / 12) == m - base;
        Some((m - base) / 12 - 1)
  }

  /**
   * Respelling as evidently intended: the target's spelling with the octave that keeps
   * the sounding pitch; notes without MIDI number are treated as in `SpellNote`.
   */
  function SpellNoteAtPitch(note: string, target: seq<string>, simplify: string -> string): (r: string)
    ensures Chroma(note).None? ==> r == note
    ensures Chroma(note).Some? && Chroma(note) !in Chromas(target) ==> r == simplify(note)
  {
    match Chroma(note)
    case None => note
    case Some(c) =>
      match IndexOf(Chromas(target), Some(c))
      case None => simplify(note)
      case Some(k) =>
        match Midi(note)
        case None => target[k] + OctaveString(Octave(note))
        case Some(m) =>
          match OctaveFor(target[k], m)
          case Some(o) => target[k] + IntToString(o)
          case None => target[k] + OctaveString(Octave(note))
  }

  /** A pitch-class name of the right chroma can always be placed to sound at `m`. */
  lemma OctaveForChroma(p: string, m: int)
    requires Parse(p).Some? && Parse(p).value.octave.None?
    requires 0 <= m <= 127 && Chroma(p) == Some(m % 12)
    ensures OctaveFor(p, m).Some?
    ensures Midi(p + IntToString(OctaveFor(p, m).value)) == Some(m)
  {
    var n := Parse(p).value;
    var base := LetterSemitones(n.letter) + n.alt;
    assert base % 12 == m % 12;
    assert (m - base) % 12 == 0;
    var o := OctaveFor(p, m).value;
    ParseWithOctave(p, o);
    assert Height(n.(octave := Some(o))) == m;
  }

  /** The corrected respelling never changes the pitch a note sounds at. */
  lemma SpellNoteAtPitchKeepsMidi(note: string, target: seq<string>, simplify: string -> string)
    requires PitchClassNames(target)
    requires Midi(note).Some?
    requires Midi(simplify(note)) == Midi(note)
    ensures Midi(SpellNoteAtPitch(note, target, simplify)) == Midi(note)
  {
    var m := Midi(note).value;
    ChromaOfMidi(note);
    match IndexOf(Chromas(target), Some(m % 12))
    case None =>
    case Some(k) =>
      OctaveForChroma(target[k], m);
  }

  /** The numerals of `romanToIndex`. */
  function RomanIndex(numeral: string): Option<nat> {
    if numeral == "I" || numeral == "i" then Some(0)
    else if numeral == "II" || numeral == "ii" then Some(1)
    else if numeral == "III" || numeral == "iii" then Some(2)
    else if numeral == "IV" || numeral == "iv" then Some(3)
    else if numeral == "V" || numeral == "v" then Some(4)
    else if numeral == "VI" || numeral == "vi" then Some(5)
    else if numeral == "VII" || numeral == "vii" then Some(6)
    else None
  }

  /**
   * `getChordAtDegree(key, scaleType, degree)` with `chords` = `Key.majorKey(key).chords`.
   * The index is `romanToIndex[upper] || romanToIndex[degree]`, where a found index 0
   * is falsy and falls through to the second lookup.
   */
  function GetChordAtDegree(scaleType: string, degree: string, chords: seq<string>): string {
    if scaleType != "major" then ""
    else
      var first := RomanIndex(ToUpper(degree));
      var index := if first.Some? && first.value != 0 then first else RomanIndex(degree);
      if index.Some? && index.value < |chords| && chords[index.value] != "" then chords[index.value]
      else ""
  }

  /** Upper-casing a numeral keeps its index: "iv" becomes "IV", and "IV" stays as it is. */
  lemma ToUpperOfNumeral(degree: string)
    requires RomanIndex(degree).Some?
    ensures RomanIndex(ToUpper(degree)) == RomanIndex(degree)
  {
    if 'a' <= degree[0] <= 'z' {
      LowerNumeral(degree);
    } else {
      UpperNumeral(degree);
    }
  }

  lemma LowerNumeral(degree: string)
    requires degree in {"i", "ii", "iii", "iv", "v", "vi", "vii"}
    ensures RomanIndex(ToUpper(degree)) == RomanIndex(degree)
  {
    if degree == "i" {
      assert ToUpper(degree) == "I";
    } else if degree == "ii" {
      assert ToUpper(degree) == "II";
    } else if degree == "iii" {
      assert ToUpper(degree) == "III";
    } else if degree == "iv" {
      assert ToUpper(degree) == "IV";
    } else if degree == "v" {
      assert ToUpper(degree) == "V";
    } else if degree == "vi" {
      assert ToUpper(degree) == "VI";
    } else {
      assert ToUpper(degree) == "VII";
    }
  }

  lemma UpperNumeral(degree: string)
    requires degree in {"I", "II", "III", "IV", "V", "VI", "VII"}
    ensures ToUpper(degree) == degree
  {
    forall i | 0 <= i < |degree| ensures degree[i] == 'I' || degree[i] == 'V' {
    }
  }

  /**
   * Only the major scale type answers; a numeral I–VII in upper, lower or mixed case
   * selects diatonic chord 0–6, and anything else gives "".
   */
  lemma GetChordAtDegreeSelects(scaleType: string, degree: string, chords: seq<string>)
    ensures scaleType != "major" ==> GetChordAtDegree(scaleType, degree, chords) == ""
    ensures RomanIndex(ToUpper(degree)).None? ==> GetChordAtDegree(scaleType, degree, chords) == ""
    ensures scaleType == "major" && RomanIndex(ToUpper(degree)).Some? ==>
      var k := RomanIndex(ToUpper(degree)).value;
      GetChordAtDegree(scaleType, degree, chords) == if k < |chords| then chords[k] else ""
  {
    var up := ToUpper(degree);
    if RomanIndex(up) == Some(0) {
      assert up == "I";
      assert degree == "I" || degree == "i" by {
        assert |degree| == 1 && ToUpperChar(degree[0]) == 'I';
      }
    } else if RomanIndex(up).None? && RomanIndex(degree).Some? {
      ToUpperOfNumeral(degree);
    }
  }
}
