/**
 * Pitch model standing in for tonal's `Note` functions.
 *
 * A note name in scientific pitch notation is an upper-case letter A–G, a run of `#`
 * or a run of `b`, and an optional octave (`-?digits`): "C", "Bb3", "F##4". The
 * absolute pitch is the MIDI number 12·(octave+1) + letter offset + alteration
 * (C4 = 60), defined only when an octave is written and the value lies in 0..127;
 * the chroma is (letter offset + alteration) mod 12 and is defined for every
 * parseable name, with or without octave. `FromMidi` spells with flats, as tonal's
 * `Note.fromMidi` does by default.
 */
module Pitch {
  import opened Wrappers
  import opened Text

  predicate IsLetter(c: char) {
    c == 'C' || c == 'D' || c == 'E' || c == 'F' || c == 'G' || c == 'A' || c == 'B'
  }

  /** Semitones of a natural note above C in the same octave. */
  function LetterSemitones(c: char): (s: int)
    requires IsLetter(c)
    ensures 0 <= s < 12
  {
    match c
    case 'C' => 0
    case 'D' => 2
    case 'E' => 4
    case 'F' => 5
    case 'G' => 7
    case 'A' => 9
    case 'B' => 11
  }

  datatype Note = Note(letter: char, alt: int, octave: Option<int>)

  predicate WellFormed(n: Note) {
    IsLetter(n.letter)
  }

  function Repeat(c: char, k: nat): (s: string)
    ensures |s| == k && forall i :: 0 <= i < k ==> s[i] == c
  {
    if k == 0 then "" else [c] + Repeat(c, k - 1)
  }

  /** `#`·alt for sharps, `b`·(−alt) for flats. */
  function AccidentalText(alt: int): string {
    if alt > 0 then Repeat('#', alt) else Repeat('b', -alt)
  }

  function OctaveText(octave: Option<int>): string {
    match octave
    case None => ""
    case Some(o) => IntToString(o)
  }

  /** The name of a note: letter, accidentals, octave. */
  function Show(n: Note): string {
    [n.letter] + AccidentalText(n.alt) + OctaveText(n.octave)
  }

  /** The number of leading copies of `c` in `s`. */
  function RunLength(s: string, c: char): (k: nat)
    ensures k <= |s|
    ensures forall i :: 0 <= i < k ==> s[i] == c
    ensures k < |s| ==> s[k] != c
  {
    if |s| > 0 && s[0] == c then 1 + RunLength(s[1..], c) else 0
  }

  /** Reads a note name; `None` is tonal's "no note" (`Note.chroma` gives `undefined`). */
  function Parse(s: string): (r: Option<Note>)
    ensures r.Some? ==> WellFormed(r.value)
  {
    if |s| == 0 || !IsLetter(s[0]) then None
    else ParseAfterLetter(s[0], s[1..])
  }

  function ParseAfterLetter(letter: char, rest: string): (r: Option<Note>)
    requires IsLetter(letter)
    ensures r.Some? ==> WellFormed(r.value)
  {
    var sharps := RunLength(rest, '#');
    var flats := RunLength(rest, 'b');
    ParseOctave(Note(letter, sharps - flats, None), rest[sharps + flats..])
  }

  function ParseOctave(n: Note, tail: string): (r: Option<Note>)
    requires WellFormed(n) && n.octave.None?
    ensures r.Some? ==> WellFormed(r.value)
    ensures r.Some? ==> (r.value.octave.None? <==> tail == "")
  {
    if tail == "" then Some(n)
    else match ParseInt(tail)
      case Some(o) => Some(n.(octave := Some(o)))
      case None => None
  }

  lemma {:induction false} RunLengthAppend(s: string, t: string, c: char)
    ensures RunLength(s + t, c) == if RunLength(s, c) == |s| then |s| + RunLength(t, c) else RunLength(s, c)
  {
    if |s| > 0 {
      assert (s + t)[1..] == s[1..] + t;
      RunLengthAppend(s[1..], t, c);
    } else {
      assert s + t == t;
    }
  }

  lemma OctaveTextStart(octave: Option<int>)
    ensures OctaveText(octave) == "" || (OctaveText(octave)[0] != '#' && OctaveText(octave)[0] != 'b')
  {
    if octave.Some? {
      var t := IntToString(octave.value);
      if octave.value >= 0 {
        assert IsDigit(t[0]);
      }
    }
  }

  /** The accidental runs of a written name are read back as written. */
  lemma AccidentalRuns(alt: int, octave: Option<int>)
    ensures RunLength(AccidentalText(alt) + OctaveText(octave), '#') == if alt > 0 then alt else 0
    ensures RunLength(AccidentalText(alt) + OctaveText(octave), 'b') == if alt < 0 then -alt else 0
  {
    var acc := AccidentalText(alt);
    var oct := OctaveText(octave);
    OctaveTextStart(octave);
    RunLengthAppend(acc, oct, '#');
    RunLengthAppend(acc, oct, 'b');
    assert RunLength(oct, '#') == 0 && RunLength(oct, 'b') == 0;
    if alt > 0 {
      assert RunLength(acc, '#') == |acc|;
      assert acc[0] == '#';
      assert RunLength(acc, 'b') == 0;
    } else if alt < 0 {
      assert RunLength(acc, 'b') == |acc|;
      assert acc[0] == 'b';
      assert RunLength(acc, '#') == 0;
    } else {
      assert acc == "";
    }
  }

  /** Reading back a written name gives the note again. */
  lemma ParseShow(n: Note)
    requires WellFormed(n)
    ensures Parse(Show(n)) == Some(n)
  {
    var s := Show(n);
    assert s[0] == n.letter;
    assert s[1..] == AccidentalText(n.alt) + OctaveText(n.octave);
    ParseAccidentalsShown(n.letter, n.alt, n.octave);
    ParseOctaveShown(Note(n.letter, n.alt, None), n.octave);
  }

  /** The accidentals of a written name are read back, leaving its octave text. */
  lemma ParseAccidentalsShown(letter: char, alt: int, octave: Option<int>)
    requires IsLetter(letter)
    ensures ParseAfterLetter(letter, AccidentalText(alt) + OctaveText(octave)) ==
      ParseOctave(Note(letter, alt, None), OctaveText(octave))
  {
    var acc := AccidentalText(alt);
    var rest := acc + OctaveText(octave);
    AccidentalRuns(alt, octave);
    var k := RunLength(rest, '#') + RunLength(rest, 'b');
    assert k == |acc|;
    assert rest[k..] == OctaveText(octave);
  }

  /** The octave text of a written name is read back as its octave. */
  lemma ParseOctaveShown(n: Note, octave: Option<int>)
    requires WellFormed(n) && n.octave.None?
    ensures ParseOctave(n, OctaveText(octave)) == Some(n.(octave := octave))
  {
    if octave.Some? {
      ParseIntToString(octave.value);
      assert OctaveText(octave) != "";
    }
  }

  /** Appending an octave to a pitch-class name gives that pitch class in that octave. */
  lemma ParseWithOctave(p: string, o: int)
    requires Parse(p).Some? && Parse(p).value.octave.None?
    ensures Parse(p + IntToString(o)) == Some(Parse(p).value.(octave := Some(o)))
  {
    var n := Parse(p).value;
    PitchClassNameIsShown(p);
    assert p + IntToString(o) == Show(n.(octave := Some(o)));
    ParseShow(n.(octave := Some(o)));
  }

  /** A name read without octave is exactly the written form of what was read. */
  lemma PitchClassNameIsShown(p: string)
    requires Parse(p).Some? && Parse(p).value.octave.None?
    ensures p == Show(Parse(p).value)
  {
    var rest := p[1..];
    var sharps: int := RunLength(rest, '#');
    var flats: int := RunLength(rest, 'b');
    var n := Parse(p).value;
    assert sharps == 0 || flats == 0;
    assert Parse(p) == ParseOctave(Note(p[0], sharps - flats, None), rest[sharps + flats..]);
    assert |rest| == sharps + flats;
    RunsAreAccidentals(rest);
    assert Show(n) == [p[0]] + rest + "";
    assert p == [p[0]] + rest;
  }

  /** A text made of one run of '#' or one run of 'b' is the accidental text it is read as. */
  lemma RunsAreAccidentals(rest: string)
    requires RunLength(rest, '#') + RunLength(rest, 'b') == |rest|
    ensures rest == AccidentalText(RunLength(rest, '#') - RunLength(rest, 'b'))
  {
    var sharps: int := RunLength(rest, '#');
    var flats: int := RunLength(rest, 'b');
    if sharps > 0 {
      assert flats == 0;
      RunIsRepeat(rest, '#');
    } else {
      RunIsRepeat(rest, 'b');
    }
  }

  /** A text that is one run of `c` is `c` repeated. */
  lemma RunIsRepeat(s: string, c: char)
    requires RunLength(s, c) == |s|
    ensures s == Repeat(c, |s|)
  {
  }

  /** The chroma of a pitch-class name is unchanged by writing an octave after it. */
  lemma ChromaWithOctave(p: string, o: int)
    requires Parse(p).Some? && Parse(p).value.octave.None?
    ensures Chroma(p + IntToString(o)) == Chroma(p)
    ensures Octave(p + IntToString(o)) == Some(o)
  {
    ParseWithOctave(p, o);
    OctaveChangeKeepsChroma(p, p + IntToString(o), o);
  }

  lemma OctaveChangeKeepsChroma(p: string, q: string, o: int)
    requires Parse(p).Some? && Parse(q) == Some(Parse(p).value.(octave := Some(o)))
    ensures Chroma(q) == Chroma(p)
    ensures Octave(q) == Some(o)
  {
    var n := Parse(p).value;
    ChromaOfParsed(p, n);
    ChromaOfParsed(q, n.(octave := Some(o)));
  }

  lemma ChromaOfParsed(s: string, n: Note)
    requires Parse(s) == Some(n)
    ensures Chroma(s) == Some((LetterSemitones(n.letter) + n.alt) % 12)
    ensures Octave(s) == n.octave
  {
  }

  function Height(n: Note): int
    requires WellFormed(n) && n.octave.Some?
  {
    LetterSemitones(n.letter) + n.alt + 12 * (n.octave.value + 1)
  }

  /** `Note.chroma`: the pitch class 0..11, for any parseable name. */
  function Chroma(s: string): (r: Option<int>)
    ensures r.Some? ==> 0 <= r.value < 12
    ensures r.Some? <==> Parse(s).Some?
  {
    match Parse(s)
    case None => None
    case Some(n) => Some((LetterSemitones(n.letter) + n.alt) % 12)
  }

  /** `Note.midi`: defined when the name has an octave and lies in the MIDI range. */
  function Midi(s: string): (r: Option<int>)
    ensures r.Some? ==> 0 <= r.value <= 127
  {
    match Parse(s)
    case None => None
    case Some(n) =>
      if n.octave.None? then None
      else if 0 <= Height(n) <= 127 then Some(Height(n))
      else None
  }

  /** `Note.midi(s) || 0`, the sort key used by the sources. */
  function MidiOr0(s: string): (k: int)
    ensures 0 <= k <= 127
  {
    Midi(s).GetOr(0)
  }

  /** `Note.octave`. */
  function Octave(s: string): Option<int> {
    match Parse(s)
    case None => None
    case Some(n) => n.octave
  }

  /** `Note.pitchClass`: letter and accidentals without octave, "" for no note. */
  function PitchClass(s: string): string {
    match Parse(s)
    case None => ""
    case Some(n) => Show(n.(octave := None))
  }

  /**
   * `Note.pitchClass` of a parseable name is a parseable name without octave, of the same
   * chroma, and taking the pitch class again changes nothing.
   */
  lemma PitchClassFacts(s: string)
    requires Parse(s).Some?
    ensures PitchClass(s) != ""
    ensures Parse(PitchClass(s)).Some? && Octave(PitchClass(s)).None?
    ensures Chroma(PitchClass(s)) == Chroma(s)
    ensures PitchClass(PitchClass(s)) == PitchClass(s)
  {
    var n := Parse(s).value.(octave := None);
    ParseShow(n);
  }

  /** What tonal reports for a written name: its chroma, octave and MIDI number. */
  lemma ShowFacts(n: Note)
    requires WellFormed(n)
    ensures Chroma(Show(n)) == Some((LetterSemitones(n.letter) + n.alt) % 12)
    ensures Octave(Show(n)) == n.octave
    ensures n.octave.Some? && 0 <= Height(n) <= 127 ==> Midi(Show(n)) == Some(Height(n))
  {
    ParseShow(n);
  }

  /** A note that has a MIDI number has the chroma of that number. */
  lemma ChromaOfMidi(s: string)
    requires Midi(s).Some?
    ensures Chroma(s) == Some(Midi(s).value % 12)
  {
    var n := Parse(s).value;
    var base := LetterSemitones(n.letter) + n.alt;
    assert Midi(s) == Some(Height(n));
    assert Chroma(s) == Some(base % 12);
    ShiftByOctaves(base, n.octave.value + 1);
  }

  lemma ShiftByOctaves(base: int, q: int)
    ensures (base + 12 * q) % 12 == base % 12
  {
  }

  /** The flat spelling of a pitch class (tonal's default choice). */
  function FlatSpelling(c: int): (n: Note)
    requires 0 <= c < 12
    ensures WellFormed(n) && n.octave.None?
    ensures LetterSemitones(n.letter) + n.alt == c
  {
    [Note('C', 0, None), Note('D', -1, None), Note('D', 0, None), Note('E', -1, None),
     Note('E', 0, None), Note('F', 0, None), Note('G', -1, None), Note('G', 0, None),
     Note('A', -1, None), Note('A', 0, None), Note('B', -1, None), Note('B', 0, None)][c]
  }

  /** `Note.fromMidi`: pitch-class name in flats, followed by the octave floor(m/12) − 1. */
  function FromMidi(m: int): string {
    Show(FlatSpelling(m % 12).(octave := Some(m / 12 - 1)))
  }

  /** A pitch-class spelling placed in octave `o` sounds at `base` + 12·(o + 1). */
  lemma InOctave(b: Note, base: int, o: int)
    requires WellFormed(b) && LetterSemitones(b.letter) + b.alt == base && 0 <= base < 12
    ensures Parse(Show(b.(octave := Some(o)))) == Some(b.(octave := Some(o)))
    ensures Height(b.(octave := Some(o))) == base + 12 * (o + 1)
    ensures Chroma(Show(b.(octave := Some(o)))) == Some(base)
    ensures var h := base + 12 * (o + 1); 0 <= h <= 127 ==> Midi(Show(b.(octave := Some(o)))) == Some(h)
  {
    ParseShow(b.(octave := Some(o)));
    InOctaveChroma(b, base, o);
    InOctaveMidi(b, base, o);
  }

  lemma InOctaveChroma(b: Note, base: int, o: int)
    requires WellFormed(b) && LetterSemitones(b.letter) + b.alt == base && 0 <= base < 12
    ensures Chroma(Show(b.(octave := Some(o)))) == Some(base)
  {
    var m := b.(octave := Some(o));
    ShowFacts(m);
    assert LetterSemitones(m.letter) + m.alt == base;
    SmallMod(base);
  }

  lemma SmallMod(base: int)
    requires 0 <= base < 12
    ensures base % 12 == base
  {
  }

  lemma InOctaveMidi(b: Note, base: int, o: int)
    requires WellFormed(b) && LetterSemitones(b.letter) + b.alt == base && 0 <= base < 12
    ensures var h := base + 12 * (o + 1); 0 <= h <= 127 ==> Midi(Show(b.(octave := Some(o)))) == Some(h)
  {
    var m := b.(octave := Some(o));
    ShowFacts(m);
    assert Height(m) == base + 12 * (o + 1);
  }

  /** `fromMidi` names a note whose pitch is exactly `m`. */
  lemma ParseFromMidi(m: int)
    ensures Parse(FromMidi(m)).Some?
    ensures Parse(FromMidi(m)).value.octave == Some(m / 12 - 1)
    ensures Height(Parse(FromMidi(m)).value) == m
    ensures Chroma(FromMidi(m)) == Some(m % 12)
    ensures 0 <= m <= 127 ==> Midi(FromMidi(m)) == Some(m)
  {
    InOctave(FlatSpelling(m % 12), m % 12, m / 12 - 1);
  }

  /** In the MIDI range, `fromMidi` and `midi` are inverse, and the chroma is the number mod 12. */
  lemma FromMidiInRange(m: int)
    requires 0 <= m <= 127
    ensures Midi(FromMidi(m)) == Some(m) && Chroma(FromMidi(m)) == Some(m % 12)
  {
    ParseFromMidi(m);
  }
}
