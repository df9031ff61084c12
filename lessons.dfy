/**
 * The question record shared by all lessons (src/lessons/types.ts) and the two answer
 * checkers a question can carry: `validateChord` against a chord name (triads, seventh
 * chords, jazz progressions) and the strict checker with a bass test that the classical
 * progressions attach (src/lessons/basic-harmony/chord-progressions.ts).
 *
 * The source stores the checker as a closure; here it is the data the closure captures.
 * Localised texts and hints are not modelled.
 */
module Lessons {
  import opened Wrappers
  import opened Text
  import opened Pitch
  import opened MusicTheory
  import opened Seqs

  datatype Clef = Treble | Bass

  datatype Metadata = Metadata(
    key: string,
    progressionIndex: nat,
    progressionTotal: nat,
    progressionLabel: string,
    functionalSequence: seq<string>)

  /** What a question's `validate` closure checks an answer against. */
  datatype Check =
    | ChordByName(chordName: string)  // `validateChord(notes, chordName)`
    | StrictBass(notes: seq<string>)  // chord-progressions.ts: the chord's own notes, bass included

  datatype Question = Question(
    id: string,
    targetChord: string,
    clef: Option<Clef>,
    keySignature: Option<string>,
    check: Check,
    metadata: Option<Metadata>)

  /** `Chord.get(name).notes`, a table of tonal that is not modelled. */
  type ChordTable = string -> seq<string>

  /** `Note.midi(n) || 0` for each name: the sort key of the strict checker. */
  function MidiKeys(notes: seq<string>): (r: seq<int>)
    ensures |r| == |notes| && forall i | 0 <= i < |notes| :: r[i] == MidiOr0(notes[i])
  {
    seq(|notes|, i requires 0 <= i < |notes| => MidiOr0(notes[i]))
  }

  /**
   * The position of `[...notes].sort(by MIDI)[0]`: JavaScript's sort is stable, so it is
   * the first of the notes with the smallest `Note.midi(n) || 0`.
   */
  function LowestIndex(notes: seq<string>): (r: nat)
    requires |notes| > 0
    ensures r < |notes|
    ensures forall j | 0 <= j < |notes| :: MidiOr0(notes[r]) <= MidiOr0(notes[j])
    ensures forall j | 0 <= j < r :: MidiOr0(notes[j]) > MidiOr0(notes[r])
  {
    FirstMinIndex(MidiKeys(notes))
  }

  /**
   * The strict checker of the classical progressions: a non-empty answer with as many
   * notes as the chord, containing every chord chroma, whose lowest note has the chroma
   * of the chord's lowest note.
   */
  function StrictValidate(input: seq<string>, notes: seq<string>): bool {
    if |input| == 0 then false
    else
      var tc := Chromas(notes);
      var ic := Chromas(input);
      if |tc| != |ic| then false
      else if !(forall c | c in tc :: c in ic) then false
      else Chroma(input[LowestIndex(input)]) == Chroma(notes[LowestIndex(notes)])
  }

  /** `question.validate(input)`. */
  function Accepts(q: Question, input: seq<string>, chordNotes: ChordTable): bool {
    match q.check
    case ChordByName(name) => ValidateChord(input, chordNotes(name))
    case StrictBass(notes) => StrictValidate(input, notes)
  }

  /** The four outcomes of the strict checker, in the order the source tests them. */
  lemma StrictValidateCases(input: seq<string>, notes: seq<string>)
    ensures |input| == 0 ==> !StrictValidate(input, notes)
    ensures |input| != |notes| ==> !StrictValidate(input, notes)
    ensures (exists i | 0 <= i < |notes| :: Chroma(notes[i]) !in Chromas(input)) ==>
      !StrictValidate(input, notes)
    ensures (|input| > 0 && |input| == |notes| &&
             forall i | 0 <= i < |notes| :: Chroma(notes[i]) in Chromas(input)) ==>
      (StrictValidate(input, notes) <==>
        Chroma(input[LowestIndex(input)]) == Chroma(notes[LowestIndex(notes)]))
  {
    if |input| > 0 && |input| == |notes| {
      var tc := Chromas(notes);
      if exists i | 0 <= i < |notes| :: Chroma(notes[i]) !in Chromas(input) {
        var i :| 0 <= i < |notes| && Chroma(notes[i]) !in Chromas(input);
        assert tc[i] in tc;
      }
      if forall i | 0 <= i < |notes| :: Chroma(notes[i]) in Chromas(input) {
        forall c | c in tc ensures c in Chromas(input) {
          var i :| 0 <= i < |tc| && tc[i] == c;
        }
      }
    }
  }

  /** Playing the chord's own notes, in any order of listing, passes the strict check. */
  lemma StrictValidateAcceptsTarget(notes: seq<string>)
    requires |notes| > 0
    ensures StrictValidate(notes, notes)
  {
  }

  /** An octave doubling adds a note, so the equal-count rule rejects it. */
  lemma StrictValidateRejectsDoubling(input: seq<string>, notes: seq<string>, extra: string)
    requires StrictValidate(input, notes)
    ensures !StrictValidate(input + [extra], notes)
  {
    StrictValidateCases(input, notes);
    StrictValidateCases(input + [extra], notes);
  }

  /** Reordering a list of notes does not change its lowest MIDI number. */
  lemma LowestIsReorderInvariant(a: seq<string>, b: seq<string>)
    requires |a| > 0 && multiset(a) == multiset(b)
    ensures |b| > 0
    ensures MidiOr0(a[LowestIndex(a)]) == MidiOr0(b[LowestIndex(b)])
  {
    assert |b| == |multiset(b)| == |a|;
    var x := a[LowestIndex(a)];
    var y := b[LowestIndex(b)];
    assert x in multiset(b);
    assert y in multiset(a);
  }

  /**
   * The strict verdict does not depend on the order in which the keys were pressed, as
   * long as every pressed name has a MIDI number (the bass is then found by pitch).
   */
  lemma StrictValidateReorder(input: seq<string>, reordered: seq<string>, notes: seq<string>)
    requires multiset(input) == multiset(reordered)
    requires forall i | 0 <= i < |input| :: Midi(input[i]).Some?
    ensures StrictValidate(input, notes) == StrictValidate(reordered, notes)
  {
    assert |reordered| == |multiset(reordered)| == |input|;
    if |input| > 0 {
      LowestIsReorderInvariant(input, reordered);
      var x := input[LowestIndex(input)];
      var y := reordered[LowestIndex(reordered)];
      assert y in multiset(input);
      assert Midi(y).Some?;
      ChromaOfMidi(x);
      ChromaOfMidi(y);
      ChromasCovered(input, reordered);
      ChromasCovered(reordered, input);
    }
  }

  /** Lists with the same names have the same pitch classes. */
  lemma ChromasCovered(a: seq<string>, b: seq<string>)
    requires multiset(a) == multiset(b)
    ensures forall c | c in Chromas(a) :: c in Chromas(b)
  {
    var ca := Chromas(a);
    var cb := Chromas(b);
    forall c | c in ca ensures c in cb {
      var i :| 0 <= i < |ca| && ca[i] == c;
      assert a[i] in multiset(b);
      var j :| 0 <= j < |b| && b[j] == a[i];
      assert cb[j] == c;
    }
  }

  predicate NoDash(s: string) {
    '-' !in s
  }

  /** `${prefix}-${key}-${idx}`, the id of the progression lessons' questions. */
  function KeyedId(prefix: string, key: string, idx: nat): string {
    prefix + "-" + key + "-" + NatToString(idx)
  }

  /** Ids of different (key, index) pairs differ when no key contains a dash. */
  lemma KeyedIdInjective(prefix: string, key1: string, i1: nat, key2: string, i2: nat)
    requires NoDash(key1) && NoDash(key2)
    ensures KeyedId(prefix, key1, i1) == KeyedId(prefix, key2, i2) ==> key1 == key2 && i1 == i2
  {
    if KeyedId(prefix, key1, i1) == KeyedId(prefix, key2, i2) {
      KeyedIdParts(prefix, key1, i1, key2, i2);
    }
  }

  lemma KeyedIdParts(prefix: string, key1: string, i1: nat, key2: string, i2: nat)
    requires NoDash(key1) && NoDash(key2)
    requires KeyedId(prefix, key1, i1) == KeyedId(prefix, key2, i2)
    ensures key1 == key2 && i1 == i2
  {
    SplitAfterPrefix(prefix, key1, NatToString(i1), key2, NatToString(i2), '-');
    NatToStringInjective(i1, i2);
  }

  /** No two questions of a list share an id. */
  predicate IdsDistinct(qs: seq<Question>) {
    forall i, j | 0 <= i < j < |qs| :: qs[i].id != qs[j].id
  }

  /** Reordering a list of questions keeps its ids pairwise distinct. */
  lemma PermutationKeepsIdsDistinct(a: seq<Question>, b: seq<Question>)
    requires multiset(a) == multiset(b) && IdsDistinct(a)
    ensures IdsDistinct(b)
  {
    PermutationKeepsDistinct(a, b);
    forall i, j | 0 <= i < j < |b| ensures b[i].id != b[j].id {
      assert b[i] in multiset(a) && b[j] in multiset(a);
      var p :| 0 <= p < |a| && a[p] == b[i];
      var q :| 0 <= q < |a| && a[q] == b[j];
      if p < q {
        assert a[p].id != a[q].id;
      } else {
        assert p != q;
        assert a[q].id != a[p].id;
      }
    }
  }
}
