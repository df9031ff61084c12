# harmony-tutor in Dafny

This project models the logic of harmony-tutor, a web application that teaches music
theory. The model covers the following parts of the application:

- **The classical progression engine.** It builds voiced chords as MIDI numbers from a
  major or harmonic-major scale, a functional root and a figured-bass inversion code. It
  expands a progression over twelve keys and checks a played chord strictly: same count,
  same pitch classes, same bass.
- **The answer checkers and respelling of the music-theory engine.** This includes the
  pitch-class comparison of chords, the ordering of notes by MIDI number, the respelling
  of played notes after a target chord, and the chord at a roman-numeral degree.
- **The lesson question builders.** These are the jazz, triad and common-chord lessons:
  cross products of keys and chord types, shuffled in place.
- **The option (distractor) builders of the exercises.** These cover staff reading, key
  signatures, intervals and scales, together with the shuffle and random pick they share.
- **Four small state machines and lookups.** These are the MIDI keyboard input, the
  progression page's navigation and piano toggle, the exercise player's score, and the
  conversion of note names into notation keys. The lesson-text lookup with its
  harmonic-major fallback belongs here too.

The notation library's note functions (`Note.midi`, `chroma`, `fromMidi`, `pitchClass`,
`octave`, `transpose`) are replaced by a small pitch model in module `Pitch`. A note name
is a letter A–G, a run of `#` or of `b`, and an optional octave. Its MIDI number is
`12·(octave+1)` plus the letter's semitones and the alteration, defined only from 0 to 127.
Its chroma is the letter's semitones plus the alteration, modulo 12. `fromMidi` spells
with flats. The other library calls are parameters: chord notes, scale notes, the diatonic
chords of a key, the relative major, `Note.simplify` and `Interval.semitones`.
`Math.random()` is replaced by natural-number draws: a draw `x` for a list of `n` entries
picks index `x` when `x < n`. The bundled markdown files are the parameter `raw`.

Each module follows one source file. Modules `Wrappers`, `Text`, `Seqs`, `Grids` and
`Options` hold what several files share: the option datatype, string functions, list
facts, the key-by-item question grid and the generic option builder.

## Model

| member | source | states |
|---|---|---|
| Pitch.Chroma | src/engine/MusicTheory.ts:59-60 | `Note.chroma` is a pitch class 0–11, and is defined exactly for the names that parse |
| Pitch.ParseShow | src/engine/MusicTheory.ts:101 | every note name the program writes is read back as the same letter, accidentals and octave |
| Pitch.ShowFacts | src/engine/MusicTheory.ts:101 | a written name has the chroma of its letter plus accidentals mod 12, its own octave, and the MIDI number of its height when that lies in 0–127 |
| Pitch.ChromaWithOctave | src/engine/MusicTheory.ts:108-111 | writing an octave number after a pitch-class name keeps its chroma and gives it that octave |
| Pitch.Midi | src/engine/MusicTheory.ts:87-88 | `Note.midi` is a number in 0–127 when defined |
| Pitch.MidiOr0 | src/engine/MusicTheory.ts:87-88 | the sort key `Note.midi(n) \|\| 0` always lies in 0–127 |
| Pitch.ChromaOfMidi | src/engine/MusicTheory.ts:87-101 | a name with a MIDI number has that number mod 12 as its chroma |
| Pitch.PitchClassFacts | src/exercises/intervals/interval-quality.ts:120 | `Note.pitchClass` of a parseable name is a non-empty name without octave, of the same chroma |
| Pitch.FlatSpelling | src/engine/MidiManager.ts:26 | the spelling `fromMidi` uses for a pitch class is a well-formed name without octave whose letter plus accidental is that pitch class |
| Pitch.ParseFromMidi | src/engine/MidiManager.ts:26 | `Note.fromMidi(m)` names a note of octave m div 12 − 1 whose height is exactly m |
| Pitch.FromMidiInRange | src/engine/MidiManager.ts:26 | for 0–127, `Note.midi(Note.fromMidi(m))` is m and its chroma is m mod 12 |
| Pitch.ChromaOfParsed | src/engine/MusicTheory.ts:59-60 | the chroma of a well-formed name is its letter's semitones plus its alteration, mod 12, and its octave is the one written |
| Pitch.OctaveChangeKeepsChroma | src/engine/MusicTheory.ts:110-111 | writing another octave after a spelling keeps its chroma and sets that octave |
| MusicTheory.Chromas | src/engine/MusicTheory.ts:59-60 | `notes.map(Note.chroma)`: one entry per name, in order, absent where the name has no chroma |
| MusicTheory.ChromasMembership | src/engine/MusicTheory.ts:68 | for parseable names, a chroma is among the mapped chromas exactly when some name sounds it |
| MusicTheory.ValidateChordIsChromaSetEquality | src/engine/MusicTheory.ts:58-74 | `validateChord` is true exactly when every input and target name has a chroma and the two sets of pitch classes are equal |
| MusicTheory.ValidateChordDependsOnlyOnChromas | src/engine/MusicTheory.ts:58-74 | two inputs that sound the same pitch classes get the same verdict |
| MusicTheory.ValidateChordReorder | src/engine/MusicTheory.ts:58-74 | reordering the played notes never changes the verdict |
| MusicTheory.ValidateChordSamePitchClass | src/engine/MusicTheory.ts:58-74 | replacing one played note by another of the same pitch class, such as an octave shift or an enharmonic spelling, never changes the verdict |
| MusicTheory.ValidateChordRejectsEmpty | src/engine/MusicTheory.ts:68 | an empty answer against a non-empty chord is rejected |
| MusicTheory.ValidateChordAcceptsDoubling | src/engine/MusicTheory.ts:68-73 | adding a chord tone again, in any octave, keeps a correct answer correct (C4 E4 G4 C5 passes) |
| MusicTheory.ValidateChordRejectsExtra | src/engine/MusicTheory.ts:71-73 | a played pitch class outside the chord makes the answer wrong |
| MusicTheory.CompareNotesIsOrdering | src/engine/MusicTheory.ts:86-90 | `compareNotes` is 0 on equal names, antisymmetric and transitive, and negative exactly when the first MIDI number (0 when unparseable) is lower |
| MusicTheory.CompareNotesOctaveApart | src/engine/MusicTheory.ts:86-90 | the same note one octave higher compares as 12 above |
| MusicTheory.CompareNotesEnharmonic | src/engine/MusicTheory.ts:86-90 | two spellings of the same sounding pitch, such as C#4 and Db4, compare equal |
| MusicTheory.IndexOf | src/engine/MusicTheory.ts:105 | `indexOf` gives the first position holding the value, and none exactly when the value is absent |
| MusicTheory.SpellNote | src/engine/MusicTheory.ts:100-116 | a note without chroma is returned as it is; a note whose chroma the target lacks is simplified |
| MusicTheory.SpellNoteFirstMatch | src/engine/MusicTheory.ts:104-111 | a note whose chroma the target has takes the spelling of the first target note of that chroma, followed by its own octave number |
| MusicTheory.SpellNotesCorrectly | src/engine/MusicTheory.ts:96-117 | one output per input, in input order, each the respelling of its own input |
| MusicTheory.SpellNoteKeepsChroma | src/engine/MusicTheory.ts:100-116 | when the target lists pitch classes and the simplifier keeps chromas, respelling a note with an octave keeps its chroma |
| MusicTheory.SpellNotesCorrectlyKeepsVerdict | src/engine/MusicTheory.ts:96-117 | under the same conditions, checking the respelled notes gives the same verdict as checking the played ones |
| MusicTheory.SpellNoteShiftsOctave | src/engine/MusicTheory.ts:108-111 | as written, a played C4 (MIDI 60) against a target whose first note is B# is shown as B#4, which is MIDI 72 |
| MusicTheory.OctaveFor | src/engine/MusicTheory.ts:109-111 | an octave is found only for a pitch-class name, and with it the name sounds exactly at the given MIDI number |
| MusicTheory.OctaveForChroma | src/engine/MusicTheory.ts:109-111 | a pitch-class name of the right chroma can always be placed to sound at a given MIDI number 0–127 |
| MusicTheory.SpellNoteAtPitch | src/engine/MusicTheory.ts:100-116 | corrected respelling: notes without chroma and notes outside the target are treated as written |
| MusicTheory.SpellNoteAtPitchKeepsMidi | src/engine/MusicTheory.ts:100-116 | the corrected respelling never changes the MIDI number a note sounds at |
| MusicTheory.ToUpperOfNumeral | src/engine/MusicTheory.ts:34-44 | upper-casing a known numeral keeps its index |
| MusicTheory.GetChordAtDegreeSelects | src/engine/MusicTheory.ts:27-51 | only scale type "major" answers; an unknown numeral gives ""; a numeral I–VII in any case selects diatonic chord 0–6, or "" when the key has no such chord |
| MusicHelpers.RandomIndex | src/exercises/utils/music-helpers.ts:68 | a draw always gives an index below the length |
| MusicHelpers.RandomIndexCovers | src/exercises/utils/music-helpers.ts:68 | every index below the length can be drawn |
| MusicHelpers.SwapIsPermutation | src/exercises/utils/music-helpers.ts:69 | one swap only reorders the list |
| MusicHelpers.Rest | src/exercises/utils/music-helpers.ts:67-70 | the remaining swaps of the loop keep the length |
| MusicHelpers.RestIsPermutation | src/exercises/utils/music-helpers.ts:67-70 | the remaining swaps of the loop only reorder the list |
| MusicHelpers.ShuffledIsPermutation | src/exercises/utils/music-helpers.ts:65-72 | `shuffle` returns a permutation of its argument: same length, same entries with the same multiplicities |
| MusicHelpers.RestKeepsSettled | src/exercises/utils/music-helpers.ts:67-70 | a position above the one being swapped is settled: no later swap touches it, since j ≤ i and i descends |
| MusicHelpers.ShuffledShort | src/exercises/utils/music-helpers.ts:67 | lists of length 0 or 1 come back unchanged |
| MusicHelpers.ShuffledMembers | src/exercises/utils/music-helpers.ts:65-72 | shuffling keeps exactly the members and keeps a list free of duplicates |
| MusicHelpers.SwapInPlace | src/exercises/utils/music-helpers.ts:69 | the array afterwards is the old contents with positions i and j exchanged |
| MusicHelpers.FisherYates | src/exercises/utils/music-helpers.ts:67-70 | the in-place swap loop leaves the array holding the shuffle of its old contents |
| MusicHelpers.Shuffle | src/exercises/utils/music-helpers.ts:65-72 | the copy is shuffled: the result is the shuffle of the argument, of the same length and the same multiset; the argument is a value and cannot change |
| MusicHelpers.PickRandom | src/exercises/utils/music-helpers.ts:77-79 | an element exactly when the array is non-empty, and then an element of the array; `undefined` for an empty array |
| MusicHelpers.GetKeySignatureForScale | src/exercises/utils/music-helpers.ts:43-50 | a listed major root maps to itself and any other major root to "C"; a listed minor root maps to its relative major and any other to "C"; the result is always a key of the major table |
| MusicHelpers.RelativeMajorIsThreeAbove | src/exercises/utils/music-helpers.ts:23-37 | every minor root and its relative major are parseable, and the major's chroma is the minor's plus 3, mod 12 |
| ChordProgressions.ScaleOffsets | src/lessons/basic-harmony/chord-progressions.ts:8-13 | seven offsets equal to the major scale's, except that the harmonic flag turns the 9 at index 5 into 8 |
| ChordProgressions.ScaleOffsetsIncreasing | src/lessons/basic-harmony/chord-progressions.ts:8-13 | both scales climb strictly within one octave |
| ChordProgressions.GetNoteOctave | src/lessons/basic-harmony/chord-progressions.ts:18-23 | seven degrees up is exactly twelve semitones up, with the same pitch class |
| ChordProgressions.GetNoteIncreasing | src/lessons/basic-harmony/chord-progressions.ts:18-23 | a higher degree always sounds higher, for both scales |
| ChordProgressions.GetNoteRange | src/lessons/basic-harmony/chord-progressions.ts:18-23 | degrees up to 20 stay within 35 semitones above the anchor, on the scale step of the degree mod 7 |
| ChordProgressions.Structure | src/lessons/basic-harmony/chord-progressions.ts:30-34 | the members are [0, 2, 4, 6] exactly for the codes 7, 65, 43, 2 or the functions II and VII, and [0, 2, 4] otherwise |
| ChordProgressions.Stack | src/lessons/basic-harmony/chord-progressions.ts:30-37 | a chord stacked in thirds: member i is the root plus 2·i |
| ChordProgressions.Degrees | src/lessons/basic-harmony/chord-progressions.ts:26-37 | the root-position degrees are the function's root degree (T 0, II 1, S 3, D 4, VII 6) plus each structure member |
| ChordProgressions.VoicingBass | src/lessons/basic-harmony/chord-progressions.ts:41-64 | the bass of every voicing is the member its code names: root for 53, 3 and 7, third for 6 and 65, fifth for 64 and 43, seventh for 2 |
| ChordProgressions.VoicingAscending | src/lessons/basic-harmony/chord-progressions.ts:41-67 | every voicing climbs strictly, so its first degree is its lowest |
| ChordProgressions.RotateIsRaising | src/lessons/basic-harmony/chord-progressions.ts:41-56 | on a chord of the right size, each inversion moves the members below its bass up seven degrees, after the others |
| ChordProgressions.RaisingKeepsSteps | src/lessons/basic-harmony/chord-progressions.ts:41-56 | raising the lowest members by an octave keeps the multiset of scale steps |
| ChordProgressions.VoicingKeepsSteps | src/lessons/basic-harmony/chord-progressions.ts:41-56 | when the code fits the structure, the voicing keeps the chord's size and its scale steps mod 7, counted with multiplicity |
| ChordProgressions.TriadCodeOnSeventhDropsSeventh | src/lessons/basic-harmony/chord-progressions.ts:31-47 | a triad code 6 or 64 on a II or VII seventh chord voices three notes and drops the seventh |
| ChordProgressions.CodeThreeIsRootPosition | src/lessons/basic-harmony/chord-progressions.ts:62-64 | code 3 is voiced exactly like 53, in root position |
| ChordProgressions.GenerateChord | src/lessons/basic-harmony/chord-progressions.ts:6-68 | no notes, or one note per voicing degree |
| ChordProgressions.Named | src/lessons/basic-harmony/chord-progressions.ts:67 | each degree is named by `fromMidi` of its MIDI number |
| ChordProgressions.NamedPitches | src/lessons/basic-harmony/chord-progressions.ts:18-67 | a named degree up to 20 sounds at its MIDI number and has its pitch class |
| ChordProgressions.GenerateChordPitches | src/lessons/basic-harmony/chord-progressions.ts:15-67 | with an anchor in range, the chord has one note per voicing degree, at that degree's pitch and pitch class |
| ChordProgressions.GenerateChordBassFirst | src/lessons/basic-harmony/chord-progressions.ts:150-152 | the generated chord is voiced upward, so the lowest target note the strict validator sorts out is the first |
| ChordProgressions.StrictCheckOfGeneratedChord | src/lessons/basic-harmony/chord-progressions.ts:140-153 | on a generated chord the validator wants as many notes as the chord, every chord chroma, and a lowest played note with the chroma of the chord's first note |
| ChordProgressions.Labels | src/lessons/basic-harmony/chord-progressions.ts:128 | one label per step, in order |
| ChordProgressions.GenerateQuestionsForSequence | src/lessons/basic-harmony/chord-progressions.ts:126-172 | the nested loops push one question per (key, step), key-major |
| ChordProgressions.KeysFacts | src/lessons/basic-harmony/chord-progressions.ts:124 | `KEYS` is twelve different names, none with a dash |
| ChordProgressions.GeneratedQuestions | src/lessons/basic-harmony/chord-progressions.ts:126-172 | 12·n questions; question k·n + i has id `seqName-key-i`, target "key Major", key signature and metadata key k, index i, total n, its label and all labels, and checks against the chord of step i in key k |
| ChordProgressions.SequenceIdsDistinct | src/lessons/basic-harmony/chord-progressions.ts:134 | the ids of a sequence's questions are pairwise different |
| Lessons.MidiKeys | src/lessons/basic-harmony/chord-progressions.ts:149-150 | one sort key `Note.midi(n) \|\| 0` per note |
| Lessons.LowestIndex | src/lessons/basic-harmony/chord-progressions.ts:149-152 | the stable sort's first element is the first of the notes with the smallest sort key |
| Lessons.StrictValidateCases | src/lessons/basic-harmony/chord-progressions.ts:140-153 | false on empty input, on a count mismatch and when a target chroma is missing; otherwise true exactly when the lowest played note has the chroma of the lowest target note |
| Lessons.StrictValidateAcceptsTarget | src/lessons/basic-harmony/chord-progressions.ts:140-153 | playing the chord's own notes passes |
| Lessons.StrictValidateRejectsDoubling | src/lessons/basic-harmony/chord-progressions.ts:145 | an extra doubled note fails the equal-count rule |
| Lessons.LowestIsReorderInvariant | src/lessons/basic-harmony/chord-progressions.ts:149 | reordering the notes keeps the lowest sort key |
| Lessons.StrictValidateReorder | src/lessons/basic-harmony/chord-progressions.ts:140-153 | when every pressed name has a MIDI number, the order of pressing never changes the verdict |
| Lessons.KeyedIdInjective | src/lessons/basic-harmony/chord-progressions.ts:134 | ids of different (key, index) pairs differ when no key contains a dash |
| Lessons.PermutationKeepsIdsDistinct | src/lessons/basic-harmony/triads.ts:37-41 | reordering a list of questions keeps its ids pairwise different |
| ChordProgressions.RotateBass | src/lessons/basic-harmony/chord-progressions.ts:41-56 | each inversion of a stacked chord puts the member it names in the bass |
| ChordProgressions.RotateAscending | src/lessons/basic-harmony/chord-progressions.ts:41-56 | every inversion of a stacked chord still climbs strictly |
| ChordProgressions.RotateKeepsSteps | src/lessons/basic-harmony/chord-progressions.ts:41-56 | an inversion keeps the chord's size and its scale steps mod 7 |
| Triads.GenerateAllQuestions | src/lessons/basic-harmony/triads.ts:11-43 | the push loops build the 7 × 2 questions root-major, and the in-place Fisher–Yates loop leaves the array holding the shuffle of that list for the given draws |
| Triads.GenerateQuestion | src/lessons/basic-harmony/triads.ts:50-53 | the question handed out is one of the lesson's fourteen |
| Triads.KeysFacts | src/lessons/basic-harmony/triads.ts:5 | `KEYS` is seven different names, none with a dash |
| Triads.TriadsPermutation | src/lessons/basic-harmony/triads.ts:11-43 | fourteen questions before and after the shuffle, with the same multiplicities |
| Triads.TriadsCover | src/lessons/basic-harmony/triads.ts:13-36 | every (root, major or minor) pair has its question in the shuffled list |
| Triads.TriadsOnly | src/lessons/basic-harmony/triads.ts:13-36 | the shuffled list holds nothing but those pairs' questions |
| Triads.TriadQuestionFacts | src/lessons/basic-harmony/triads.ts:15-33 | the major question on a root targets `rootM` under the root's own signature; the minor one targets `rootm` under the relative major's signature; both are checked by chroma-set equality against the target |
| Triads.TriadIdInjective | src/lessons/basic-harmony/triads.ts:25 | ids `root-symbol` of different (root, type) pairs differ |
| Triads.TriadIdsDistinct | src/lessons/basic-harmony/triads.ts:25-41 | the shuffled lesson's ids are pairwise different |
| CommonChords.IdLabel | src/lessons/basic-harmony/common-chords.ts:26 | the id part is the symbol, or "triad" for an empty symbol; never empty |
| CommonChords.IdLabels | src/lessons/basic-harmony/common-chords.ts:26 | one id part per chord type, in order |
| CommonChords.PushQuestions | src/lessons/basic-harmony/common-chords.ts:21-44 | the nested loops push one question per (root, chord type), root-major |
| CommonChords.BuildQuestions | src/lessons/basic-harmony/common-chords.ts:18-53 | the array ends as the shuffle, for the given draws, of the list the loops pushed |
| CommonChords.KeysFacts | src/lessons/basic-harmony/common-chords.ts:5 | `KEYS` is seven different names, none with a dash |
| CommonChords.ChordsPermutation | src/lessons/basic-harmony/common-chords.ts:18-53 | 7 · \|chordTypes\| questions, the same multiset before and after the shuffle |
| CommonChords.ChordsCover | src/lessons/basic-harmony/common-chords.ts:21-44 | every (root, chord type) pair has its question in the shuffled list |
| CommonChords.ChordsOnly | src/lessons/basic-harmony/common-chords.ts:21-44 | the shuffled list holds nothing but those pairs' questions |
| Text.ToLower | src/lessons/basic-harmony/common-chords.ts:29 | `toLowerCase` maps each character by itself and keeps the length |
| CommonChords.ChordQuestionFacts | src/lessons/basic-harmony/common-chords.ts:23-41 | the question targets `root+symbol`, is checked by chroma-set equality, and uses the relative major's signature exactly when the lower-cased English name contains "minor" |
| CommonChords.MinorSeventhIsMinor | src/lessons/basic-harmony/common-chords.ts:29-73 | "Minor 7 (m7)" switches to the relative major's signature |
| CommonChords.HalfDiminishedIsNotMinor | src/lessons/basic-harmony/common-chords.ts:29-75 | "Half-diminished 7 (m7♭5)" keeps the root's signature, although the chord has a minor third |
| CommonChords.NameLacks | src/lessons/basic-harmony/common-chords.ts:29 | a name missing one of the letters of "minor", in either case, never switches the signature |
| CommonChords.ChordIdInjective | src/lessons/basic-harmony/common-chords.ts:34 | ids `lessonId-root-label` of different (root, type) pairs differ when the types' id parts do |
| CommonChords.ChordIdsDistinct | src/lessons/basic-harmony/common-chords.ts:34-50 | with distinct id parts, the shuffled lesson's ids are pairwise different |
| CommonChords.LessonLabelsDistinct | src/lessons/basic-harmony/common-chords.ts:71-96 | each of the three lessons' chord types have distinct id parts, so all three lessons have distinct ids |
| JazzProgressions.ChordAt | src/lessons/jazz/progressions.ts:24 | an index inside the key's diatonic chords reads that chord; an index past the end reads nothing (the empty name) |
| JazzProgressions.Labels | src/lessons/jazz/progressions.ts:18 | one label per step, in order |
| JazzProgressions.GenerateQuestionsForJazzProgression | src/lessons/jazz/progressions.ts:12-50 | the nested loops push one question per (key, step), key-major |
| JazzProgressions.GenerateQuestion | src/lessons/jazz/progressions.ts:75-89 | with no steps there is no question; otherwise it is step 0's question in C |
| JazzProgressions.KeysFacts | src/lessons/jazz/progressions.ts:5 | `KEYS` is twelve different names, none with a dash |
| JazzProgressions.JazzQuestions | src/lessons/jazz/progressions.ts:20-47 | 12·n questions; question k·n + i targets the diatonic chord at step i's index in key k, is checked by chroma-set equality, and carries key k as its signature and metadata, index i, total n, its label and all labels |
| JazzProgressions.JazzIdsDistinct | src/lessons/jazz/progressions.ts:28 | the ids `lessonId-key-idx` of a progression's questions are pairwise different |
| Grids.GridLength | src/lessons/jazz/progressions.ts:20-47 | the nested forEach loops push \|keys\| · \|items\| entries |
| Grids.GridLayout | src/lessons/jazz/progressions.ts:20-47 | entry k·n + i is the entry for item i in key k |
| Grids.GridMembers | src/lessons/jazz/progressions.ts:20-47 | every entry sits at some k·n + i and is that pair's entry |
| KeySignatures.FindKey | src/exercises/staff-reading/key-signatures.ts:101-102 | `find` gives an entry of the table carrying that name, and nothing exactly when no entry does |
| KeySignatures.AffectedNotesOfTable | src/exercises/staff-reading/key-signatures.ts:100-110 | in a table of distinct names whose first key has no accidentals and whose others have some: a listed key alters the first `sharps` names of the sharp order, else the first `flats` of the flat order; exactly the first key and unlisted names alter none |
| KeySignatures.AffectedNotesOfMajorKeys | src/exercises/staff-reading/key-signatures.ts:100-110 | `getAffectedNotes` is empty exactly for C and for names outside `MAJOR_KEYS` |
| KeySignatures.AffectedNotesOfMajorKey | src/exercises/staff-reading/key-signatures.ts:104-108 | the notes of a listed key are the first `sharps` of `SHARP_ORDER`, or else the first `flats` of `FLAT_ORDER` |
| KeySignatures.MajorKeysTable | src/exercises/staff-reading/key-signatures.ts:3-17 | no key has both sharps and flats, counts are at most seven, names and (sharps, flats) pairs differ across keys, and the keys with accidentals are the twelve after C |
| KeySignatures.KeyNames | src/exercises/staff-reading/key-signatures.ts:49 | `map(k => k.key)` keeps one name per entry, in order |
| KeySignatures.AllKeysDistinct | src/exercises/staff-reading/key-signatures.ts:49-53 | the option pool is 13 different major names, or 26 different names with the relative minors after them |
| KeySignatures.GenerateOptionsForKey | src/exercises/staff-reading/key-signatures.ts:47-59 | the correct key plus five other names of the pool, shuffled |
| KeySignatures.KeySignatureOptions | src/exercises/staff-reading/key-signatures.ts:47-59 | six different options with the correct key exactly once |
| KeySignatures.GenerateKeySignatureQuestion | src/exercises/staff-reading/key-signatures.ts:61-81 | the signature shown is the drawn major key; the answer is that key, or its `RELATIVE_MINORS` entry when minors are included and the coin falls that way; the answer is in the option pool |
| KeySignatures.KeysHaveMinors | src/exercises/staff-reading/key-signatures.ts:19-33 | every major key of the table has a relative minor |
| KeySignatures.RelativeMinorNamesMatch | src/exercises/staff-reading/key-signatures.ts:19-33 | `Object.values(RELATIVE_MINORS)` lists the minor of each key in table order |
| KeySignatures.RelativeMinorRoot | src/exercises/staff-reading/key-signatures.ts:19-33 | each relative minor is a root followed by "m", and the major key's chroma is the root's plus 3 mod 12 |
| KeySignatures.AccidentalKeys | src/exercises/staff-reading/key-signatures.ts:114 | the filter keeps exactly the table entries with sharps or flats |
| KeySignatures.OtherKeys | src/exercises/staff-reading/key-signatures.ts:122 | the filter keeps exactly the entries whose name differs, and never grows the list |
| KeySignatures.OtherKeysLength | src/exercises/staff-reading/key-signatures.ts:122 | with distinct names, removing a listed key drops exactly one entry |
| KeySignatures.PushWrongTexts | src/exercises/staff-reading/key-signatures.ts:125-128 | the loop appends the altered-notes texts of the first three shuffled keys, or of all if fewer |
| KeySignatures.AffectedTextsDiffer | src/exercises/staff-reading/key-signatures.ts:117-127 | two different keys with accidentals have different altered-notes texts |
| KeySignatures.AssembledOnce | src/exercises/staff-reading/key-signatures.ts:118-128 | the assembled options hold the correct text exactly once |
| KeySignatures.GenerateAffectedNotesQuestion | src/exercises/staff-reading/key-signatures.ts:112-158 | the drawn key has accidentals, C never; the answer is its altered-notes text; the options hold it, number at most four (exactly min(4, keys) with distinct names) and, for a well-formed table, hold it exactly once |
| Options.Take | src/exercises/staff-reading/note-identification.ts:20 | `slice(0, k)` keeps the first min(k, length) entries |
| Options.GenerateOptions | src/exercises/staff-reading/note-identification.ts:16-22 | the options are the shuffle of the correct answer followed by the first k entries of a shuffled copy of the pool without it |
| Options.PickOptionsFacts | src/exercises/staff-reading/note-identification.ts:16-22 | from a pool without duplicates: 1 + min(k, others) options, no duplicates, the correct answer exactly once, nothing but the correct answer and pool entries |
| Exercises.NotesFacts | src/exercises/staff-reading/note-identification.ts:3 | `NOTES` is seven different one-letter names of natural notes |
| Exercises.DisplayedNote | src/exercises/staff-reading/note-identification.ts:27-28 | a pitch-class name followed by an octave number reads back as that pitch class in that octave |
| Exercises.LetterOptionsFacts | src/exercises/staff-reading/note-identification.ts:16-22 | the letter options are four different letters, the correct one exactly once, all in `NOTES` |
| NoteIdentification.GenerateOptions | src/exercises/staff-reading/note-identification.ts:16-22 | the correct letter plus three other letters, shuffled |
| NoteIdentification.GenerateQuestion | src/exercises/staff-reading/note-identification.ts:24-44 | key signature C; the answer is a bare letter of `NOTES`; the one displayed note has that letter as pitch class and an octave from [4, 5] for treble or [2, 3] for bass; the options are the letter options of the answer |
| LedgerLines.GenerateOptions | src/exercises/staff-reading/ledger-lines.ts:20-26 | the correct letter plus three other letters, shuffled |
| LedgerLines.LedgerTablesFacts | src/exercises/staff-reading/ledger-lines.ts:6-9 | every ledger-table entry is a natural letter followed by one octave digit |
| LedgerLines.GenerateQuestion | src/exercises/staff-reading/ledger-lines.ts:28-60 | the clef follows the first coin, the table the clef and the second coin; the displayed note is from that table, the answer is its first character and a letter of `NOTES` |
| LedgerLines.LedgerAnswerIsPitchClass | src/exercises/staff-reading/ledger-lines.ts:38-39 | the first character of a ledger note is its pitch class, and its digit its octave |
| Accidentals.PoolOf | src/exercises/staff-reading/accidentals.ts:19-25 | three pool names per letter |
| Accidentals.AllPossibleNotes | src/exercises/staff-reading/accidentals.ts:19-25 | the `forEach` loop pushes each letter plain, with `#` and with `b`, in letter order |
| Accidentals.PoolDistinct | src/exercises/staff-reading/accidentals.ts:19-25 | the pool built from different letters has no duplicates, and each name starts with one of the letters |
| Accidentals.PoolFacts | src/exercises/staff-reading/accidentals.ts:19-25 | the candidate pool is 21 different names |
| Accidentals.GenerateOptions | src/exercises/staff-reading/accidentals.ts:17-31 | the correct name plus five other pool names, shuffled |
| Accidentals.AccidentalOptionsFacts | src/exercises/staff-reading/accidentals.ts:27-30 | six different names, the correct one exactly once |
| Accidentals.SignedName | src/exercises/staff-reading/accidentals.ts:37-41 | a letter with `#` or `b` is a two-character pool name, and with an octave appended it reads back as itself in that octave |
| Accidentals.GenerateQuestion | src/exercises/staff-reading/accidentals.ts:33-57 | the answer is a letter followed by `#` or `b`, in the pool; the displayed note is that name in an octave from the clef's pair; the options are the six-name options of the answer |
| IntervalIdentification.GenerateOptions | src/exercises/intervals/interval-identification.ts:16-22 | the correct interval plus five other basic intervals, shuffled |
| IntervalIdentification.IntervalsFacts | src/exercises/intervals/interval-identification.ts:4 | `BASIC_INTERVALS` is ten different names, without P8 |
| IntervalIdentification.IntervalOptionsFacts | src/exercises/intervals/interval-identification.ts:16-22 | six different intervals, the correct one exactly once, all basic intervals |
| IntervalIdentification.GenerateQuestion | src/exercises/intervals/interval-identification.ts:24-93 | the root is shown in octave 4 for treble and 3 for bass, followed by its transposition by the drawn interval; the answer is that interval, never P8; a failed transposition gives no question (the source draws again) |
| IntervalConstruction.OrElse | src/exercises/intervals/interval-construction.ts:52 | `a \|\| b` on strings is one of the two, and empty only when both are |
| IntervalConstruction.WrongIntervals | src/exercises/intervals/interval-construction.ts:22-25 | an interval is kept exactly when the root in octave 4 transposes by it and lands on a pitch class other than the correct note's; the filter never grows the list |
| IntervalConstruction.WrongNamesPush | src/exercises/intervals/interval-construction.ts:28-33 | one loop step whose transposition succeeds appends the pitch class it reaches |
| IntervalConstruction.ShuffledWrongSucceed | src/exercises/intervals/interval-construction.ts:27-30 | after the filter and the shuffle, every interval still transposes the root, so the `if (wrongNote)` guard never skips one |
| IntervalConstruction.GenerateOptions | src/exercises/intervals/interval-construction.ts:18-36 | the correct note, then the pitch classes reached by the first five shuffled wrong intervals, shuffled |
| IntervalConstruction.WrongNameDiffers | src/exercises/intervals/interval-construction.ts:24-31 | no wrong option equals the correct note |
| IntervalConstruction.ConstructionOptionsFacts | src/exercises/intervals/interval-construction.ts:18-36 | 1 + min(5, wrong intervals) options, so at most six, with the correct note exactly once |
| IntervalConstruction.GenerateUpwardQuestion | src/exercises/intervals/interval-construction.ts:38-68 | the root is shown in octave 4 for treble and 3 for bass; the answer is the pitch class of its transposition by the drawn interval (the name itself when it has none); a failed transposition gives no question (the source draws again) |
| IntervalConstruction.Semitones | src/exercises/intervals/interval-construction.ts:80-96 | every count is at most 12 |
| IntervalConstruction.SemitonesOfBasic | src/exercises/intervals/interval-construction.ts:80-96 | m2 … M7 count 1 … 11 skipping the tritone, P8 counts 12 |
| IntervalConstruction.SemitonesTritoneAndUnknown | src/exercises/intervals/interval-construction.ts:86-96 | A4 and d5 both count 6, and a name outside the record counts 0 |
| IntervalConstruction.RootMidi | src/exercises/intervals/interval-construction.ts:97-98 | a natural root in octave 3 to 5 has the MIDI number of its letter in that octave, at least 48, so the `!rootMidi` retry never fires |
| IntervalConstruction.DownwardAnswer | src/exercises/intervals/interval-construction.ts:101-107 | the pitch class of the note `fromMidi` spells is a readable name without octave of chroma m mod 12 |
| IntervalConstruction.GenerateDownwardQuestion | src/exercises/intervals/interval-construction.ts:70-123 | the root is shown in octave 5 for treble and 3 for bass and has a MIDI number; the answer is the pitch class of the note at that number minus the interval's semitones |
| IntervalQuality.Lookup | src/exercises/intervals/interval-quality.ts:52 | a key lookup finds nothing exactly when no group has that key, and otherwise the entries of a group with that key |
| IntervalQuality.LookupFinds | src/exercises/intervals/interval-quality.ts:52 | with keys that differ, each key finds its own group |
| IntervalQuality.TableFacts | src/exercises/intervals/interval-quality.ts:7-35 | six interval numbers with different keys, each in two qualities whose semitone counts differ by exactly 1 |
| IntervalQuality.TableAgreesWithSemitones | src/exercises/intervals/interval-quality.ts:7-35 | every semitone count of the table equals the count the interval-construction record gives the same interval name |
| IntervalQuality.AllNotesFacts | src/exercises/intervals/interval-quality.ts:68-86 | the filler names are seventeen different names |
| IntervalQuality.SeedOptions | src/exercises/intervals/interval-quality.ts:53-65 | the `forEach` adds, for each entry, the pitch class reached from the root in octave 4 when it is non-empty and not yet present |
| IntervalQuality.SeededFacts | src/exercises/intervals/interval-quality.ts:53-65 | seeding keeps the options in front, adds at most one name per entry and never a duplicate |
| IntervalQuality.FillCount | src/exercises/intervals/interval-quality.ts:89-91 | the loop stops at six options or when the names run out |
| IntervalQuality.PopFillers | src/exercises/intervals/interval-quality.ts:89-91 | the loop appends the popped names, last entry first, as many as the count allows |
| IntervalQuality.PoppedFacts | src/exercises/intervals/interval-quality.ts:90 | popped names come from the list, and a list without duplicates pops different names |
| IntervalQuality.PoppedAt | src/exercises/intervals/interval-quality.ts:90 | the i-th pop takes the entry i + 1 places from the end |
| IntervalQuality.FilledFacts | src/exercises/intervals/interval-quality.ts:87-91 | filling a duplicate-free start of at most six from the names not present gives six different options that begin with the start |
| IntervalQuality.GenerateOptions | src/exercises/intervals/interval-quality.ts:48-94 | the correct note, the seeded pitch classes, then the popped fillers, shuffled |
| IntervalQuality.QualityOptionsFacts | src/exercises/intervals/interval-quality.ts:48-94 | for every number of the table: exactly six options, no duplicates, the correct note exactly once, and a reordering of the assembled list |
| IntervalQuality.DrawnNumber | src/exercises/intervals/interval-quality.ts:101-103 | a drawn key is a key of the table, with two entries |
| IntervalQuality.DrawnInterval | src/exercises/intervals/interval-quality.ts:104 | the drawn entry is one of that key's entries |
| IntervalQuality.GenerateQuestion | src/exercises/intervals/interval-quality.ts:96-140 | the root is shown in octave 4 for treble and 3 for bass and has a MIDI number; the answer is the pitch class of the note the drawn entry's semitones above it; the options are those of the drawn number |
| ScaleIdentification.DisplayNotes | src/exercises/scales/scale-identification.ts:42 | one displayed note per scale note, the first four followed by octave 4 and the rest by octave 5 |
| ScaleIdentification.DisplayOctaves | src/exercises/scales/scale-identification.ts:42 | scale notes given as pitch classes are shown with the first four in octave 4, the rest in octave 5, each keeping its chroma |
| ScaleIdentification.Labeled | src/exercises/scales/scale-identification.ts:21-25 | one label per root, the root followed by the suffix |
| ScaleIdentification.PushLabels | src/exercises/scales/scale-identification.ts:20-27 | one `forEach` pushes, in order, each label that is neither the correct answer nor already present |
| ScaleIdentification.AddedAppends | src/exercises/scales/scale-identification.ts:20-27 | pushing different new labels appends exactly the labels other than the correct answer, in order |
| ScaleIdentification.LabelsFacts | src/exercises/scales/scale-identification.ts:6-27 | six different major labels and five different minor labels, none shared |
| ScaleIdentification.AddedTwice | src/exercises/scales/scale-identification.ts:16-27 | after both loops the options are the correct answer followed by every other label once: no duplicates, the correct answer first |
| ScaleIdentification.AssembledWithRoot | src/exercises/scales/scale-identification.ts:16-27 | with the root, the assembled options have no duplicates, start with the correct answer and number 11 or 12 |
| ScaleIdentification.GenerateOptions | src/exercises/scales/scale-identification.ts:15-33 | the first six of the shuffled assembled options |
| ScaleIdentification.ScaleOptionsFacts | src/exercises/scales/scale-identification.ts:15-33 | at most six options; with the root exactly six and no duplicates; nothing outside the assembled list; the correct answer is there exactly when the shuffle leaves it among the first six |
| ScaleIdentification.SliceCanDropCorrect | src/exercises/scales/scale-identification.ts:32 | the final slice can drop the correct answer: with the root, all-zero draws leave options without it, for every answer |
| ScaleIdentification.PlainOptionsRepeatCorrect | src/exercises/scales/scale-identification.ts:28-32 | in plain mode the options are three, and the correct label appears twice |
| ScaleIdentification.GenerateQuestion | src/exercises/scales/scale-identification.ts:35-84 | the root comes from the list of the drawn type; the staff is treble, with the type's key signature for the root and the scale notes in octaves 4 and 5; the answer is the type label, with the root when asked |
| ScaleIdentification.CorrectAnswerWithRoot | src/exercises/scales/scale-identification.ts:47-51 | with the root, the answer is the root followed by " Major" or " Minor" |
| ScaleIdentification.CorrectAnswerIsLabel | src/exercises/scales/scale-identification.ts:16-51 | with the root, the answer is one of the eleven labels, so the assembled options are the eleven labels, each once |
| ScaleConstruction.OtherRoot | src/exercises/scales/scale-construction.ts:28-40 | a root is drawn exactly when the list has one other than the chosen root, and then it is in the list and differs from the chosen root |
| ScaleConstruction.OtherRootExists | src/exercises/scales/scale-construction.ts:28-40 | a list whose first two roots differ always has another root to draw |
| ScaleConstruction.WrongRoot | src/exercises/scales/scale-construction.ts:28-40 | each wrong root is from the type's list and never the chosen root |
| ScaleConstruction.SharedRoots | src/exercises/scales/scale-construction.ts:6-35 | exactly D, G and A are in both root lists |
| ScaleConstruction.ConstructionOptionsFacts | src/exercises/scales/scale-construction.ts:25-59 | three options, or four exactly when the other type's list holds the root; the correct answer first; after the shuffle the same options, still with the correct answer |
| ScaleConstruction.ChosenRoot | src/exercises/scales/scale-construction.ts:17-18 | the root is from the chosen type's list |
| ScaleConstruction.GenerateQuestion | src/exercises/scales/scale-construction.ts:15-72 | treble staff, the key signature of the chosen scale, the root shown in octave 4, the answer its scale notes joined by ", ", the shuffled options and the type's step hint |
| ScaleConstruction.Spelled | src/exercises/scales/scale-construction.ts:61-66 | a dash-separated pattern spells one step per letter, W whole and H half |
| ScaleConstruction.Offsets | src/exercises/scales/scale-construction.ts:61-66 | the offsets start at 0 and each step adds its size |
| ScaleConstruction.SpelledHints | src/exercises/scales/scale-construction.ts:61-66 | the hints spell W-W-H-W-W-W-H for major and W-H-W-W-H-W-W for natural minor |
| ScaleConstruction.PatternOffsets | src/exercises/scales/scale-construction.ts:61-66 | the two patterns climb through 0 2 4 5 7 9 11 12 and 0 2 3 5 7 8 10 12 |
| ScaleConstruction.MajorHintIsMajorScale | src/exercises/scales/scale-construction.ts:64 | the major hint climbs through the major scale of the progression engine and closes the octave |
| ScaleConstruction.MinorHintIsRelativeMinor | src/exercises/scales/scale-construction.ts:65 | the minor hint is the major scale read from its sixth degree, and closes the octave |
| DegreeIdentification.NonDiatonic | src/exercises/scales/degree-identification.ts:30-33 | a chromatic name is kept exactly when no scale note has its chroma |
| DegreeIdentification.CoveredIffInScale | src/exercises/scales/degree-identification.ts:31-32 | a name is sounded by the scale exactly when its chroma is among the scale's chromas |
| DegreeIdentification.ChromaticChromas | src/exercises/scales/degree-identification.ts:29 | the twelve chromatic names are pitch classes of chromas 0 to 11 in order |
| DegreeIdentification.NonDiatonicCount | src/exercises/scales/degree-identification.ts:29-34 | a scale of k notes leaves at least 12 − k candidates, so a seven-note scale always leaves one to draw |
| DegreeIdentification.NonDiatonicAvoidsScale | src/exercises/scales/degree-identification.ts:30-33 | no scale note sounds the chroma of a candidate |
| DegreeIdentification.BuildPool | src/exercises/scales/degree-identification.ts:46-50 | the loop pushes "1" to "7" in order, then "Non-diatonic" |
| DegreeIdentification.PoolFacts | src/exercises/scales/degree-identification.ts:46-52 | the eight labels differ, and every answer the exercise can give is one of them |
| DegreeIdentification.DegreeOptionsFacts | src/exercises/scales/degree-identification.ts:63 | the options are six different labels of the pool |
| DegreeIdentification.DegreeSliceCanDropCorrect | src/exercises/scales/degree-identification.ts:63 | the slice can drop the correct answer: with all-zero draws "1" is not offered |
| DegreeIdentification.KeyOf | src/exercises/scales/degree-identification.ts:18 | the drawn key is one of `MAJOR_KEYS` |
| DegreeIdentification.DrawIndex | src/exercises/scales/degree-identification.ts:34 | a draw from a non-empty list is an index of the list |
| DegreeIdentification.GenerateQuestion | src/exercises/scales/degree-identification.ts:17-68 | treble staff in the drawn key's signature; the note shown is the target followed by octave 4; the answer is "Non-diatonic" or the degree number; the options are the first six of the shuffled pool |
| DegreeIdentification.DiatonicTarget | src/exercises/scales/degree-identification.ts:37-43 | in the diatonic case the answer is the degree index + 1, between 1 and 7, and the note shown is the scale note at that index in octave 4, with its own chroma |
| DegreeIdentification.NonDiatonicTarget | src/exercises/scales/degree-identification.ts:27-43 | in the non-diatonic case, for a seven-note scale, the note shown is a chromatic name no scale note sounds, in octave 4 |
| Content.OrElse | src/content/index.ts:83 | `m[key] \|\| rest` gives the entry when it is present and non-empty, and `rest` otherwise; an empty text counts as missing |
| Content.GetProgressionContent | src/content/index.ts:82-84 | a text is returned exactly when the lesson id is one of seq-a … seq-f and its text is non-empty, and it is the text bundled under that id; otherwise null |
| Content.GetChordContent | src/content/index.ts:87-91 | the exact label's entry wins; failing that, the entry of the label with its first " (harm)" removed; null exactly when neither exists; a returned text is never empty |
| Content.CleanLabelWithoutSuffix | src/content/index.ts:89 | a label without " (harm)" is left unchanged by the replace |
| Content.SuffixFoundAtEnd | src/content/index.ts:89 | in `base + " (harm)"` with no '(' in base, the first " (harm)" is the appended one |
| Content.CleanHarmLabel | src/content/index.ts:89 | removing " (harm)" from a harmonic label gives back its natural-major base |
| Content.HarmKeys | src/content/index.ts:64-78 | each of II2, II65, II43, VII7, VII43, VII2 is a key of the chord table both alone and with " (harm)" |
| Content.HarmFallsBackToBase | src/content/index.ts:87-91 | a harmonic label shows its own text when it is non-empty, and otherwise the text of its natural-major base |
| MidiManager.Kind | src/engine/MidiManager.ts:22-23 | `command & 0xF0` is the multiple of 16 at or below the status byte, less than 16 below it |
| MidiManager.KindIgnoresChannel | src/engine/MidiManager.ts:22-23 | every channel (low nibble) of a message kind decodes to that kind |
| MidiManager.KindRanges | src/engine/MidiManager.ts:22-23 | a status is note-on exactly in 0x90–0x9F and note-off exactly in 0x80–0x8F |
| MidiManager.Decode | src/engine/MidiManager.ts:18-39 | a note is pressed exactly on a note-on with positive velocity; it is released exactly on a note-off or a note-on with velocity 0, where a missing velocity is neither; no data or any other status does nothing; the note is `fromMidi` of the second byte |
| MidiManager.DecodeFullMessage | src/engine/MidiManager.ts:19-39 | for a three-byte message: 0x90–0x9F with positive velocity presses, 0x80–0x8F or note-on with velocity 0 releases, any status outside 0x80–0x9F is ignored |
| MidiManager.NoteAt | src/engine/MidiManager.ts:19-26 | the note is `fromMidi` of the second byte; a message without one names no note |
| MidiManager.Added | src/engine/MidiManager.ts:27-31 | the held names after `add` are the old ones plus the new name |
| MidiManager.Removed | src/engine/MidiManager.ts:34-38 | the held names after `delete` are the old ones except that name |
| MidiManager.UpdatesKeepDistinct | src/engine/MidiManager.ts:28-29 | neither update lists a name twice (set semantics) |
| MidiManager.SetSemantics | src/engine/MidiManager.ts:27-36 | pressing a held note or releasing one that is not held changes nothing |
| MidiManager.PressThenRelease | src/engine/MidiManager.ts:25-38 | pressing a note that was not held and releasing it restores the held list exactly |
| MidiManager.MidiInput.constructor | src/engine/MidiManager.ts:7 | the input starts with no held notes |
| MidiManager.MidiInput.OnMidiMessage | src/engine/MidiManager.ts:17-40 | the held list becomes the decoded action applied to the old list and stays free of duplicates |
| Staff.AccidentalRun | src/components/music/Staff.tsx:44 | the run of `#` and `b` at the start of a string is measured exactly: all of it is accidentals and the next character is not |
| Staff.RunBeforeOther | src/components/music/Staff.tsx:44 | a run of accidentals followed by any other character has exactly its own length |
| Staff.Scan | src/components/music/Staff.tsx:44 | a recognised prefix is a letter A–G followed by one of "", `#`, `b`, `bb`, `##`, and it takes in every `#` and `b` that follows the letter |
| Staff.ScanParts | src/components/music/Staff.tsx:44 | a letter, an accidental and a rest not starting with `#` or `b` scan to exactly letter plus accidental |
| Staff.FromScientific | src/components/music/Staff.tsx:44-46 | a converted name consists of a letter, an accidental and only digits, and the result is that name with "/" inserted before the digits |
| Staff.FromScientificAccepts | src/components/music/Staff.tsx:44-46 | every letter, accidental and digit string, such as "C#4", converts to letter + accidental + "/" + digits |
| Staff.VexKeyAccepts | src/components/music/Staff.tsx:49 | every letter + accidental + "/" + digits matches the second pattern |
| Staff.FromScientificGivesVexKey | src/components/music/Staff.tsx:44-50 | a converted name always has the form the second pattern accepts |
| Staff.VexKeyNotScientific | src/components/music/Staff.tsx:44-50 | a key already in "C/4" form never matches the first pattern |
| Staff.ToVexKey | src/components/music/Staff.tsx:42-53 | every kept note is a notation key, and a key already in that form is kept unchanged |
| Staff.ValidNotes | src/components/music/Staff.tsx:41-54 | the filtered list is no longer than the input and holds only notation keys |
| Staff.ValidNotesCount | src/components/music/Staff.tsx:41-54 | nothing is dropped exactly when every note matches one of the two patterns |
| Staff.ValidNotesIdempotent | src/components/music/Staff.tsx:41-54 | converting the converted keys again changes nothing |
| Staff.StaveNotes | src/components/music/Staff.tsx:58-75 | the keys form one whole-note chord; with no valid note it is a single whole rest at b/4; never an empty chord |
| ExercisePlayer.Accuracy | src/components/exercises/ExercisePlayer.tsx:63 | 0 before any answer; otherwise the integer nearest to 100·correct/total, a half rounded up |
| ExercisePlayer.AccuracyBounds | src/components/exercises/ExercisePlayer.tsx:63 | the accuracy is a percentage: at most 100, 0 with no correct answer, 100 when every answer was correct |
| ExercisePlayer.AccuracyRisesWithCorrect | src/components/exercises/ExercisePlayer.tsx:40-48 | a further correct answer never lowers the accuracy |
| ExercisePlayer.Player.constructor | src/components/exercises/ExercisePlayer.tsx:16-21 | no question, no pick, no verdict, and all counters 0 |
| ExercisePlayer.Player.GenerateNewQuestion | src/components/exercises/ExercisePlayer.tsx:23-28 | the new question is shown, the pick and the verdict are cleared, and the streak and counts are kept |
| ExercisePlayer.Player.AnswerSelect | src/components/exercises/ExercisePlayer.tsx:34-49 | with a verdict shown nothing changes; otherwise the pick is recorded and the total rises by 1; an answer equal to the correct one gives Correct and raises streak and correct count by 1, any other gives Incorrect and resets the streak; streak ≤ correct ≤ total is kept |
| ExercisePlayer.Player.ShownAccuracy | src/components/exercises/ExercisePlayer.tsx:63 | the header's accuracy is at most 100, and exactly 100 when every answer so far was correct |
| ProgressionsPage.FindKey | src/pages/ProgressionsPage.tsx:152-154 | `findIndex` gives the first question in the key; it gives none exactly when no question is in that key |
| ProgressionsPage.InsertAdds | src/pages/ProgressionsPage.tsx:105 | inserting into the sorted held list adds the one note and drops none |
| ProgressionsPage.InsertSorted | src/pages/ProgressionsPage.tsx:105 | inserting into a list sorted by pitch keeps it sorted |
| ProgressionsPage.SortBy | src/pages/ProgressionsPage.tsx:105 | the stable `sort(compareNotes)` returns a list in pitch order that is a permutation of its input |
| ProgressionsPage.InsertLast | src/pages/ProgressionsPage.tsx:105 | a note whose pitch is not below any held one goes at the end |
| ProgressionsPage.SortSorted | src/pages/ProgressionsPage.tsx:105 | sorting a list already in pitch order leaves it as it is |
| ProgressionsPage.WithoutInsert | src/pages/ProgressionsPage.tsx:102-105 | inserting a note that is not held and filtering it out again gives back the list |
| ProgressionsPage.Toggled | src/pages/ProgressionsPage.tsx:100-108 | a held note is filtered out, every copy of it, keeping the order of the rest; an absent note is added and the list comes back sorted by pitch and a permutation of old + note |
| ProgressionsPage.ToggleFlips | src/pages/ProgressionsPage.tsx:100-108 | a toggle flips whether the note is held and leaves every other note held or not as before |
| ProgressionsPage.ToggleTwice | src/pages/ProgressionsPage.tsx:100-108 | on a pitch-sorted list, toggling an absent note twice restores the list |
| ProgressionsPage.NextIndex | src/pages/ProgressionsPage.tsx:144-164 | the next index always lies inside the lesson |
| ProgressionsPage.NextStaysInKey | src/pages/ProgressionsPage.tsx:144-157 | in a progression the next question is in the key of the current one, and at most one step ahead |
| ProgressionsPage.NextWalksKeyBlock | src/pages/ProgressionsPage.tsx:144-157 | when a key's questions form one block, a progression steps through it and starts again at its first question after the last |
| ProgressionsPage.NextCycles | src/pages/ProgressionsPage.tsx:158-164 | outside a progression the next index is i + 1, wrapping to 0 after the last question |
| ProgressionsPage.KeyStart | src/pages/ProgressionsPage.tsx:309-313 | the first question of the key when there is one; otherwise the index is left unchanged |
| ProgressionsPage.LessonStart | src/pages/ProgressionsPage.tsx:171-176 | a progression opens at the first question of the selected key, or 0 when it has none; any other lesson opens at 0 |
| ProgressionsPage.Page.constructor | src/pages/ProgressionsPage.tsx:82-85 | the page opens at question 0 with nothing held, no feedback, and key C |
| ProgressionsPage.Page.PianoToggle | src/pages/ProgressionsPage.tsx:100-108 | the held notes become the toggled list, and nothing else changes |
| ProgressionsPage.Page.NextQuestion | src/pages/ProgressionsPage.tsx:140-165 | feedback and held notes are cleared, and the index moves to the next index |
| ProgressionsPage.Page.KeyChange | src/pages/ProgressionsPage.tsx:305-314 | the key is selected, feedback and held notes are cleared, and the index jumps to the key's first question if there is one |
| ProgressionsPage.Page.Restart | src/pages/ProgressionsPage.tsx:315-323 | feedback and held notes are cleared, and the index jumps to the selected key's first question if there is one |
| ProgressionsPage.Page.ChangeLesson | src/pages/ProgressionsPage.tsx:167-177 | the new lesson's questions are shown from its start index; feedback and held notes are cleared, and the selected key is kept |

## Left out

- The React rendering, routing, layout, animation and effect timing are not modelled; they hold no logic beyond what the table lists. This includes the progression page's auto-advance timer and answer feedback (src/pages/ProgressionsPage.tsx:114-138).
- Piano.tsx is not part of this model: it is audio synthesis and a floating-point key layout.
- The WebMIDI plumbing (src/engine/MidiManager.ts:42-59) is I/O. The model starts from one received message, given as a byte sequence.
- The VexFlow drawing in Staff.tsx (stave, formatter, renderer) is a foreign library. The model stops at the list of keys handed to it and the rest fallback.
- i18n, the translation tables, the type declarations and the exercise and lesson registries are data and wiring. Feedback, hint and question texts are kept only where a contract states something about them.
- The notation library is replaced by the pitch model in module `Pitch`. `fromMidi` spells with flats here; no contract depends on which spelling the library picks beyond its pitch and pitch class.
- `Chord.get`, `Scale.get`, `Key.majorKey(key).chords`, `Key.minorKey(key).relativeMajor`, `Note.simplify`, `Note.transpose` and `Interval.semitones` are parameters. The model proves nothing about their tonal results beyond what the callers require.
- A note name the library cannot read has no chroma in the model (`None`). This is the `undefined` that the guards at src/engine/MusicTheory.ts:62 and :102 test for. Whether the library returns exactly that value is outside this model.
- `Math.random()` is replaced by natural-number draws passed in as parameters. Ids built from `Date.now()` and random suffixes are left out.
- The markdown texts bundled by src/content/index.ts:5-36 are the parameter `raw`.
- `Array.prototype.sort` is modelled by the stable result it produces (an insertion sort), not by the engine's algorithm.
- The exercise registry lookups (`getExerciseById`, `getCategoryById`) are not core and are left out.
- ExercisePlayer.Accuracy: `Math.round` of a floating-point quotient is modelled as exact rounding of the rational percentage, a half rounded up. Floating-point error in the quotient is not modelled.
- The chord functions (`T`, `II`, `S`, `D`, `VII`) and the inversion codes are closed datatypes, because the six sequences use only these values. An unknown code, which the source voices in root position, cannot be written in the model.
- MusicHelpers.PickRandom: an empty list gives `None`, where the source reads `undefined` at a random index.

## Findings

| source | as written | input that shows it | evidently intended | confidence | as-written member | corrected member |
|---|---|---|---|---|---|---|
| src/engine/MusicTheory.ts:110-111 | a played note that matches a target chroma is rewritten as the target's spelling plus the played octave number | playing C4 against a chord whose note is spelled B# gives B#4, which sounds at MIDI 72 rather than 60 | keep the played pitch and change only its spelling | not executed | MusicTheory.SpellNoteShiftsOctave | MusicTheory.SpellNoteAtPitchKeepsMidi |
