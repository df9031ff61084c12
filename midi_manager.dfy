/**
 * The MIDI keyboard input of src/engine/MidiManager.ts: each incoming message is decoded
 * from its status byte and updates the list of held notes.
 *
 * The hook keeps a JavaScript `Set` of note names and hands it out as
 * `Array.from(activeNotes)`, which lists names in the order they were first added; the
 * model keeps that list, without duplicates, as the field `activeNotes`. Note names come
 * from `Pitch.FromMidi`, the model of tonal's `Note.fromMidi`.
 */
module MidiManager {
  import opened Wrappers
  import opened Seqs
  import opened Pitch

  const NoteOn: nat := 144
  const NoteOff: nat := 128

  /** `command & 0xF0` for a byte: the message kind, with the channel in the low nibble cleared. */
  function Kind(command: nat): (k: nat)
    requires command < 256
    ensures k % 16 == 0 && k <= command < k + 16
  {
    command - command % 16
  }

  /** The kind ignores the channel: every channel of a kind decodes to that kind. */
  lemma KindIgnoresChannel(kind: nat, channel: nat)
    requires kind < 256 && kind % 16 == 0 && channel < 16
    ensures Kind(kind + channel) == kind
  {
  }

  /** A status byte is a note-on exactly when it lies in 0x90..0x9F, a note-off in 0x80..0x8F. */
  lemma KindRanges(command: nat)
    requires command < 256
    ensures Kind(command) == NoteOn <==> 144 <= command < 160
    ensures Kind(command) == NoteOff <==> 128 <= command < 144
  {
  }

  /** What one message does to the held notes. */
  datatype Action = Press(name: string) | Release(name: string) | Ignore

  /**
   * The name of the note byte, `Note.fromMidi(note)`. The message is destructured without
   * a length check, so a missing note byte is `undefined`, which tonal names "".
   */
  function NoteAt(bytes: seq<nat>): (name: string)
    requires forall i | 0 <= i < |bytes| :: bytes[i] < 256
    ensures |bytes| >= 2 ==> name == FromMidi(bytes[1])
    ensures |bytes| < 2 ==> name == ""
  {
    if |bytes| >= 2 then FromMidi(bytes[1]) else ""
  }

  /**
   * The decoding of `onMidiMessage`. No data, or an empty message, does nothing: the
   * missing status reads as 0. A note-on with a positive velocity presses the note. A
   * note-off, or a note-on with velocity 0, releases it. A missing velocity is neither
   * positive nor 0, so a short note-on does nothing while a short note-off still
   * releases. Any other status does nothing.
   */
  function Decode(data: Option<seq<nat>>): (a: Action)
    requires data.Some? ==> forall i | 0 <= i < |data.value| :: data.value[i] < 256
    ensures a.Press? <==> data.Some? && |data.value| >= 3 && Kind(data.value[0]) == NoteOn && data.value[2] > 0
    ensures a.Release? <==> (data.Some? && |data.value| >= 1 &&
      (Kind(data.value[0]) == NoteOff || (Kind(data.value[0]) == NoteOn && |data.value| >= 3 && data.value[2] == 0)))
    ensures !a.Ignore? ==> a.name == NoteAt(data.value)
  {
    match data
    case None => Ignore
    case Some(bytes) =>
      if |bytes| == 0 then Ignore
      else
        var command := bytes[0];
        var isNoteOn := Kind(command) == NoteOn;
        var isNoteOff := Kind(command) == NoteOff;
        if isNoteOn && |bytes| >= 3 && bytes[2] > 0 then Press(NoteAt(bytes))
        else if isNoteOff || (isNoteOn && |bytes| >= 3 && bytes[2] == 0) then Release(NoteAt(bytes))
        else Ignore
  }

  /** A full three-byte message presses or releases exactly as the MIDI status says. */
  lemma DecodeFullMessage(status: nat, note: nat, velocity: nat)
    requires status < 256 && note < 256 && velocity < 256
    ensures var a := Decode(Some([status, note, velocity]));
      (144 <= status < 160 && velocity > 0 ==> a == Press(FromMidi(note))) &&
      ((128 <= status < 144 || (144 <= status < 160 && velocity == 0)) ==> a == Release(FromMidi(note))) &&
      (!(128 <= status < 160) ==> a == Ignore)
  {
    KindRanges(status);
  }

  /** `new Set(prev).add(name)`, listed: appended unless already held. */
  function Added(held: seq<string>, name: string): (r: seq<string>)
    ensures forall x :: x in r <==> x in held || x == name
  {
    if name in held then held else held + [name]
  }

  /** `new Set(prev).delete(name)`, listed: every other name in its order. */
  function Removed(held: seq<string>, name: string): (r: seq<string>)
    ensures forall x :: x in r <==> x in held && x != name
  {
    Without(held, name)
  }

  /** Neither update ever lists a note twice. */
  lemma UpdatesKeepDistinct(held: seq<string>, name: string)
    requires Distinct(held)
    ensures Distinct(Added(held, name)) && Distinct(Removed(held, name))
  {
    if name !in held {
      DistinctAppend(held, [name]);
    }
    WithoutKeepsDistinct(held, name);
  }

  function Apply(held: seq<string>, a: Action): seq<string> {
    match a
    case Press(name) => Added(held, name)
    case Release(name) => Removed(held, name)
    case Ignore => held
  }

  /** Pressing a held note, or releasing one that is not held, changes nothing. */
  lemma SetSemantics(held: seq<string>, name: string)
    ensures name in held ==> Added(held, name) == held
    ensures name !in held ==> Removed(held, name) == held
  {
    if name !in held {
      WithoutAbsent(held, name);
    }
  }

  lemma {:induction false} WithoutAbsent(s: seq<string>, x: string)
    requires x !in s
    ensures Without(s, x) == s
  {
    if s != [] {
      assert s == [s[0]] + s[1..];
      WithoutAbsent(s[1..], x);
    }
  }

  /** Pressing a note that was not held and releasing it again restores the held list. */
  lemma PressThenRelease(held: seq<string>, name: string)
    requires name !in held
    ensures Removed(Added(held, name), name) == held
  {
    WithoutSnocLast(held, name);
  }

  lemma {:induction false} WithoutSnocLast(s: seq<string>, x: string)
    requires x !in s
    ensures Without(s + [x], x) == s
  {
    if s == [] {
      assert [x][1..] == [];
    } else {
      assert (s + [x])[1..] == s[1..] + [x];
      WithoutSnocLast(s[1..], x);
      assert s == [s[0]] + s[1..];
    }
  }

  /** The hook's state: the held notes, in the order they were pressed. */
  class MidiInput {
    var activeNotes: seq<string>

    ghost predicate Valid()
      reads this
    {
      Distinct(activeNotes)
    }

    /** `useState(new Set())`. */
    constructor()
      ensures activeNotes == [] && Valid()
    {
      activeNotes := [];
    }

    /** `onMidiMessage(event)`: decode the bytes, then press or release the note. */
    method OnMidiMessage(data: Option<seq<nat>>)
      requires Valid()
      requires data.Some? ==> forall i | 0 <= i < |data.value| :: data.value[i] < 256
      modifies this
      ensures Valid()
      ensures activeNotes == Apply(old(activeNotes), Decode(data))
    {
      if data.None? {
        return;
      }
      var bytes := data.value;
      if |bytes| == 0 {
        return;
      }
      var command := bytes[0];
      var isNoteOn := Kind(command) == NoteOn;
      var isNoteOff := Kind(command) == NoteOff;
      if isNoteOn && |bytes| >= 3 && bytes[2] > 0 {
        var noteName := NoteAt(bytes);
        UpdatesKeepDistinct(activeNotes, noteName);
        if noteName !in activeNotes {
          activeNotes := activeNotes + [noteName];
        }
      } else if isNoteOff || (isNoteOn && |bytes| >= 3 && bytes[2] == 0) {
        var noteName := NoteAt(bytes);
        UpdatesKeepDistinct(activeNotes, noteName);
        activeNotes := Without(activeNotes, noteName);
      }
    }
  }
}
