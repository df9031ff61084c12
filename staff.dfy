/**
 * The key conversion of the staff (src/components/music/Staff.tsx): note names such as
 * "C#4" become VexFlow keys such as "C#/4", keys already in that form are kept, anything
 * else is dropped, and an empty result is drawn as a whole rest on the middle line.
 *
 * The two regular expressions are `^([A-G](?:#|b|bb|##)?)([0-9]+)$` and
 * `^[A-G](?:#|b|bb|##)?\/[0-9]+$`. Since neither `#` nor `b` is a digit or `/`, a string
 * matches exactly when its accidentals are the whole run of `#` and `b` after the letter,
 * which is how `Scan` reads it. The drawing itself is not modelled.
 */
module Staff {
  import opened Wrappers

  predicate IsLetter(c: char) {
    'A' <= c <= 'G'
  }

  predicate IsDigit(c: char) {
    '0' <= c <= '9'
  }

  predicate IsAccidentalChar(c: char) {
    c == '#' || c == 'b'
  }

  /** `[0-9]+`. */
  predicate AllDigits(s: string) {
    |s| > 0 && forall i | 0 <= i < |s| :: IsDigit(s[i])
  }

  /** `(?:#|b|bb|##)?`. */
  predicate IsAccidental(a: string) {
    a == "" || a == "#" || a == "b" || a == "bb" || a == "##"
  }

  /** The length of the run of `#` and `b` that starts the string. */
  function AccidentalRun(s: string): (r: nat)
    ensures r <= |s|
    ensures forall i | 0 <= i < r :: IsAccidentalChar(s[i])
    ensures r < |s| ==> !IsAccidentalChar(s[r])
  {
    if s != [] && IsAccidentalChar(s[0]) then 1 + AccidentalRun(s[1..]) else 0
  }

  /** A run that stops at a character other than `#` and `b` is measured exactly. */
  lemma {:induction false} RunBeforeOther(a: string, rest: string)
    requires forall i | 0 <= i < |a| :: IsAccidentalChar(a[i])
    requires rest != [] && !IsAccidentalChar(rest[0])
    ensures AccidentalRun(a + rest) == |a|
  {
    if a != [] {
      assert (a + rest)[1..] == a[1..] + rest;
      RunBeforeOther(a[1..], rest);
    } else {
      assert a + rest == rest;
    }
  }

  /** The length of letter and accidental of a note name, when they are well formed. */
  function Scan(n: string): (r: Option<nat>)
    ensures r.Some? ==> 1 <= r.value <= |n| && IsLetter(n[0]) && IsAccidental(n[1..r.value])
    ensures r.Some? ==> r.value == |n| || !IsAccidentalChar(n[r.value])
  {
    if |n| >= 1 && IsLetter(n[0]) then
      var k := 1 + AccidentalRun(n[1..]);
      assert n[1..][..k - 1] == n[1..k];
      if IsAccidental(n[1..k]) then Some(k) else None
    else None
  }

  /** The scan of a letter, an accidental and something not starting with `#` or `b`. */
  lemma ScanParts(letter: char, acc: string, rest: string)
    requires IsLetter(letter) && IsAccidental(acc)
    requires rest != [] && !IsAccidentalChar(rest[0])
    ensures Scan([letter] + acc + rest) == Some(1 + |acc|)
  {
    var n := [letter] + acc + rest;
    assert n[1..] == acc + rest;
    RunBeforeOther(acc, rest);
    assert n[1..1 + |acc|] == acc;
  }

  /** The first pattern: "C#4" becomes "C#/4". */
  function FromScientific(n: string): (r: Option<string>)
    ensures r.Some? ==> exists k | 1 <= k <= |n| ::
      IsLetter(n[0]) && IsAccidental(n[1..k]) && AllDigits(n[k..]) && r.value == n[..k] + "/" + n[k..]
  {
    var k := Scan(n);
    if k.Some? && AllDigits(n[k.value..]) then Some(n[..k.value] + "/" + n[k.value..]) else None
  }

  /** The second pattern: a key already in VexFlow's form. */
  predicate IsVexKey(n: string) {
    var k := Scan(n);
    k.Some? && k.value < |n| && n[k.value] == '/' && AllDigits(n[k.value + 1..])
  }

  /** Every name of letter, accidental and octave digits is converted, and only the slash is added. */
  lemma FromScientificAccepts(letter: char, acc: string, digits: string)
    requires IsLetter(letter) && IsAccidental(acc) && AllDigits(digits)
    ensures FromScientific([letter] + acc + digits) == Some([letter] + acc + "/" + digits)
  {
    var n := [letter] + acc + digits;
    ScanParts(letter, acc, digits);
    assert n[..1 + |acc|] == [letter] + acc;
    assert n[1 + |acc|..] == digits;
  }

  /** Every key of letter, accidental, slash and digits is recognised as a VexFlow key. */
  lemma VexKeyAccepts(letter: char, acc: string, digits: string)
    requires IsLetter(letter) && IsAccidental(acc) && AllDigits(digits)
    ensures IsVexKey([letter] + acc + "/" + digits)
  {
    var n := [letter] + acc + "/" + digits;
    assert n == [letter] + acc + ("/" + digits);
    ScanParts(letter, acc, "/" + digits);
    assert n[1 + |acc|] == '/';
    assert n[2 + |acc|..] == digits;
  }

  /** A converted name is a VexFlow key. */
  lemma FromScientificGivesVexKey(n: string)
    requires FromScientific(n).Some?
    ensures IsVexKey(FromScientific(n).value)
  {
    var k := Scan(n).value;
    VexKeyAccepts(n[0], n[1..k], n[k..]);
    assert n[..k] == [n[0]] + n[1..k];
  }

  /** A VexFlow key does not match the first pattern: its slash is not a digit. */
  lemma VexKeyNotScientific(n: string)
    requires IsVexKey(n)
    ensures FromScientific(n).None?
  {
    var k := Scan(n).value;
    assert !IsDigit(n[k..][0]);
  }

  /** One element of the `map`: converted, kept, or `null` (`None`). */
  function ToVexKey(n: string): (r: Option<string>)
    ensures r.Some? ==> IsVexKey(r.value)
    ensures IsVexKey(n) ==> r == Some(n)
  {
    var converted := FromScientific(n);
    if converted.Some? then
      FromScientificGivesVexKey(n);
      converted
    else if IsVexKey(n) then Some(n)
    else None
  }

  /** The notes a staff draws: the `map`, then the `filter` of nulls. */
  function ValidNotes(notes: seq<string>): (r: seq<string>)
    ensures |r| <= |notes|
    ensures forall i | 0 <= i < |r| :: IsVexKey(r[i])
  {
    if notes == [] then []
    else
      var rest := ValidNotes(notes[1..]);
      match ToVexKey(notes[0])
      case Some(key) => [key] + rest
      case None => rest
  }

  /** The filter keeps exactly the notes that one of the patterns matches, in their order. */
  lemma {:induction false} ValidNotesCount(notes: seq<string>)
    ensures |ValidNotes(notes)| == |notes| <==> forall i | 0 <= i < |notes| :: ToVexKey(notes[i]).Some?
  {
    if notes != [] {
      ValidNotesCount(notes[1..]);
      assert forall i | 1 <= i < |notes| :: notes[i] == notes[1..][i - 1];
    }
  }

  /** Converting keys already converted changes nothing. */
  lemma {:induction false} ValidNotesIdempotent(notes: seq<string>)
    ensures ValidNotes(ValidNotes(notes)) == ValidNotes(notes)
  {
    if notes != [] {
      ValidNotesIdempotent(notes[1..]);
      var once := ValidNotes(notes);
      if ToVexKey(notes[0]).Some? {
        assert once[1..] == ValidNotes(notes[1..]);
        assert ToVexKey(once[0]) == Some(once[0]);
      }
    }
  }

  /** What the staff draws: one whole-note chord of the keys, or a whole rest at `b/4`. */
  datatype StaveNote = StaveNote(keys: seq<string>, duration: string)

  function StaveNotes(notes: seq<string>): (r: StaveNote)
    ensures ValidNotes(notes) != [] ==> r == StaveNote(ValidNotes(notes), "w")
    ensures ValidNotes(notes) == [] ==> r == StaveNote(["b/4"], "wr")
    ensures r.keys != []
  {
    var validNotes := ValidNotes(notes);
    if |validNotes| > 0 then StaveNote(validNotes, "w")
    else StaveNote(["b/4"], "wr")
  }
}
