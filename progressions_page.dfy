/**
 * The state of the progressions page (src/pages/ProgressionsPage.tsx) that its handlers
 * change: the index of the current question, the notes the player holds, the feedback and
 * the selected key. Only the handlers' state changes are modelled; rendering, the
 * translated messages and the auto-advance timer are not.
 *
 * `lesson.questions.findIndex(q => q.metadata?.key === k)` is `FindKey`: a question
 * without metadata never matches, because `undefined === k` is false for a string `k`.
 */
module ProgressionsPage {
  import opened Wrappers
  import opened Seqs
  import opened Pitch
  import opened Lessons

  /** `q.metadata?.key === k`. */
  predicate HasKey(q: Question, k: string) {
    q.metadata.Some? && q.metadata.value.key == k
  }

  /** `findIndex`: the first question in key `k`, if any. */
  function FindKey(qs: seq<Question>, k: string): (r: Option<nat>)
    ensures r.Some? ==> r.value < |qs| && HasKey(qs[r.value], k)
    ensures r.Some? ==> forall j | 0 <= j < r.value :: !HasKey(qs[j], k)
    ensures r.None? <==> forall j | 0 <= j < |qs| :: !HasKey(qs[j], k)
  {
    if qs == [] then None
    else if HasKey(qs[0], k) then Some(0)
    else
      var rest := FindKey(qs[1..], k);
      assert forall j | 1 <= j < |qs| :: qs[j] == qs[1..][j - 1];
      if rest.Some? then Some(rest.value + 1) else None
  }

  /** Ordered by a key, as `sort` with a comparator `(a, b) => key(a) - key(b)` leaves a list. */
  predicate SortedBy<T>(s: seq<T>, key: T -> int) {
    forall i, j | 0 <= i < j < |s| :: key(s[i]) <= key(s[j])
  }

  /** One step of a stable insertion sort: `x` goes after every element whose key is not above its own. */
  function Insert<T>(x: T, s: seq<T>, key: T -> int): (r: seq<T>)
    ensures |r| == |s| + 1 && (r[0] == x || (s != [] && r[0] == s[0]))
  {
    if s == [] then [x]
    else if key(x) < key(s[0]) then [x] + s
    else [s[0]] + Insert(x, s[1..], key)
  }

  /** Inserting adds the one element and drops none. */
  lemma {:induction false} InsertAdds<T>(x: T, s: seq<T>, key: T -> int)
    ensures multiset(Insert(x, s, key)) == multiset(s) + multiset{x}
  {
    if s != [] && key(x) >= key(s[0]) {
      InsertAdds(x, s[1..], key);
      assert s == [s[0]] + s[1..];
    }
  }

  /** Inserting into a sorted list keeps it sorted. */
  lemma {:induction false} InsertSorted<T>(x: T, s: seq<T>, key: T -> int)
    requires SortedBy(s, key)
    ensures SortedBy(Insert(x, s, key), key)
  {
    if s != [] && key(x) >= key(s[0]) {
      InsertSorted(x, s[1..], key);
      var tail := Insert(x, s[1..], key);
      assert key(s[0]) <= key(tail[0]);
    }
  }

  /** `Array.prototype.sort`, which is stable: an insertion sort from the left. */
  function SortBy<T>(s: seq<T>, key: T -> int): (r: seq<T>)
    ensures SortedBy(r, key)
    ensures multiset(r) == multiset(s)
  {
    if s == [] then []
    else
      var front := SortBy(s[..|s| - 1], key);
      InsertAdds(s[|s| - 1], front, key);
      InsertSorted(s[|s| - 1], front, key);
      assert s == s[..|s| - 1] + [s[|s| - 1]];
      Insert(s[|s| - 1], front, key)
  }

  /** An element whose key is not below any of a sorted list goes at its end. */
  lemma {:induction false} InsertLast<T>(x: T, s: seq<T>, key: T -> int)
    requires SortedBy(s, key)
    requires forall i | 0 <= i < |s| :: key(s[i]) <= key(x)
    ensures Insert(x, s, key) == s + [x]
  {
    if s != [] {
      InsertLast(x, s[1..], key);
      assert s == [s[0]] + s[1..];
    }
  }

  /** Sorting keeps a list that is already in order as it is. */
  lemma {:induction false} SortSorted<T>(s: seq<T>, key: T -> int)
    requires SortedBy(s, key)
    ensures SortBy(s, key) == s
  {
    if s != [] {
      var front := s[..|s| - 1];
      SortSorted(front, key);
      InsertLast(s[|s| - 1], front, key);
      assert front + [s[|s| - 1]] == s;
    }
  }

  /** Inserting an element not yet listed and filtering it out again gives back the list. */
  lemma {:induction false} WithoutInsert<T(!new)>(x: T, s: seq<T>, key: T -> int)
    requires SortedBy(s, key) && x !in s
    ensures Without(Insert(x, s, key), x) == s
  {
    if s == [] {
      WithoutHead(x, [], x);
    } else if key(x) < key(s[0]) {
      WithoutHead(x, s, x);
      WithoutAbsentIsSame(s, x);
    } else {
      assert s[0] in s;
      WithoutInsert(x, s[1..], key);
      WithoutHead(s[0], Insert(x, s[1..], key), x);
      assert s == [s[0]] + s[1..];
    }
  }

  /** Filtering a list with a known head. */
  lemma WithoutHead<T(!new)>(h: T, t: seq<T>, x: T)
    ensures Without([h] + t, x) == if h == x then Without(t, x) else [h] + Without(t, x)
  {
    assert ([h] + t)[0] == h && ([h] + t)[1..] == t;
  }

  lemma {:induction false} WithoutAbsentIsSame<T(!new)>(s: seq<T>, x: T)
    requires x !in s
    ensures Without(s, x) == s
  {
    if s != [] {
      assert s == [s[0]] + s[1..];
      WithoutAbsentIsSame(s[1..], x);
    }
  }

  /**
   * `handlePianoToggle(note)` on the held notes: a held note is filtered out, every copy of
   * it; any other note is appended and the list sorted by pitch.
   */
  function Toggled(prev: seq<string>, note: string): (r: seq<string>)
    ensures note in prev ==> r == Without(prev, note)
    ensures note !in prev ==> SortedBy(r, MidiOr0) && multiset(r) == multiset(prev) + multiset{note}
  {
    if note in prev then Without(prev, note)
    else SortBy(prev + [note], MidiOr0)
  }

  /** Toggling flips whether the note is held and leaves every other note as it was. */
  lemma ToggleFlips(prev: seq<string>, note: string, other: string)
    requires other != note
    ensures note in Toggled(prev, note) <==> note !in prev
    ensures other in Toggled(prev, note) <==> other in prev
  {
    var r := Toggled(prev, note);
    if note !in prev {
      assert note in multiset(r);
      assert other in multiset(r) <==> other in multiset(prev);
    }
  }

  /** On a sorted list, toggling an absent note twice restores the list. */
  lemma ToggleTwice(prev: seq<string>, note: string)
    requires SortedBy(prev, MidiOr0) && note !in prev
    ensures Toggled(Toggled(prev, note), note) == prev
  {
    SortSorted(prev, MidiOr0);
    assert (prev + [note])[..|prev|] == prev;
    var once := Toggled(prev, note);
    assert once == Insert(note, prev, MidiOr0);
    InsertAdds(note, prev, MidiOr0);
    assert note in multiset(once);
    WithoutInsert(note, prev, MidiOr0);
  }

  /**
   * `nextQuestion()`: in a progression lesson whose current question has metadata, the
   * next question when it is in the same key, else the first question of that key; in any
   * other case the next question, wrapping to 0 after the last.
   */
  function NextIndex(isProgression: bool, qs: seq<Question>, i: nat): (r: nat)
    ensures |qs| > 0 ==> r < |qs|
  {
    if isProgression && i < |qs| && qs[i].metadata.Some? then
      var k := qs[i].metadata.value.key;
      if i + 1 < |qs| && HasKey(qs[i + 1], k) then i + 1
      else
        var start := FindKey(qs, k);
        if start.Some? then start.value else 0
    else if i < |qs| - 1 then i + 1
    else 0
  }

  /** A progression never leaves the key of its current question. */
  lemma NextStaysInKey(qs: seq<Question>, i: nat)
    requires i < |qs| && qs[i].metadata.Some?
    ensures HasKey(qs[NextIndex(true, qs, i)], qs[i].metadata.value.key)
    ensures NextIndex(true, qs, i) <= i + 1
  {
    var k := qs[i].metadata.value.key;
    var start := FindKey(qs, k);
    assert HasKey(qs[i], k);
    assert start.Some? && start.value <= i;
  }

  /**
   * When the questions of a key form one block `[s, e)`, a progression walks it in order
   * and starts over at its first question after the last one.
   */
  lemma NextWalksKeyBlock(qs: seq<Question>, k: string, s: nat, e: nat, i: nat)
    requires s <= i < e <= |qs|
    requires forall j | s <= j < e :: HasKey(qs[j], k)
    requires forall j | 0 <= j < |qs| && (j < s || e <= j) :: !HasKey(qs[j], k)
    ensures NextIndex(true, qs, i) == if i + 1 < e then i + 1 else s
  {
    assert HasKey(qs[i], k);
    var start := FindKey(qs, k);
    assert HasKey(qs[s], k);
    assert start.Some?;
    assert start.value == s by {
      assert start.value >= s;
      assert start.value <= s;
    }
  }

  /** Outside a progression the questions are taken in order, round the lesson. */
  lemma NextCycles(qs: seq<Question>, i: nat)
    requires i < |qs|
    ensures NextIndex(false, qs, i) == (i + 1) % |qs|
  {
  }

  /** The index the key selector and the restart button jump to, when the key has a question. */
  function KeyStart(qs: seq<Question>, k: string, current: nat): (r: nat)
    ensures FindKey(qs, k).Some? ==> r == FindKey(qs, k).value && HasKey(qs[r], k)
    ensures FindKey(qs, k).None? ==> r == current
  {
    var first := FindKey(qs, k);
    if first.Some? then first.value else current
  }

  /** The first index of a lesson just opened: the first question of the selected key, or 0. */
  function LessonStart(isProgression: bool, qs: seq<Question>, selectedKey: string): (r: nat)
    ensures |qs| > 0 ==> r < |qs|
    ensures isProgression && FindKey(qs, selectedKey).Some? ==> HasKey(qs[r], selectedKey)
    ensures isProgression && FindKey(qs, selectedKey).Some? ==>
      forall j | 0 <= j < r :: !HasKey(qs[j], selectedKey)
    ensures !(isProgression && FindKey(qs, selectedKey).Some?) ==> r == 0
  {
    if isProgression then
      var first := FindKey(qs, selectedKey);
      if first.Some? then first.value else 0
    else 0
  }

  /** The feedback shown after a check: whether the notes were right. */
  datatype Feedback = Feedback(isCorrect: bool)

  class Page {
    var questions: seq<Question>
    var isProgression: bool
    var currentQuestionIndex: nat
    var userNotes: seq<string>
    var feedback: Option<Feedback>
    var selectedKey: string

    /** The current question exists whenever the lesson has one. */
    ghost predicate Valid()
      reads this
    {
      currentQuestionIndex < |questions| || currentQuestionIndex == 0
    }

    /** The page as first rendered: question 0, nothing held, key C. */
    constructor(questions: seq<Question>, isProgression: bool)
      ensures Valid()
      ensures this.questions == questions && this.isProgression == isProgression
      ensures currentQuestionIndex == 0 && userNotes == [] && feedback == None && selectedKey == "C"
    {
      this.questions := questions;
      this.isProgression := isProgression;
      currentQuestionIndex := 0;
      userNotes := [];
      feedback := None;
      selectedKey := "C";
    }

    /** `handlePianoToggle(note)`. */
    method PianoToggle(note: string)
      modifies this
      ensures userNotes == Toggled(old(userNotes), note)
      ensures questions == old(questions) && isProgression == old(isProgression)
      ensures currentQuestionIndex == old(currentQuestionIndex)
      ensures feedback == old(feedback) && selectedKey == old(selectedKey)
    {
      if note in userNotes {
        userNotes := Without(userNotes, note);
      } else {
        userNotes := SortBy(userNotes + [note], MidiOr0);
      }
    }

    /** `nextQuestion()`: clears the feedback and the held notes and moves on. */
    method NextQuestion()
      requires Valid()
      modifies this
      ensures Valid()
      ensures currentQuestionIndex == NextIndex(isProgression, questions, old(currentQuestionIndex))
      ensures feedback == None && userNotes == []
      ensures questions == old(questions) && isProgression == old(isProgression)
      ensures selectedKey == old(selectedKey)
    {
      feedback := None;
      userNotes := [];
      var i := currentQuestionIndex;
      if isProgression && i < |questions| && questions[i].metadata.Some? {
        var k := questions[i].metadata.value.key;
        var nextIndex := i + 1;
        if nextIndex < |questions| && HasKey(questions[nextIndex], k) {
          currentQuestionIndex := nextIndex;
        } else {
          var startOfKey := FindKey(questions, k);
          if startOfKey.Some? {
            currentQuestionIndex := startOfKey.value;
          } else {
            currentQuestionIndex := 0;
          }
        }
      } else if i < |questions| - 1 {
        currentQuestionIndex := i + 1;
      } else {
        currentQuestionIndex := 0;
      }
    }

    /** `onKeyChange(k)`: selects the key, clears, and jumps to its first question if any. */
    method KeyChange(k: string)
      requires Valid()
      modifies this
      ensures Valid()
      ensures selectedKey == k && feedback == None && userNotes == []
      ensures currentQuestionIndex == KeyStart(questions, k, old(currentQuestionIndex))
      ensures questions == old(questions) && isProgression == old(isProgression)
    {
      selectedKey := k;
      feedback := None;
      userNotes := [];
      var firstQIndex := FindKey(questions, k);
      if firstQIndex.Some? {
        currentQuestionIndex := firstQIndex.value;
      }
    }

    /** `onRestart()`: clears and jumps to the first question of the selected key if any. */
    method Restart()
      requires Valid()
      modifies this
      ensures Valid()
      ensures feedback == None && userNotes == []
      ensures currentQuestionIndex == KeyStart(questions, selectedKey, old(currentQuestionIndex))
      ensures questions == old(questions) && isProgression == old(isProgression)
      ensures selectedKey == old(selectedKey)
    {
      feedback := None;
      userNotes := [];
      var firstQIndex := FindKey(questions, selectedKey);
      if firstQIndex.Some? {
        currentQuestionIndex := firstQIndex.value;
      }
    }

    /** The effect on `lesson.id`: a new lesson opens at its start; the selected key is kept. */
    method ChangeLesson(newQuestions: seq<Question>, newIsProgression: bool)
      modifies this
      ensures Valid()
      ensures questions == newQuestions && isProgression == newIsProgression
      ensures feedback == None && userNotes == []
      ensures currentQuestionIndex == LessonStart(newIsProgression, newQuestions, selectedKey)
      ensures selectedKey == old(selectedKey)
    {
      questions := newQuestions;
      isProgression := newIsProgression;
      feedback := None;
      userNotes := [];
      if isProgression {
        var firstQKey := FindKey(questions, selectedKey);
        currentQuestionIndex := if firstQKey.Some? then firstQKey.value else 0;
      } else {
        currentQuestionIndex := 0;
      }
    }
  }
}
