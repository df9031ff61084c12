/**
 * The triad lesson (src/lessons/basic-harmony/triads.ts): a major and a minor triad on each
 * of seven roots, pushed key by key and then shuffled in place.
 */
module Triads {
  import opened Wrappers
  import opened Seqs
  import opened Text
  import opened MusicTheory
  import opened MusicHelpers
  import opened Lessons
  import opened Grids

  const Keys: seq<string> := ["C", "G", "D", "A", "F", "Bb", "Eb"]

  datatype ChordType = ChordType(name: string, symbol: string)

  const ChordTypes: seq<ChordType> := [ChordType("Major", "M"), ChordType("Minor", "m")]

  /** `Key.minorKey(key).relativeMajor`, a table of tonal that is not modelled. */
  type RelativeMajor = string -> string

  /** The key signature of a triad: its root for a major triad, the relative major for a minor one. */
  function KeySignature(relativeMajor: RelativeMajor, key: string, t: ChordType): string {
    if t.name == "Minor" then relativeMajor(key) else key
  }

  /** The question pushed for type `t` on root `key` (the index is not used). */
  function TriadQuestion(relativeMajor: RelativeMajor, key: string, idx: nat, t: ChordType): Question {
    Question(
      key + "-" + t.symbol,
      key + t.symbol,
      Some(Treble),
      Some(KeySignature(relativeMajor, key, t)),
      ChordByName(key + t.symbol),
      None)
  }

  function Maker(relativeMajor: RelativeMajor): (string, nat, ChordType) -> Question {
    (key: string, idx: nat, t: ChordType) => TriadQuestion(relativeMajor, key, idx, t)
  }

  /** The list before the shuffle. */
  function Generated(relativeMajor: RelativeMajor): seq<Question> {
    Grid(Keys, ChordTypes, Maker(relativeMajor))
  }

  /** `generateAllQuestions`: the nested push loops, then the Fisher–Yates loop on the same array. */
  method GenerateAllQuestions(relativeMajor: RelativeMajor, rnd: Random) returns (questions: seq<Question>)
    ensures questions == Shuffled(Generated(relativeMajor), rnd)
  {
    var built: seq<Question> := [];
    var k := 0;
    while k < |Keys|
      invariant 0 <= k <= |Keys|
      invariant built == Grid(Keys[..k], ChordTypes, Maker(relativeMajor))
    {
      var key := Keys[k];
      var t := 0;
      while t < |ChordTypes|
        invariant 0 <= t <= |ChordTypes|
        invariant built == Grid(Keys[..k], ChordTypes, Maker(relativeMajor)) + Row(key, ChordTypes, Maker(relativeMajor))[..t]
      {
        RowStep(Grid(Keys[..k], ChordTypes, Maker(relativeMajor)), key, ChordTypes, Maker(relativeMajor), t);
        var chordName := key + ChordTypes[t].symbol;
        var keySig := key;
        if ChordTypes[t].name == "Minor" {
          keySig := relativeMajor(key);
        }
        built := built + [Question(key + "-" + ChordTypes[t].symbol, chordName, Some(Treble), Some(keySig),
                                   ChordByName(chordName), None)];
        t := t + 1;
      }
      GridExtend(Keys, k, ChordTypes, Maker(relativeMajor));
      k := k + 1;
    }
    assert Keys[..|Keys|] == Keys;
    var a := new Question[|built|](i requires 0 <= i < |built| => built[i]);
    assert a[..] == built;
    FisherYates(a, rnd);
    questions := a[..];
  }

  /** `TriadsLesson.generateQuestion`: a fresh list, its first entry. */
  method GenerateQuestion(relativeMajor: RelativeMajor, rnd: Random) returns (q: Question)
    ensures q in Generated(relativeMajor)
  {
    var qs := GenerateAllQuestions(relativeMajor, rnd);
    TriadsPermutation(relativeMajor, rnd);
    assert qs[0] in multiset(qs);
    q := qs[0];
  }

  lemma KeysFacts()
    ensures |Keys| == 7 && Distinct(Keys)
    ensures forall k | 0 <= k < |Keys| :: '-' !in Keys[k]
  {
  }

  /** Fourteen questions, a permutation of the list the loops pushed. */
  lemma TriadsPermutation(relativeMajor: RelativeMajor, rnd: Random)
    ensures |Generated(relativeMajor)| == 14
    ensures |Shuffled(Generated(relativeMajor), rnd)| == 14
    ensures multiset(Shuffled(Generated(relativeMajor), rnd)) == multiset(Generated(relativeMajor))
  {
    GridLength(Keys, ChordTypes, Maker(relativeMajor));
    ShuffledIsPermutation(Generated(relativeMajor), rnd);
  }

  /** Every (root, type) pair has its question in the shuffled list. */
  lemma TriadsCover(relativeMajor: RelativeMajor, rnd: Random)
    ensures forall k, t | 0 <= k < 7 && 0 <= t < 2 ::
      TriadQuestion(relativeMajor, Keys[k], t, ChordTypes[t]) in Shuffled(Generated(relativeMajor), rnd)
  {
    var g := Generated(relativeMajor);
    ShuffledMembers(g, rnd);
    GridContains(Keys, ChordTypes, Maker(relativeMajor));
  }

  /** The shuffled list holds nothing but the (root, type) pairs' questions. */
  lemma TriadsOnly(relativeMajor: RelativeMajor, rnd: Random, q: Question)
    requires q in Shuffled(Generated(relativeMajor), rnd)
    ensures exists k, t | 0 <= k < 7 && 0 <= t < 2 :: q == TriadQuestion(relativeMajor, Keys[k], t, ChordTypes[t])
  {
    var g := Generated(relativeMajor);
    ShuffledMembers(g, rnd);
    var p :| 0 <= p < |g| && g[p] == q;
    var k, t := GridMembers(Keys, ChordTypes, Maker(relativeMajor), p);
    assert q == TriadQuestion(relativeMajor, Keys[k], t, ChordTypes[t]);
  }

  /**
   * The question on `key`: the major triad `keyM` under the key's own signature, the minor
   * triad `keym` under its relative major's; both checked by chroma-set equality.
   */
  lemma TriadQuestionFacts(relativeMajor: RelativeMajor, key: string)
    ensures var q := TriadQuestion(relativeMajor, key, 0, ChordTypes[0]);
      q.targetChord == key + "M" && q.keySignature == Some(key) && q.clef == Some(Treble) &&
      forall input, table: ChordTable :: Accepts(q, input, table) == ValidateChord(input, table(key + "M"))
    ensures var q := TriadQuestion(relativeMajor, key, 1, ChordTypes[1]);
      q.targetChord == key + "m" && q.keySignature == Some(relativeMajor(key)) && q.clef == Some(Treble) &&
      forall input, table: ChordTable :: Accepts(q, input, table) == ValidateChord(input, table(key + "m"))
  {
    assert ChordTypes[0].name != "Minor" by {
      assert ChordTypes[0].name[1] == 'a';
    }
  }

  /** Ids of different (root, type) pairs differ. */
  lemma TriadIdInjective(relativeMajor: RelativeMajor, k1: nat, t1: nat, k2: nat, t2: nat)
    requires k1 < 7 && t1 < 2 && k2 < 7 && t2 < 2
    ensures TriadQuestion(relativeMajor, Keys[k1], t1, ChordTypes[t1]).id == TriadQuestion(relativeMajor, Keys[k2], t2, ChordTypes[t2]).id
      ==> k1 == k2 && t1 == t2
  {
    KeysFacts();
    if TriadQuestion(relativeMajor, Keys[k1], t1, ChordTypes[t1]).id == TriadQuestion(relativeMajor, Keys[k2], t2, ChordTypes[t2]).id {
      SplitAtSeparator(Keys[k1], ChordTypes[t1].symbol, Keys[k2], ChordTypes[t2].symbol, '-');
    }
  }

  /** The ids `${root}-${symbol}` of the shuffled list are pairwise distinct. */
  lemma TriadIdsDistinct(relativeMajor: RelativeMajor, rnd: Random)
    ensures IdsDistinct(Shuffled(Generated(relativeMajor), rnd))
  {
    var g := Generated(relativeMajor);
    forall p, q | 0 <= p < q < |g| ensures g[p].id != g[q].id {
      var k1, t1 := GridMembers(Keys, ChordTypes, Maker(relativeMajor), p);
      var k2, t2 := GridMembers(Keys, ChordTypes, Maker(relativeMajor), q);
      TriadIdInjective(relativeMajor, k1, t1, k2, t2);
    }
    ShuffledIsPermutation(g, rnd);
    PermutationKeepsIdsDistinct(g, Shuffled(g, rnd));
  }
}
