/**
 * Shared exercise helpers of src/exercises/utils/music-helpers.ts: the Fisher–Yates
 * shuffle, picking a random element, and the key-signature tables.
 *
 * `Math.random()` is not modelled: the index `Math.floor(Math.random() * n)` it yields
 * is any number in [0, n). A draw is represented by a natural `x` that names the index
 * directly, values beyond the range standing for the last index. A shuffle receives the
 * whole stream of draws it will use (`rnd(k)` for its k-th draw), a single pick one.
 */
module MusicHelpers {
  import opened Wrappers
  import opened Pitch
  import opened Seqs

  /** The stream of draws a shuffle makes. */
  type Random = nat -> nat

  /** `Math.floor(Math.random() * n)`: an index below `n`. */
  function RandomIndex(x: nat, n: nat): (j: nat)
    requires n > 0
    ensures j < n
  {
    if x < n then x else n - 1
  }

  /** Every index below `n` is a possible outcome of a draw, and no other. */
  lemma RandomIndexCovers(n: nat, j: nat)
    requires j < n
    ensures RandomIndex(j, n) == j
  {
  }

  /** The list with the entries at `i` and `j` exchanged (`[r[i], r[j]] = [r[j], r[i]]`). */
  function Swap<T>(s: seq<T>, i: nat, j: nat): (r: seq<T>)
    requires i < |s| && j < |s|
    ensures |r| == |s|
  {
    s[i := s[j]][j := s[i]]
  }

  lemma SwapIsPermutation<T>(s: seq<T>, i: nat, j: nat)
    requires i < |s| && j < |s|
    ensures multiset(Swap(s, i, j)) == multiset(s)
  {
  }

  /**
   * The swaps of the loop from swap number k on, applied to `t`: swap number k takes
   * draw number k and exchanges position i = n−1−k with position floor(x·(i+1)); the loop
   * stops once i reaches 0.
   */
  function Rest<T>(t: seq<T>, rnd: Random, k: nat): (r: seq<T>)
    ensures |r| == |t|
    decreases |t| - k
  {
    if k + 1 >= |t| then t
    else
      var i := |t| - 1 - k;
      Rest(Swap(t, i, RandomIndex(rnd(k), i + 1)), rnd, k + 1)
  }

  /** Each swap only reorders, so the remaining swaps do too. */
  lemma {:induction false} RestIsPermutation<T>(t: seq<T>, rnd: Random, k: nat)
    ensures multiset(Rest(t, rnd, k)) == multiset(t)
    decreases |t| - k
  {
    if k + 1 < |t| {
      var i := |t| - 1 - k;
      var j := RandomIndex(rnd(k), i + 1);
      var next := Swap(t, i, j);
      assert Rest(t, rnd, k) == Rest(next, rnd, k + 1);
      SwapIsPermutation(t, i, j);
      RestIsPermutation(next, rnd, k + 1);
    }
  }

  /** The result of `shuffle(s)` for the draws `rnd`: all swaps for i = n−1 down to 1. */
  function Shuffled<T>(s: seq<T>, rnd: Random): seq<T>
  {
    Rest(s, rnd, 0)
  }

  /** Shuffling only reorders: same length, same entries with the same multiplicities. */
  lemma ShuffledIsPermutation<T>(s: seq<T>, rnd: Random)
    ensures |Shuffled(s, rnd)| == |s|
    ensures multiset(Shuffled(s, rnd)) == multiset(s)
  {
    RestIsPermutation(s, rnd, 0);
  }

  /** Positions after the one swap number k works on are settled: later swaps never touch them. */
  lemma {:induction false} RestKeepsSettled<T>(t: seq<T>, rnd: Random, k: nat, p: nat)
    requires |t| - 1 - k < p < |t|
    ensures Rest(t, rnd, k)[p] == t[p]
    decreases |t| - k
  {
    if k + 1 < |t| {
      var i := |t| - 1 - k;
      var next := Swap(t, i, RandomIndex(rnd(k), i + 1));
      assert Rest(t, rnd, k) == Rest(next, rnd, k + 1);
      assert next[p] == t[p];
      RestKeepsSettled(next, rnd, k + 1, p);
    }
  }

  /** Lists of length 0 or 1 draw nothing and come back unchanged. */
  lemma ShuffledShort<T>(s: seq<T>, rnd: Random)
    requires |s| <= 1
    ensures Shuffled(s, rnd) == s
  {
  }

  /** Shuffling keeps a list free of duplicates, and keeps its members. */
  lemma ShuffledMembers<T>(s: seq<T>, rnd: Random)
    ensures forall x :: x in Shuffled(s, rnd) <==> x in s
    ensures Distinct(s) ==> Distinct(Shuffled(s, rnd))
  {
    ShuffledIsPermutation(s, rnd);
    forall x ensures x in Shuffled(s, rnd) <==> x in s {
      assert x in Shuffled(s, rnd) <==> x in multiset(Shuffled(s, rnd));
    }
    if Distinct(s) {
      PermutationKeepsDistinct(s, Shuffled(s, rnd));
    }
  }

  /** `[a[i], a[j]] = [a[j], a[i]]`. */
  method SwapInPlace<T>(a: array<T>, i: nat, j: nat)
    requires i < a.Length && j < a.Length
    modifies a
    ensures a[..] == Swap(old(a[..]), i, j)
  {
    a[i], a[j] := a[j], a[i];
  }

  /**
   * The swap loop of `shuffle`, run in place on `a` (as triads.ts and common-chords.ts
   * do on their question arrays).
   */
  method FisherYates<T>(a: array<T>, rnd: Random)
    modifies a
    ensures a[..] == Shuffled(old(a[..]), rnd)
  {
    ghost var goal := Shuffled(a[..], rnd);
    ghost var k: nat := 0;
    var i := a.Length - 1;
    while i > 0
      invariant i == a.Length - 1 - k
      invariant Rest(a[..], rnd, k) == goal
      decreases i
    {
      var j := RandomIndex(rnd(a.Length - 1 - i), i + 1);
      SwapInPlace(a, i, j);
      k := k + 1;
      i := i - 1;
    }
  }

  /** `shuffle(array)`: the swap loop on a fresh copy; the argument is a value and stays as it was. */
  method Shuffle<T>(s: seq<T>, rnd: Random) returns (r: seq<T>)
    ensures r == Shuffled(s, rnd)
    ensures |r| == |s| && multiset(r) == multiset(s)
  {
    var a := new T[|s|](k requires 0 <= k < |s| => s[k]);
    assert a[..] == s;
    FisherYates(a, rnd);
    r := a[..];
    ShuffledIsPermutation(s, rnd);
  }

  /** `pickRandom(array)`: `undefined` (here `None`) for an empty array. */
  function PickRandom<T>(s: seq<T>, x: nat): (r: Option<T>)
    ensures r.Some? <==> |s| > 0
    ensures r.Some? ==> exists i | 0 <= i < |s| :: r.value == s[i]
  {
    if |s| == 0 then None else Some(s[RandomIndex(x, |s|)])
  }

  /** The major keys VexFlow accepts as key signatures; each is its own signature. */
  const MajorKeySignatures: map<string, string> := map[
    "C" := "C", "G" := "G", "D" := "D", "A" := "A", "E" := "E", "B" := "B",
    "F#" := "F#", "C#" := "C#", "F" := "F", "Bb" := "Bb", "Eb" := "Eb",
    "Ab" := "Ab", "Db" := "Db", "Gb" := "Gb", "Cb" := "Cb"]

  /** Minor roots and the major key that shares their signature. */
  const MinorToRelativeMajor: map<string, string> := map[
    "A" := "C", "E" := "G", "B" := "D", "F#" := "A", "C#" := "E", "G#" := "B",
    "D#" := "F#", "D" := "F", "G" := "Bb", "C" := "Eb", "F" := "Ab", "Bb" := "Db",
    "Eb" := "Gb"]

  const SimpleMajorKeys: seq<string> := ["C", "G", "D", "A", "E", "F", "Bb", "Eb", "Ab"]
  const SimpleMinorKeys: seq<string> := ["A", "E", "B", "D", "G", "C", "F"]

  datatype ScaleType = MajorScale | MinorScale

  /**
   * `getKeySignatureForScale`: the major table's entry for a major scale, the relative
   * major for a minor one, and "C" for a root the table does not list.
   */
  function GetKeySignatureForScale(root: string, scaleType: ScaleType): (r: string)
    ensures scaleType == MajorScale ==> r == if root in MajorKeySignatures then root else "C"
    ensures scaleType == MinorScale && root in MinorToRelativeMajor ==> r == MinorToRelativeMajor[root]
    ensures scaleType == MinorScale && root !in MinorToRelativeMajor ==> r == "C"
    ensures r in MajorKeySignatures
  {
    match scaleType
    case MajorScale => if root in MajorKeySignatures then MajorKeySignatures[root] else "C"
    case MinorScale => if root in MinorToRelativeMajor then MinorToRelativeMajor[root] else "C"
  }

  /** Names written as `minor` and `relative`, of chromas c and c + 3, a minor third apart. */
  lemma NamesThirdApart(root: string, major: string, minor: Note, relative: Note, c: int)
    requires WellFormed(minor) && WellFormed(relative) && 0 <= c < 12
    requires Show(minor) == root && Show(relative) == major
    requires (LetterSemitones(minor.letter) + minor.alt) % 12 == c
    requires (LetterSemitones(relative.letter) + relative.alt) % 12 == (c + 3) % 12
    ensures Chroma(root) == Some(c) && Chroma(major) == Some((c + 3) % 12)
  {
    ShowFacts(minor);
    ShowFacts(relative);
  }

  /** The rows of the minor table, a few at a time. */
  lemma RelativeMajorsPart1(root: string)
    requires root in {"A", "E", "B", "F#"}
    ensures Chroma(root).Some? && Chroma(MinorToRelativeMajor[root]).Some?
    ensures Chroma(MinorToRelativeMajor[root]).value == (Chroma(root).value + 3) % 12
  {
    if root == "A" {
      assert MinorToRelativeMajor[root] == "C";
      NamesThirdApart("A", "C", Note('A', 0, None), Note('C', 0, None), 9);
    } else if root == "E" {
      assert MinorToRelativeMajor[root] == "G";
      NamesThirdApart("E", "G", Note('E', 0, None), Note('G', 0, None), 4);
    } else if root == "B" {
      assert MinorToRelativeMajor[root] == "D";
      NamesThirdApart("B", "D", Note('B', 0, None), Note('D', 0, None), 11);
    } else {
      assert MinorToRelativeMajor[root] == "A";
      NamesThirdApart("F#", "A", Note('F', 1, None), Note('A', 0, None), 6);
    }
  }

  lemma RelativeMajorsPart2(root: string)
    requires root in {"C#", "G#", "D#"}
    ensures Chroma(root).Some? && Chroma(MinorToRelativeMajor[root]).Some?
    ensures Chroma(MinorToRelativeMajor[root]).value == (Chroma(root).value + 3) % 12
  {
    if root == "C#" {
      assert MinorToRelativeMajor[root] == "E";
      NamesThirdApart("C#", "E", Note('C', 1, None), Note('E', 0, None), 1);
    } else if root == "G#" {
      assert MinorToRelativeMajor[root] == "B";
      NamesThirdApart("G#", "B", Note('G', 1, None), Note('B', 0, None), 8);
    } else {
      assert MinorToRelativeMajor[root] == "F#";
      NamesThirdApart("D#", "F#", Note('D', 1, None), Note('F', 1, None), 3);
    }
  }

  lemma RelativeMajorsPart3(root: string)
    requires root in {"D", "G", "C"}
    ensures Chroma(root).Some? && Chroma(MinorToRelativeMajor[root]).Some?
    ensures Chroma(MinorToRelativeMajor[root]).value == (Chroma(root).value + 3) % 12
  {
    if root == "D" {
      assert MinorToRelativeMajor[root] == "F";
      NamesThirdApart("D", "F", Note('D', 0, None), Note('F', 0, None), 2);
    } else if root == "G" {
      assert MinorToRelativeMajor[root] == "Bb";
      NamesThirdApart("G", "Bb", Note('G', 0, None), Note('B', -1, None), 7);
    } else {
      assert MinorToRelativeMajor[root] == "Eb";
      NamesThirdApart("C", "Eb", Note('C', 0, None), Note('E', -1, None), 0);
    }
  }

  lemma RelativeMajorsPart4(root: string)
    requires root in {"F", "Bb", "Eb"}
    ensures Chroma(root).Some? && Chroma(MinorToRelativeMajor[root]).Some?
    ensures Chroma(MinorToRelativeMajor[root]).value == (Chroma(root).value + 3) % 12
  {
    if root == "F" {
      assert MinorToRelativeMajor[root] == "Ab";
      NamesThirdApart("F", "Ab", Note('F', 0, None), Note('A', -1, None), 5);
    } else if root == "Bb" {
      assert MinorToRelativeMajor[root] == "Db";
      NamesThirdApart("Bb", "Db", Note('B', -1, None), Note('D', -1, None), 10);
    } else {
      assert MinorToRelativeMajor[root] == "Gb";
      NamesThirdApart("Eb", "Gb", Note('E', -1, None), Note('G', -1, None), 3);
    }
  }

  /** Every relative major lies three semitones above its minor root. */
  lemma RelativeMajorIsThreeAbove(root: string)
    requires root in MinorToRelativeMajor
    ensures Chroma(root).Some? && Chroma(MinorToRelativeMajor[root]).Some?
    ensures Chroma(MinorToRelativeMajor[root]).value == (Chroma(root).value + 3) % 12
  {
    if root == "A" || root == "E" || root == "B" || root == "F#" {
      RelativeMajorsPart1(root);
    } else if root == "C#" || root == "G#" || root == "D#" {
      RelativeMajorsPart2(root);
    } else if root == "D" || root == "G" || root == "C" {
      RelativeMajorsPart3(root);
    } else {
      RelativeMajorsPart4(root);
    }
  }
}
