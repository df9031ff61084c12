/**
 * The distractor recipe shared by the multiple-choice exercises: start from the correct
 * answer, add the first `k` entries of a shuffled copy of the pool without the correct
 * answer, and shuffle the result.
 */
module Options {
  import opened Seqs
  import opened MusicHelpers

  /** `s.slice(0, k)`. */
  function Take<T>(s: seq<T>, k: nat): (r: seq<T>)
    ensures |r| == if k < |s| then k else |s|
    ensures r == s[..|r|]
  {
    if k < |s| then s[..k] else s
  }

  /** The options list, as a value: `shuffle([correct, ...shuffle(others).slice(0, k)])`. */
  function PickOptions<T(==,!new)>(correct: T, pool: seq<T>, k: nat, rnd1: Random, rnd2: Random): seq<T> {
    Shuffled([correct] + Take(Shuffled(Without(pool, correct), rnd1), k), rnd2)
  }

  /** `generateOptions` of the exercises: the same steps on fresh arrays. */
  method GenerateOptions<T(==,!new)>(correct: T, pool: seq<T>, k: nat, rnd1: Random, rnd2: Random)
    returns (options: seq<T>)
    ensures options == PickOptions(correct, pool, k, rnd1, rnd2)
  {
    options := [correct];
    var others := Without(pool, correct);
    var shuffled := Shuffle(others, rnd1);
    options := options + Take(shuffled, k);
    options := Shuffle(options, rnd2);
  }

  /**
   * Drawn from a pool without duplicates, the options number 1 + min(k, others), have no
   * duplicates, hold the correct answer exactly once, and hold nothing outside the pool
   * but the correct answer.
   */
  lemma PickOptionsFacts<T(!new)>(correct: T, pool: seq<T>, k: nat, rnd1: Random, rnd2: Random)
    requires Distinct(pool)
    ensures var others := |pool| - (if correct in pool then 1 else 0);
      |PickOptions(correct, pool, k, rnd1, rnd2)| == 1 + (if k < others then k else others)
    ensures Distinct(PickOptions(correct, pool, k, rnd1, rnd2))
    ensures multiset(PickOptions(correct, pool, k, rnd1, rnd2))[correct] == 1
    ensures forall x | x in PickOptions(correct, pool, k, rnd1, rnd2) :: x == correct || x in pool
  {
    var others := Without(pool, correct);
    WithoutCounts(pool, correct);
    WithoutKeepsDistinct(pool, correct);
    if correct in pool {
      DistinctOccursOnce(pool, correct);
    }
    var shuffled := Shuffled(others, rnd1);
    ShuffledIsPermutation(others, rnd1);
    ShuffledMembers(others, rnd1);
    var taken := Take(shuffled, k);
    DistinctPrefix(shuffled, |taken|);
    assert correct !in taken by {
      assert forall x | x in taken :: x in shuffled;
    }
    var assembled := [correct] + taken;
    DistinctCons(correct, taken);
    ShuffledIsPermutation(assembled, rnd2);
    ShuffledMembers(assembled, rnd2);
    DistinctOccursOnce(PickOptions(correct, pool, k, rnd1, rnd2), correct);
    forall x | x in PickOptions(correct, pool, k, rnd1, rnd2) ensures x == correct || x in pool {
      assert x in assembled;
      if x != correct {
        assert x in taken && x in shuffled;
      }
    }
  }
}
