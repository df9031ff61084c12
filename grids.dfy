/**
 * The shape shared by the lesson builders: `KEYS.forEach(key => items.forEach((item, idx)
 * => questions.push(make(key, idx, item))))`. The result lists the entries key by key,
 * and within a key item by item.
 */
module Grids {

  /** The entries pushed for one key. */
  function Row<S, T>(key: string, items: seq<S>, make: (string, nat, S) -> T): (r: seq<T>)
    ensures |r| == |items|
    ensures forall i | 0 <= i < |items| :: r[i] == make(key, i, items[i])
  {
    seq(|items|, i requires 0 <= i < |items| => make(key, i, items[i]))
  }

  /** The entries pushed for the listed keys, key after key. */
  function Grid<S, T>(keys: seq<string>, items: seq<S>, make: (string, nat, S) -> T): seq<T> {
    if |keys| == 0 then []
    else Grid(keys[..|keys| - 1], items, make) + Row(keys[|keys| - 1], items, make)
  }

  /** The step of the inner loop: one more item appends that item's entry. */
  lemma RowStep<S, T>(done: seq<T>, key: string, items: seq<S>, make: (string, nat, S) -> T, t: nat)
    requires t < |items|
    ensures done + Row(key, items, make)[..t + 1] == done + Row(key, items, make)[..t] + [make(key, t, items[t])]
  {
    var row := Row(key, items, make);
    assert row[..t + 1] == row[..t] + [row[t]];
  }

  /** The step of the outer loop: one more key appends that key's row. */
  lemma GridExtend<S, T>(keys: seq<string>, k: nat, items: seq<S>, make: (string, nat, S) -> T)
    requires k < |keys|
    ensures Grid(keys[..k + 1], items, make) == Grid(keys[..k], items, make) + Row(keys[k], items, make)
  {
    assert keys[..k + 1][..k] == keys[..k];
  }

  lemma MulStep(k: nat, n: nat)
    ensures (k + 1) * n == k * n + n
  {
  }

  lemma {:induction false} MulMonotone(a: nat, b: nat, n: nat)
    requires a <= b
    ensures a * n <= b * n
  {
    if a < b {
      MulMonotone(a, b - 1, n);
      MulStep(b - 1, n);
    }
  }

  /** |keys| · |items| entries. */
  lemma {:induction false} GridLength<S, T>(keys: seq<string>, items: seq<S>, make: (string, nat, S) -> T)
    ensures |Grid(keys, items, make)| == |keys| * |items|
  {
    if |keys| > 0 {
      GridLength(keys[..|keys| - 1], items, make);
      MulStep(|keys| - 1, |items|);
    }
  }

  /** Entry k·n + i is item i in key k. */
  lemma {:induction false} GridLayout<S, T>(keys: seq<string>, items: seq<S>, make: (string, nat, S) -> T, k: nat, i: nat)
    requires k < |keys| && i < |items|
    ensures |Grid(keys, items, make)| == |keys| * |items|
    ensures k * |items| + i < |keys| * |items|
    ensures Grid(keys, items, make)[k * |items| + i] == make(keys[k], i, items[i])
  {
    var n := |items|;
    var last := |keys| - 1;
    var prefix := keys[..last];
    GridLength(prefix, items, make);
    GridLength(keys, items, make);
    MulStep(last, n);
    if k < last {
      GridLayout(prefix, items, make, k, i);
      MulStep(k, n);
      MulMonotone(k + 1, last, n);
    } else {
      assert k * n + i == |Grid(prefix, items, make)| + i;
    }
  }

  /** Every entry is some key's entry for some item, at its place k·n + i. */
  lemma {:induction false} GridMembers<S, T>(keys: seq<string>, items: seq<S>, make: (string, nat, S) -> T, p: nat)
    returns (k: nat, i: nat)
    requires p < |Grid(keys, items, make)|
    ensures k < |keys| && i < |items| && p == k * |items| + i
    ensures Grid(keys, items, make)[p] == make(keys[k], i, items[i])
  {
    var prefix := keys[..|keys| - 1];
    var front := Grid(prefix, items, make);
    if p < |front| {
      k, i := GridMembers(prefix, items, make, p);
      assert prefix[k] == keys[k];
    } else {
      GridLength(prefix, items, make);
      k, i := |keys| - 1, p - |front|;
    }
  }

  /** Every (key, item) pair's entry is in the grid. */
  lemma GridContains<S, T>(keys: seq<string>, items: seq<S>, make: (string, nat, S) -> T)
    ensures forall k, i | 0 <= k < |keys| && 0 <= i < |items| :: make(keys[k], i, items[i]) in Grid(keys, items, make)
  {
    forall k, i | 0 <= k < |keys| && 0 <= i < |items| ensures make(keys[k], i, items[i]) in Grid(keys, items, make) {
      GridHas(keys, items, make, k, i);
    }
  }

  lemma GridHas<S, T>(keys: seq<string>, items: seq<S>, make: (string, nat, S) -> T, k: nat, i: nat)
    requires k < |keys| && i < |items|
    ensures make(keys[k], i, items[i]) in Grid(keys, items, make)
  {
    GridLayout(keys, items, make, k, i);
    InAt(Grid(keys, items, make), k * |items| + i, make(keys[k], i, items[i]));
  }

  lemma InAt<T>(s: seq<T>, p: nat, x: T)
    requires p < |s| && s[p] == x
    ensures x in s
  {
  }

  /** The grid holds nothing but the (key, item) pairs' entries. */
  lemma GridOnly<S, T>(keys: seq<string>, items: seq<S>, make: (string, nat, S) -> T)
    ensures forall x | x in Grid(keys, items, make) ::
      exists k, i | 0 <= k < |keys| && 0 <= i < |items| :: x == make(keys[k], i, items[i])
  {
    forall x | x in Grid(keys, items, make)
      ensures exists k, i | 0 <= k < |keys| && 0 <= i < |items| :: x == make(keys[k], i, items[i])
    {
      var p :| 0 <= p < |Grid(keys, items, make)| && Grid(keys, items, make)[p] == x;
      var k, i := GridMembers(keys, items, make, p);
    }
  }
}
