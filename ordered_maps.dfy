/**
 * PHP arrays with string keys and string values, as the discovery code uses
 * them: an ordered list of entries, `$a[$k] = $v` overwriting an existing key
 * in its place and appending a new one at the end.
 */
module OrderedMaps {
  import opened Wrappers

  type Entries = seq<(string, string)>

  predicate HasKey(m: Entries, k: string) {
    exists i | 0 <= i < |m| :: m[i].0 == k
  }

  /** No key occurs twice, as in every PHP array. */
  predicate DistinctKeys(m: Entries) {
    forall i, j | 0 <= i < j < |m| :: m[i].0 != m[j].0
  }

  /** The position of key `k` in `m`, if it is there. */
  function IndexOf(m: Entries, k: string): (r: Option<nat>)
    ensures r.None? <==> !HasKey(m, k)
    ensures r.Some? ==> r.value < |m| && m[r.value].0 == k && forall j | 0 <= j < r.value :: m[j].0 != k
  {
    if m == [] then None
    else if m[0].0 == k then Some(0)
    else
      match IndexOf(m[1..], k)
      case None => None
      case Some(i) => Some(i + 1)
  }

  /** `$m[$k]` with `isset` semantics: the value stored under `k`, if any. */
  function Get(m: Entries, k: string): (r: Option<string>)
    ensures r.None? <==> !HasKey(m, k)
    ensures r.Some? ==> exists i | 0 <= i < |m| :: m[i] == (k, r.value)
  {
    match IndexOf(m, k)
    case None => None
    case Some(i) => Some(m[i].1)
  }

  /** In an array without repeated keys every entry is what a read of its key returns. */
  lemma GetEntry(m: Entries, x: int)
    requires DistinctKeys(m) && 0 <= x < |m|
    ensures Get(m, m[x].0) == Some(m[x].1)
  {
  }

  /** `$m[$k] = $v`: overwrite in place when `k` is present, append otherwise. */
  function Put(m: Entries, k: string, v: string): (r: Entries)
    ensures forall k' :: HasKey(r, k') <==> HasKey(m, k') || k' == k
    ensures |r| == if HasKey(m, k) then |m| else |m| + 1
    ensures forall i | 0 <= i < |m| :: r[i].0 == m[i].0
    ensures DistinctKeys(m) ==> DistinctKeys(r)
  {
    match IndexOf(m, k)
    case None =>
      var r := m + [(k, v)];
      assert r[|m|].0 == k;
      assert forall i | 0 <= i < |m| :: r[i] == m[i];
      r
    case Some(i) =>
      var r := m[i := (k, v)];
      assert forall j | 0 <= j < |m| :: r[j].0 == m[j].0;
      r
  }

  /** After `$m[$k] = $v` the key `k` holds `v` and every other key is untouched. */
  lemma PutGet(m: Entries, k: string, v: string, k': string)
    requires DistinctKeys(m)
    ensures Get(Put(m, k, v), k') == if k' == k then Some(v) else Get(m, k')
  {
  }

  /**
   * The key of the first entry whose value is `v`: the `foreach` over an
   * array that stops at the first `$value === $v`.
   */
  function FirstKeyWithValue(m: Entries, v: string): (r: Option<string>)
    ensures r.None? <==> forall i | 0 <= i < |m| :: m[i].1 != v
    ensures r.Some? ==> exists i | 0 <= i < |m| :: m[i] == (r.value, v) && forall j | 0 <= j < i :: m[j].1 != v
  {
    if m == [] then None
    else if m[0].1 == v then Some(m[0].0)
    else
      var r := FirstKeyWithValue(m[1..], v);
      assert forall i | 0 <= i < |m[1..]| :: m[1..][i] == m[i + 1];
      r
  }

  /** The search of `FirstKeyWithValue` as the loop that performs it. */
  method FindKeyWithValue(m: Entries, v: string) returns (r: Option<string>)
    ensures r == FirstKeyWithValue(m, v)
  {
    for i := 0 to |m|
      invariant forall j | 0 <= j < i :: m[j].1 != v
    {
      if m[i].1 == v {
        return Some(m[i].0);
      }
    }
    return None;
  }
}
