/** Array `find` with an equality test on one field, as the board components use it. */
module Search {
  import opened Wrappers

  /** `s.find(x => key(x) === k)`: the first element whose key is `k`, if any. */
  function Find<T, K(==)>(s: seq<T>, key: T -> K, k: K): (r: Option<T>)
    ensures r.Some? ==>
      exists i :: (&& 0 <= i < |s| && s[i] == r.value && key(s[i]) == k
                   && forall j :: 0 <= j < i ==> key(s[j]) != k)
    ensures r.None? ==> forall i :: 0 <= i < |s| ==> key(s[i]) != k
  {
    if s == [] then None
    else if key(s[0]) == k then Some(s[0])
    else Find(s[1..], key, k)
  }
}
