/** Substrings: where a needle stands, and where it is found first. */
module Search {
  import opened Wrappers

  lemma Associate<T>(a: seq<T>, b: seq<T>, c: seq<T>)
    ensures a + (b + c) == a + b + c
  {
  }

  /** `w` stands in `s` at position `i`. */
  predicate Sits<T(==)>(w: seq<T>, s: seq<T>, i: nat) {
    i + |w| <= |s| && forall k {:trigger w[k]} | 0 <= k < |w| :: s[i + k] == w[k]
  }

  /** Where `needle` first stands from position `i` on. */
  function Find<T(==)>(s: seq<T>, needle: seq<T>, i: nat): (r: Option<nat>)
    ensures r.Some? ==> i <= r.value && r.value + |needle| <= |s|
    decreases |s| - i
  {
    if Sits(needle, s, i) then Some(i)
    else if i < |s| then Find(s, needle, i + 1)
    else None
  }

  lemma {:induction false} FindSkips<T>(s: seq<T>, needle: seq<T>, i: nat, j: nat)
    requires i <= j <= |s| && forall k: nat | i <= k < j :: !Sits(needle, s, k)
    ensures Find(s, needle, i) == Find(s, needle, j)
    decreases j - i
  {
    if i < j { FindSkips(s, needle, i + 1, j); }
  }

  lemma {:induction false} FindMeans<T>(s: seq<T>, needle: seq<T>, i: nat)
    ensures Find(s, needle, i).Some? ==>
              Sits(needle, s, Find(s, needle, i).value) && forall k: nat | i <= k < Find(s, needle, i).value :: !Sits(needle, s, k)
    ensures Find(s, needle, i).None? ==> forall k: nat | i <= k :: !Sits(needle, s, k)
    decreases |s| - i
  {
    if i < |s| { FindMeans(s, needle, i + 1); }
  }
}
