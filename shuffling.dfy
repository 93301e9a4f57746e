/** The in-place Fisher-Yates shuffle of the option list (shuffleArray in script.js).
    The random index drawn at each step is supplied by the caller as a choice sequence. */
module Shuffling {

  /** `js` holds one choice per loop index: at index i (0 < i < n) the loop swaps
      positions i and js[i], and the source draws js[i] uniformly from 0..i.
      js[0] is never used, since the loop stops before index 0. */
  predicate ValidChoices(js: seq<int>, n: nat) {
    |js| == n && forall i :: 0 < i < n ==> 0 <= js[i] <= i
  }

  /** Exchange of positions i and j (i == j leaves the sequence as it is). */
  function Swap<T>(s: seq<T>, i: nat, j: nat): (r: seq<T>)
    requires i < |s| && j < |s|
    ensures |r| == |s| && r[i] == s[j] && r[j] == s[i]
    ensures forall k :: 0 <= k < |s| && k != i && k != j ==> r[k] == s[k]
    ensures multiset(r) == multiset(s)
  {
    s[i := s[j]][j := s[i]]
  }

  /** The loop of the shuffle for the indices n-1 down to 1, as a function of the start sequence. */
  function ShuffleDown<T>(s: seq<T>, js: seq<int>, n: nat): seq<T>
    requires n <= |s| && ValidChoices(js, |s|)
    decreases n
  {
    if n <= 1 then s else ShuffleDown(Swap(s, n - 1, js[n - 1]), js, n - 1)
  }

  /** The whole shuffle: the loop starts at the last index. */
  function Shuffled<T>(s: seq<T>, js: seq<int>): seq<T>
    requires ValidChoices(js, |s|)
  {
    ShuffleDown(s, js, |s|)
  }

  lemma {:induction false} ShuffleDownPermutes<T>(s: seq<T>, js: seq<int>, n: nat)
    requires n <= |s| && ValidChoices(js, |s|)
    ensures |ShuffleDown(s, js, n)| == |s|
    ensures multiset(ShuffleDown(s, js, n)) == multiset(s)
    decreases n
  {
    if n > 1 {
      ShuffleDownPermutes(Swap(s, n - 1, js[n - 1]), js, n - 1);
    }
  }

  /** Positions from n on are never touched by the loop steps below n. */
  lemma {:induction false} ShuffleDownKeepsTail<T>(s: seq<T>, js: seq<int>, n: nat, k: nat)
    requires n <= k < |s| && ValidChoices(js, |s|)
    ensures |ShuffleDown(s, js, n)| == |s| && ShuffleDown(s, js, n)[k] == s[k]
    decreases n
  {
    if n > 1 {
      ShuffleDownKeepsTail(Swap(s, n - 1, js[n - 1]), js, n - 1, k);
    }
  }

  /** The shuffle returns a permutation of its input, whatever choices are made. */
  lemma ShuffledPermutes<T>(s: seq<T>, js: seq<int>)
    requires ValidChoices(js, |s|)
    ensures |Shuffled(s, js)| == |s|
    ensures multiset(Shuffled(s, js)) == multiset(s)
  {
    ShuffleDownPermutes(s, js, |s|);
  }

  /** The last slot is settled by the first step: it receives the element at the first choice. */
  lemma ShuffledLastSlot<T>(s: seq<T>, js: seq<int>)
    requires 2 <= |s| && ValidChoices(js, |s|)
    ensures |Shuffled(s, js)| == |s|
    ensures Shuffled(s, js)[|s| - 1] == s[js[|s| - 1]]
  {
    var n := |s|;
    ShuffleDownKeepsTail(Swap(s, n - 1, js[n - 1]), js, n - 1, n - 1);
  }

  /** Every element of the input can end up in the last slot: no element is shut out of it. */
  lemma AnyElementCanBeLast<T>(s: seq<T>, k: nat)
    requires 2 <= |s| && k < |s|
    ensures exists js :: ValidChoices(js, |s|) && |Shuffled(s, js)| == |s| && Shuffled(s, js)[|s| - 1] == s[k]
  {
    var js := seq(|s|, i => if i == |s| - 1 then k else 0);
    assert ValidChoices(js, |s|);
    ShuffledLastSlot(s, js);
  }

  /** The destructuring swap `[array[i], array[j]] = [array[j], array[i]]`. */
  method SwapInPlace<T>(a: array<T>, i: nat, j: nat)
    requires i < a.Length && j < a.Length
    modifies a
    ensures a[..] == Swap(old(a[..]), i, j)
  {
    var t := a[i];
    a[i] := a[j];
    a[j] := t;
  }

  /** shuffleArray: for i from the last index down to 1, swap a[i] with a[js[i]]. */
  method ShuffleArray<T>(a: array<T>, js: seq<int>)
    requires ValidChoices(js, a.Length)
    modifies a
    ensures a[..] == Shuffled(old(a[..]), js)
    ensures multiset(a[..]) == multiset(old(a[..]))
  {
    var i := a.Length - 1;
    while i > 0
      invariant -1 <= i < a.Length
      invariant a.Length > 0 ==> 0 <= i
      invariant ShuffleDown(a[..], js, i + 1) == Shuffled(old(a[..]), js)
      decreases i
    {
      SwapInPlace(a, i, js[i]);
      i := i - 1;
    }
    ShuffledPermutes(old(a[..]), js);
  }
}
