/** The sample C program analysed by the application: array sum, bubble sort,
    Fibonacci, number categories and string reversal. C `int` is taken as a
    mathematical integer. */
module CExample {
  import opened Wrappers

  /** The sum of the elements of `s`. */
  function Sum(s: seq<int>): int
    decreases |s|
  {
    if s == [] then 0 else Sum(s[..|s| - 1]) + s[|s| - 1]
  }

  /** The sum of two consecutive pieces is the sum of the whole. */
  lemma {:induction false} SumAppend(s: seq<int>, t: seq<int>)
    ensures Sum(s + t) == Sum(s) + Sum(t)
    decreases |t|
  {
    if t == [] {
      assert s + t == s;
    } else {
      assert (s + t)[..|s + t| - 1] == s + t[..|t| - 1];
      SumAppend(s, t[..|t| - 1]);
    }
  }

  /** `sum_array`: `arr[0] + ... + arr[size - 1]`, and 0 for a size of 0 or less. */
  method SumArray(arr: array<int>, size: int) returns (sum: int)
    requires size <= arr.Length
    ensures sum == if size <= 0 then 0 else Sum(arr[..size])
  {
    sum := 0;
    var i := 0;
    while i < size
      invariant 0 <= i <= (if size < 0 then 0 else size) && sum == Sum(arr[..i])
    {
      assert arr[..i + 1][..i] == arr[..i];
      sum := sum + arr[i];
      i := i + 1;
    }
    if size > 0 {
      assert i == size;
    }
  }

  /** The sum the program prints for `{1, 2, 3, 4, 5}`. */
  lemma SumExample()
    ensures Sum([1, 2, 3, 4, 5]) == 15
  {
    assert [1, 2, 3, 4, 5][..4] == [1, 2, 3, 4];
    assert [1, 2, 3, 4][..3] == [1, 2, 3];
    assert [1, 2, 3][..2] == [1, 2];
    assert [1, 2][..1] == [1];
  }

  predicate SortedRange(s: seq<int>, lo: int, hi: int)
    requires 0 <= lo <= hi <= |s|
  {
    forall x, y :: lo <= x < y < hi ==> s[x] <= s[y]
  }

  /** Nothing in `s[..k]` exceeds anything in `s[k..hi]`. */
  predicate Below(s: seq<int>, k: int, hi: int)
    requires 0 <= k <= hi <= |s|
  {
    forall x, y :: 0 <= x < k <= y < hi ==> s[x] <= s[y]
  }

  /** `bubble_sort`: after outer pass `i` the last `i + 1` places of
      `arr[0..n)` hold the largest elements in order; at the end the prefix is
      sorted, a permutation of what it was, and the rest is untouched. */
  method BubbleSort(arr: array<int>, n: int)
    requires n <= arr.Length
    modifies arr
    ensures n >= 0 ==> SortedRange(arr[..], 0, n)
    ensures multiset(arr[..]) == multiset(old(arr[..]))
    ensures n >= 0 ==> arr[n..] == old(arr[n..])
    ensures n < 0 ==> arr[..] == old(arr[..])
  {
    if n <= 1 {
      return;
    }
    var i := 0;
    while i < n - 1
      invariant 0 <= i <= n - 1
      invariant SortedRange(arr[..], n - i, n) && Below(arr[..], n - i, n)
      invariant multiset(arr[..]) == multiset(old(arr[..]))
      invariant arr[n..] == old(arr[n..])
    {
      BubblePass(arr, n, i);
      i := i + 1;
    }
    assert SortedRange(arr[..], 1, n) && Below(arr[..], 1, n);
  }

  /** One outer pass: the largest of `arr[0..n - i)` bubbles up to `n - i - 1`. */
  method BubblePass(arr: array<int>, n: int, i: int)
    requires 0 <= i < n - 1 && n <= arr.Length
    requires SortedRange(arr[..], n - i, n) && Below(arr[..], n - i, n)
    modifies arr
    ensures SortedRange(arr[..], n - i - 1, n) && Below(arr[..], n - i - 1, n)
    ensures multiset(arr[..]) == multiset(old(arr[..]))
    ensures arr[n..] == old(arr[n..])
  {
    var j := 0;
    while j < n - i - 1
      invariant 0 <= j <= n - i - 1
      invariant forall x :: 0 <= x < j ==> arr[x] <= arr[j]
      invariant SortedRange(arr[..], n - i, n) && Below(arr[..], n - i, n)
      invariant multiset(arr[..]) == multiset(old(arr[..]))
      invariant arr[n..] == old(arr[n..])
    {
      ghost var before := arr[..];
      CompareSwap(arr, j);
      SwapKeeps(before, j, n, i);
      j := j + 1;
    }
    BubbleDone(arr[..], n, i);
  }

  /** The body of the inner loop: exchange `arr[j]` and `arr[j + 1]` when they
      are out of order. */
  method CompareSwap(arr: array<int>, j: int)
    requires 0 <= j < arr.Length - 1
    modifies arr
    ensures arr[..] == Step(old(arr[..]), j)
  {
    if arr[j] > arr[j + 1] {
      arr[j], arr[j + 1] := arr[j + 1], arr[j];
    }
  }

  /** `s` after the inner loop's body at `j`. */
  function Step(s: seq<int>, j: int): (r: seq<int>)
    requires 0 <= j < |s| - 1
    ensures |r| == |s|
  {
    if s[j] > s[j + 1] then Swap(s, j) else s
  }

  /** `s` with the neighbours at `j` and `j + 1` exchanged. */
  function Swap(s: seq<int>, j: int): (r: seq<int>)
    requires 0 <= j < |s| - 1
    ensures |r| == |s|
  {
    s[j := s[j + 1]][j + 1 := s[j]]
  }

  /** A step below `n - i - 1` keeps the elements, the sorted top and
      everything from `n` on, and carries the larger neighbour forward. */
  lemma SwapKeeps(s: seq<int>, j: int, n: int, i: int)
    requires 0 <= i && 0 <= j < n - i - 1 && n <= |s|
    requires forall x :: 0 <= x < j ==> s[x] <= s[j]
    requires SortedRange(s, n - i, n) && Below(s, n - i, n)
    ensures multiset(Step(s, j)) == multiset(s)
    ensures forall x :: 0 <= x < j + 1 ==> Step(s, j)[x] <= Step(s, j)[j + 1]
    ensures SortedRange(Step(s, j), n - i, n) && Below(Step(s, j), n - i, n)
    ensures Step(s, j)[n..] == s[n..]
  {
    if s[j] > s[j + 1] {
      SwapElements(s, j);
      SwapTop(s, j, n - i, n);
    }
  }

  lemma SwapElements(s: seq<int>, j: int)
    requires 0 <= j < |s| - 1
    ensures multiset(Swap(s, j)) == multiset(s)
  {
    assert Swap(s, j) == s[..j] + [s[j + 1], s[j]] + s[j + 2..];
    assert s == s[..j] + [s[j], s[j + 1]] + s[j + 2..];
  }

  /** An exchange below `k` leaves `s[k..]` alone and moves values only
      within `s[..k]`. */
  lemma SwapTop(s: seq<int>, j: int, k: int, n: int)
    requires 0 <= j < k - 1 && k <= n <= |s|
    requires SortedRange(s, k, n) && Below(s, k, n)
    ensures SortedRange(Swap(s, j), k, n) && Below(Swap(s, j), k, n)
    ensures Swap(s, j)[n..] == s[n..]
  {
    var r := Swap(s, j);
    assert forall y :: k <= y < |s| ==> r[y] == s[y];
    forall x, y | 0 <= x < k <= y < n
      ensures r[x] <= r[y]
    {
      if x == j {
        assert r[x] == s[j + 1];
      } else if x == j + 1 {
        assert r[x] == s[j];
      } else {
        assert r[x] == s[x];
      }
    }
  }

  /** When the pass ends, the element at `n - i - 1` is the maximum of the
      unsorted part and joins the sorted top. */
  lemma BubbleDone(s: seq<int>, n: int, i: int)
    requires 0 <= i < n - 1 && n <= |s|
    requires forall x :: 0 <= x < n - i - 1 ==> s[x] <= s[n - i - 1]
    requires SortedRange(s, n - i, n) && Below(s, n - i, n)
    ensures SortedRange(s, n - i - 1, n) && Below(s, n - i - 1, n)
  {
  }

  /** `fibonacci`, for every `int` argument. */
  function Fib(n: int): (r: int)
    ensures n <= 1 ==> r == n
    ensures n >= 1 ==> r >= 1
    decreases n
  {
    if n <= 1 then n else Fib(n - 1) + Fib(n - 2)
  }

  /** An independent, linear definition: the pair of consecutive numbers
      reached after `k` steps from `(0, 1)`. */
  function FibPair(k: nat): (int, int) {
    if k == 0 then (0, 1) else var p := FibPair(k - 1); (p.1, p.0 + p.1)
  }

  /** The recursive definition agrees with the linear one. */
  lemma {:induction false} FibPairAgrees(k: nat)
    ensures FibPair(k) == (Fib(k), Fib(k + 1))
  {
    if k > 0 {
      FibPairAgrees(k - 1);
    }
  }

  /** Fibonacci numbers of naturals are naturals and never decrease. */
  lemma {:induction false} FibMonotone(n: nat)
    ensures 0 <= Fib(n) <= Fib(n + 1)
  {
    if n > 0 {
      FibMonotone(n - 1);
    }
  }

  /** `categorize_number`. */
  function CategorizeNumber(num: int): (r: int)
    ensures r in {-1, 0, 2, 3, 4, 5}
  {
    if num < 0 then -1
    else if num == 0 then 0
    else if num % 2 == 0 then (if num > 100 then 3 else 2)
    else if num > 100 then 5 else 4
  }

  /** What the codes mean: sign first, then parity, then size above 100. */
  lemma CategoryMeaning(num: int)
    ensures CategorizeNumber(num) == -1 <==> num < 0
    ensures CategorizeNumber(num) == 0 <==> num == 0
    ensures CategorizeNumber(num) in {2, 3} <==> num > 0 && num % 2 == 0
    ensures CategorizeNumber(num) in {4, 5} <==> num > 0 && num % 2 == 1
    ensures CategorizeNumber(num) in {3, 5} <==> num > 100
  {
  }

  /** `reverse_string`: None for a NULL string or a failed allocation
      (`mallocOk` says whether `malloc` succeeds); otherwise a fresh buffer of
      `len + 1` characters holding the string backwards and a NUL. `str` holds
      the characters before the string's terminating NUL. */
  method ReverseString(str: Option<seq<char>>, mallocOk: bool) returns (r: Option<array<char>>)
    requires str.Some? ==> '\0' !in str.value
    ensures str.None? || !mallocOk ==> r.None?
    ensures str.Some? && mallocOk ==> r.Some? && fresh(r.value)
    ensures r.Some? ==>
      && str.Some?
      && r.value.Length == |str.value| + 1
      && r.value[|str.value|] == '\0'
      && forall i :: 0 <= i < |str.value| ==> r.value[i] == str.value[|str.value| - 1 - i]
  {
    if str.None? {
      return None;
    }
    var s := str.value;
    var len := |s|;
    if !mallocOk {
      return None;
    }
    var reversed := new char[len + 1];
    var i := 0;
    while i < len
      invariant 0 <= i <= len
      invariant forall k :: 0 <= k < i ==> reversed[k] == s[len - 1 - k]
    {
      reversed[i] := s[len - 1 - i];
      i := i + 1;
    }
    reversed[len] := '\0';
    return Some(reversed);
  }

  /** The characters of `s` in the opposite order. */
  function Reversed(s: seq<char>): (r: seq<char>)
    ensures |r| == |s| && forall i :: 0 <= i < |s| ==> r[i] == s[|s| - 1 - i]
  {
    seq(|s|, i requires 0 <= i < |s| => s[|s| - 1 - i])
  }

  /** Reversing twice gives the string back. */
  lemma ReversedTwice(s: seq<char>)
    ensures Reversed(Reversed(s)) == s
  {
  }
}
