/** The slide index arithmetic both course pages use: Next and Previous
    wrap around a carousel of `n` slides. JavaScript's `%` keeps the sign of
    the dividend and Dafny's is never negative; the two agree here because
    both dividends below are never negative. */
module Carousel {

  /** `handleNext`: `(prev + 1) % n`. */
  function Next(index: nat, n: nat): (r: nat)
    requires n > 0
    ensures r < n
  {
    (index + 1) % n
  }

  /** `handlePrev`: `(prev - 1 + n) % n`. */
  function Prev(index: nat, n: nat): (r: nat)
    requires n > 0
    ensures r < n
  {
    (index - 1 + n) % n
  }

  /** Next from the last slide goes to the first, Previous from the first
      goes to the last, and inside the range they step by one. */
  lemma Wraps(index: nat, n: nat)
    requires index < n
    ensures Next(index, n) == if index + 1 == n then 0 else index + 1
    ensures Prev(index, n) == if index == 0 then n - 1 else index - 1
  {
    if index + 1 == n {
      assert (index + 1) % n == 0;
    }
    if index > 0 {
      assert (index - 1 + n) % n == index - 1;
    }
  }

  /** Next and Previous undo each other. */
  lemma NextPrevInverse(index: nat, n: nat)
    requires index < n
    ensures Prev(Next(index, n), n) == index
    ensures Next(Prev(index, n), n) == index
  {
    Wraps(index, n);
    Wraps(Next(index, n), n);
    Wraps(Prev(index, n), n);
  }

  /** The index after pressing Next `k` times. */
  function NextTimes(index: nat, n: nat, k: nat): (r: nat)
    requires n > 0
    ensures r < n || (k == 0 && r == index)
  {
    if k == 0 then index else Next(NextTimes(index, n, k - 1), n)
  }

  /** Up to `n` presses of Next move that many slides forward, wrapping
      past the last slide at most once. */
  lemma {:induction false} NextTimesShifts(index: nat, n: nat, k: nat)
    requires index < n && k <= n
    ensures NextTimes(index, n, k) == if index + k < n then index + k else index + k - n
  {
    if k > 0 {
      NextTimesShifts(index, n, k - 1);
      Wraps(NextTimes(index, n, k - 1), n);
    }
  }

  /** `n` presses of Next return to the slide where they started. */
  lemma FullCycle(index: nat, n: nat)
    requires index < n
    ensures NextTimes(index, n, n) == index
  {
    NextTimesShifts(index, n, n);
  }
}
