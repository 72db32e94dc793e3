/**
 * Allocation of integer ids from a wrapping counter that skips ids still in use:
 * the do-while probe both `registerWatcher` (watcher ids, -PHP_INT_MAX..PHP_INT_MAX)
 * and `createTimer` (timer ids, 0..PHP_INT_MAX-1) run.
 */
module IdAllocation {

  /** The counter after `++` and the wrap check: stepping past `hi` restarts it at `lo`. */
  function Next(c: int, lo: int, hi: int): int
  {
    if c + 1 > hi then lo else c + 1
  }

  /** The number of counter steps from `start` to `x` on the cycle lo..hi. */
  function Offset(start: int, x: int, lo: int, hi: int): int
  {
    if x >= start then x - start else x - start + (hi - lo + 1)
  }

  /** Every id the probe passes over on its way from `start` to `id` is in `used`. */
  ghost predicate SkipsOnlyUsed(used: set<int>, start: int, id: int, lo: int, hi: int)
  {
    forall x :: lo <= x <= hi && Offset(start, x, lo, hi) < Offset(start, id, lo, hi) ==> x in used
  }

  /** One counter step advances the offset by one, until the cycle closes. */
  lemma NextOffset(start: int, y: int, lo: int, hi: int)
    requires lo <= start <= hi && lo <= y <= hi
    requires Offset(start, y, lo, hi) + 1 < hi - lo + 1
    ensures lo <= Next(y, lo, hi) <= hi
    ensures Offset(start, Next(y, lo, hi), lo, hi) == Offset(start, y, lo, hi) + 1
  {
  }

  /** Within one cycle, an offset names exactly one id. */
  lemma OffsetInjective(start: int, x: int, y: int, lo: int, hi: int)
    requires lo <= start <= hi && lo <= x <= hi && lo <= y <= hi
    requires Offset(start, x, lo, hi) == Offset(start, y, lo, hi)
    ensures x == y
  {
  }

  /** The ids lo..hi, as a set. */
  ghost function Range(lo: int, hi: int): set<int>
    decreases hi - lo
  {
    if lo > hi then {} else {lo} + Range(lo + 1, hi)
  }

  /** Range(lo, hi) holds exactly the hi - lo + 1 ids from lo to hi. */
  lemma {:induction false} RangeContents(lo: int, hi: int)
    requires lo <= hi + 1
    ensures |Range(lo, hi)| == hi - lo + 1
    ensures forall x :: x in Range(lo, hi) <==> lo <= x <= hi
    decreases hi - lo
  {
    if lo <= hi {
      RangeContents(lo + 1, hi);
    }
  }

  /** A set that covers the whole range lo..hi is at least as large as the range. */
  lemma CoveredRange(used: set<int>, lo: int, hi: int)
    requires lo <= hi
    requires forall x :: lo <= x <= hi ==> x in used
    ensures |used| >= hi - lo + 1
  {
    RangeContents(lo, hi);
    forall x | x in Range(lo, hi)
      ensures x in used
    {
      assert lo <= x <= hi;
    }
    assert used == Range(lo, hi) + (used - Range(lo, hi));
  }

  /**
   * Probe the counter for an id not in `used`: take the counter's value, step the
   * counter, and repeat while the id taken is in use. Returns the id and the
   * counter's new value. Terminates because fewer ids are in use than the range holds.
   */
  method Probe(used: set<int>, counter: int, lo: int, hi: int) returns (id: int, next: int)
    requires lo <= counter <= hi
    requires |used| < hi - lo + 1
    ensures lo <= id <= hi && id !in used
    ensures SkipsOnlyUsed(used, counter, id, lo, hi)
    ensures next == Next(id, lo, hi)
  {
    id := counter;
    next := Next(counter, lo, hi);
    while id in used
      invariant lo <= id <= hi && next == Next(id, lo, hi)
      invariant Offset(counter, id, lo, hi) < hi - lo + 1
      invariant SkipsOnlyUsed(used, counter, id, lo, hi)
      decreases hi - lo + 1 - Offset(counter, id, lo, hi)
    {
      if Offset(counter, id, lo, hi) + 1 == hi - lo + 1 {
        // every id of the range has been probed and found in use
        forall x | lo <= x <= hi
          ensures x in used
        {
          if Offset(counter, x, lo, hi) == Offset(counter, id, lo, hi) {
            OffsetInjective(counter, x, id, lo, hi);
          }
        }
        CoveredRange(used, lo, hi);
        assert false;
      }
      NextOffset(counter, id, lo, hi);
      forall x | lo <= x <= hi && Offset(counter, x, lo, hi) < Offset(counter, id, lo, hi) + 1
        ensures x in used
      {
        if Offset(counter, x, lo, hi) == Offset(counter, id, lo, hi) {
          OffsetInjective(counter, x, id, lo, hi);
        }
      }
      id := next;
      next := Next(next, lo, hi);
    }
  }
}
