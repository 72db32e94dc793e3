/**
 * The watcher counter of registerWatcher (src/Loopio/Alertable/Loop.php:64-70)
 * as PHP evaluates it on a 64-bit build, where `++` on PHP_INT_MAX turns the
 * integer into the float 2^63. This is the as-written half of a finding;
 * Watchers.WatcherRegistry.Register models the wrap the code means to do.
 */
module PhpWatcherCounter {
  import opened BridgeTypes

  /** The values the counter can hold: an integer, or the float 2^63. */
  datatype Num = Int(n: int) | Float2To63

  /**
   * `$c++`: an integer below PHP_INT_MAX steps by one; PHP_INT_MAX overflows
   * to the float 2^63, and 2^63 + 1 rounds back to 2^63.
   */
  function Increment(c: Num): (r: Num)
    ensures r.Int? <==> c.Int? && c.n < PhpIntMax
    ensures r.Int? ==> r.n == c.n + 1
  {
    if c.Int? && c.n < PhpIntMax then Int(c.n + 1) else Float2To63
  }

  /**
   * `$c > PHP_INT_MAX`: against a float, PHP converts PHP_INT_MAX to a float,
   * which rounds up to 2^63, so the float 2^63 is not greater.
   */
  predicate ExceedsIntMax(c: Num)
  {
    match c
    case Int(n) => n > PhpIntMax
    case Float2To63 => false
  }

  /** One pass of the do-while: the id taken and the counter after the wrap test. */
  function Step(c: Num): (Num, Num)
  {
    var next := Increment(c);
    (c, if ExceedsIntMax(next) then Int(-PhpIntMax) else next)
  }

  /** The ids taken by the first `n` passes of the do-while, starting from counter `c`. */
  function Ids(c: Num, n: nat): (ids: seq<Num>)
    ensures |ids| == n
    decreases n
  {
    if n == 0 then [] else [Step(c).0] + Ids(Step(c).1, n - 1)
  }

  /** From the float counter, every pass takes the same id. */
  lemma {:induction false} StuckForever(n: nat)
    ensures forall i :: 0 <= i < n ==> Ids(Float2To63, n)[i] == Float2To63
  {
    if n > 0 {
      StuckForever(n - 1);
      assert Ids(Float2To63, n) == [Float2To63] + Ids(Float2To63, n - 1);
    }
  }

  /**
   * From PHP_INT_MAX the wrap to -PHP_INT_MAX never happens. The first pass
   * takes PHP_INT_MAX and every later pass takes the float 2^63. So once the
   * key for that float is live, the do-while never exits.
   */
  lemma {:induction false} StuckAfterMax(n: nat)
    requires n >= 1
    ensures Ids(Int(PhpIntMax), n)[0] == Int(PhpIntMax)
    ensures forall i :: 1 <= i < n ==> Ids(Int(PhpIntMax), n)[i] == Float2To63
  {
    assert Step(Int(PhpIntMax)) == (Int(PhpIntMax), Float2To63);
    assert Ids(Int(PhpIntMax), n) == [Int(PhpIntMax)] + Ids(Float2To63, n - 1);
    StuckForever(n - 1);
  }
}
