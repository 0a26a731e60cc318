/**
 * Cyclic stepping through a list, `(i + 1) % length`: the next project
 * after the current one, and the rotating city names that two pages show
 * on a timer.
 */
module Cycle {

  /** `(i + 1) % n` for an index in range: the following index, and the
      first one after the last. */
  function Next(i: int, n: int): (j: int)
    requires 0 <= i < n
    ensures 0 <= j < n
    ensures i < n - 1 ==> j == i + 1
    ensures i == n - 1 ==> j == 0
  {
    (i + 1) % n
  }

  /** One more step from `t % n` lands on `(t + 1) % n`. */
  lemma NextOfMod(t: nat, n: nat)
    requires n > 0
    ensures Next(t % n, n) == (t + 1) % n
  {
    var q, r := t / n, t % n;
    assert t == n * q + r;
    if r < n - 1 {
      ModUnique(t + 1, n, q, r + 1);
    } else {
      assert t + 1 == n * (q + 1) by {
        assert n * (q + 1) == n * q + n;
      }
      ModUnique(t + 1, n, q + 1, 0);
    }
  }

  /** The remainder is the only one in range: `a == n * q + r` with
      `0 <= r < n` fixes `a % n` to `r`. */
  lemma ModUnique(a: int, n: int, q: int, r: int)
    requires n > 0 && 0 <= r < n && a == n * q + r
    ensures a % n == r
  {
    var q', r' := a / n, a % n;
    assert a == n * q' + r';
    assert n * (q - q') == r' - r by {
      assert n * (q - q') == n * q - n * q';
    }
    if q - q' >= 1 {
      assert n * (q - q') >= n * 1 by { MulAtLeast(n, q - q', 1); }
      assert false;
    } else if q - q' <= -1 {
      MulAtLeast(n, q' - q, 1);
      assert false;
    }
  }

  lemma MulAtLeast(n: int, a: int, b: int)
    requires n > 0 && a >= b
    ensures n * a >= n * b
  {
    assert n * a - n * b == n * (a - b);
  }

  /** A list of names shown one at a time; every tick of an interval timer
      moves to the next one, wrapping after the last. */
  class Carousel {
    const items: seq<string>
    var index: nat
    /** The number of ticks since the start. */
    ghost var ticks: nat

    /** The index stays in range and is the tick count modulo the length. */
    ghost predicate Valid()
      reads this
    {
      |items| > 0 && index < |items| && index == ticks % |items|
    }

    /** The first name is shown first. */
    constructor (items: seq<string>)
      requires |items| > 0
      ensures Valid() && this.items == items && index == 0 && ticks == 0
    {
      this.items := items;
      index := 0;
      ticks := 0;
    }

    /** `setIndex(prev => (prev + 1) % items.length)`. */
    method Tick()
      requires Valid()
      modifies this
      ensures Valid()
      ensures index == Next(old(index), |items|) && ticks == old(ticks) + 1
    {
      NextOfMod(ticks, |items|);
      index := (index + 1) % |items|;
      ticks := ticks + 1;
    }

    /** The name on screen, `items[index]`. */
    function Current(): (s: string)
      reads this
      requires Valid()
      ensures s in items && s == items[ticks % |items|]
    {
      items[index]
    }
  }
}
