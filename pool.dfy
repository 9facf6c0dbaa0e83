/** `pkg/dispatch/pool.go` `NewPool`: the worker pool's size, clamped to what the
    dispatcher allows. The slot channel is its capacity, the number of workers that may run
    at once. */
module Dispatch {
  const MinWorkers: int := 5
  const MaxWorkers: int := 100

  /** The pool: its size and the capacity of its slot channel. */
  datatype Pool = Pool(num: int, slots: nat)

  /** NewPool: sizes below 5 become 5, sizes above 100 become 100, the rest stay. */
  function NewPool(num: int): (p: Pool)
    ensures MinWorkers <= p.num <= MaxWorkers
    ensures p.slots == p.num
    ensures MinWorkers <= num <= MaxWorkers ==> p.num == num
    ensures num < MinWorkers ==> p.num == MinWorkers
    ensures num > MaxWorkers ==> p.num == MaxWorkers
  {
    var n := if num < MinWorkers then MinWorkers else num;
    var n' := if n > MaxWorkers then MaxWorkers else n;
    Pool(n', n')
  }

  /** NewPool picks the size in [5, 100] nearest to the requested one. */
  lemma NewPoolNearest(num: int, m: int)
    requires MinWorkers <= m <= MaxWorkers
    ensures (NewPool(num).num - num) * (NewPool(num).num - num) <= (m - num) * (m - num)
  {
    var d := NewPool(num).num - num;
    var e := m - num;
    if num < MinWorkers {
      assert 0 < d <= e;
      assert d * d <= d * e <= e * e;
    } else if num > MaxWorkers {
      assert e <= d < 0;
      assert d * d <= d * e <= e * e;
    }
  }

  /** Building a pool from a pool's own size changes nothing, and a larger request never
      gives a smaller pool. */
  lemma NewPoolStable(num: int, other: int)
    ensures NewPool(NewPool(num).num) == NewPool(num)
    ensures num <= other ==> NewPool(num).num <= NewPool(other).num
  {
  }
}
