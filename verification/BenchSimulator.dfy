/** The event benchmark: a population of events, each of which re-schedules itself until a total is reached. */
module BenchSimulator {

  /** Delays drawn from the random stream: the k-th draw. */
  type Delays = nat -> nat

  /** Counters are 32-bit unsigned integers. */
  const UINT32_LIMIT: nat := 0x1_0000_0000

  class Bench {
    const population: nat
    const total: nat
    const delays: Delays
    var count: nat
    /** The times at which callbacks are scheduled. */
    var events: multiset<nat>
    /** Draws made and callbacks executed so far. */
    var draws: nat
    var callbacks: nat

    constructor (population: nat, total: nat, delays: Delays)
      requires population < UINT32_LIMIT && total < UINT32_LIMIT
      ensures this.population == population && this.total == total && this.delays == delays
      ensures events == multiset{}
    {
      this.population, this.total, this.delays := population, total, delays;
      count, events, draws, callbacks := 0, multiset{}, 0, 0;
    }

    /** Pending events: the population while there is work, then what has not yet drained. */
    ghost predicate Balanced()
      reads this
    {
      && total < UINT32_LIMIT && count <= total
      && |events| + callbacks == population + count
      && (count < total ==> |events| == population && callbacks == count)
    }

    method Schedule(now: nat)
      modifies this`events, this`draws
      ensures |events| == old(|events|) + 1
    {
      events := events + multiset{now + delays(draws)};
      draws := draws + 1;
    }

    /** The callback of an event that has just been taken off the queue at time `now`. */
    method Cb(now: nat)
      requires total < UINT32_LIMIT
      modifies this
      ensures callbacks == old(callbacks) + 1
      ensures if old(count) >= total then count == old(count) && events == old(events)
              else count == old(count) + 1 < UINT32_LIMIT && |events| == old(|events|) + 1
    {
      callbacks := callbacks + 1;
      if count >= total { return; }
      Schedule(now);
      count := count + 1;
    }

    /** Run whichever pending event: until the total is reached the population stays pending, from then on it drains. */
    method RunNext()
      requires Balanced() && events != multiset{}
      modifies this
      ensures Balanced() && callbacks == old(callbacks) + 1
      ensures if old(count) < total then count == old(count) + 1 && |events| == old(|events|) == population
              else count == old(count) && |events| == old(|events|) - 1
    {
      var at :| at in events;
      events := events - multiset{at};
      Cb(at);
    }

    /** Whatever the delays and whichever pending event runs next, a non-empty population runs exactly
        `population + total` callbacks and counts to `total`. */
    method RunBench()
      requires population < UINT32_LIMIT && total < UINT32_LIMIT && events == multiset{}
      modifies this
      ensures events == multiset{}
      ensures population > 0 ==> count == total && callbacks == population + total
      ensures population == 0 ==> count == 0 && callbacks == 0
    {
      count, callbacks := 0, 0;
      for i := 0 to population
        invariant |events| == i && count == 0 && callbacks == 0
      {
        Schedule(0);
      }
      while events != multiset{}
        invariant Balanced()
        invariant population == 0 ==> count == 0 && callbacks == 0 && events == multiset{}
        decreases population + total - callbacks
      {
        RunNext();
      }
    }
  }
}
