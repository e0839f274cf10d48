/** Block generation time. */
module BlockTimes {
  datatype Mode = System | Seq

  datatype Clock = Clock(delta: nat, lastTime: nat, mode: Mode, interval: nat)

  const INITIAL_CLOCK: Clock := Clock(0, 1, System, 1)

  /** `now` is what the system clock shows. */
  function NextTime(c: Clock, now: nat): nat {
    match c.mode
    case System => now + c.delta
    case Seq => c.lastTime + c.interval + c.delta
  }

  function WithLast(c: Clock, time: nat): Clock {
    c.(lastTime := if time < c.delta then 0 else time - c.delta)
  }

  class BlockTime {
    var delta: nat
    var lastTime: nat
    var mode: Mode
    const interval: nat

    ghost function View(): Clock
      reads this
    {
      Clock(delta, lastTime, mode, interval)
    }

    constructor ()
      ensures View() == INITIAL_CLOCK
    {
      delta, mode, interval, lastTime := 0, System, 1, 1;
    }

    method IncreaseDelta(d: nat)
      modifies this`delta
      ensures View() == old(View()).(delta := old(delta) + d)
      ensures forall now :: NextTime(View(), now) == NextTime(old(View()), now) + d
    {
      delta := delta + d;
    }

    method ResetDelta()
      modifies this`delta
      ensures View() == old(View()).(delta := 0)
    {
      delta := 0;
    }

    method SetMode(m: Mode)
      modifies this`mode
      ensures View() == old(View()).(mode := m)
    {
      mode := m;
    }

    method GetNext(now: nat) returns (time: nat)
      ensures time == NextTime(View(), now)
    {
      match mode
      case System => time := now + delta;
      case Seq => time := lastTime + interval + delta;
    }

    /** A saturating subtraction. */
    method SetLast(time: nat)
      modifies this`lastTime
      ensures View() == WithLast(old(View()), time)
    {
      lastTime := if time <= delta then 0 else time - delta;
    }
  }
}
