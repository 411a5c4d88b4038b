/** The two token-bucket rate limiters, one atomic action at a time. */
module RateLimiter {
  import opened GoInts
  import opened Options

  datatype Config = Stable(threshold: int) | RampUp(max: int, step: int)

  /**
   * The fields of a limiter, and the channels made so far. Channels are numbered in the order they
   * are made; the stable limiter has no next threshold, and keeps its threshold there.
   */
  datatype Core = Core(
    config: Config, next: int, current: int, timerId: nat,
    broadcast: nat, quit: Option<nat>, made: nat, closed: set<nat>)

  function NewCore(config: Config): Core {
    match config
    case Stable(threshold) => Core(config, threshold, threshold, 0, 0, None, 1, {})
    case RampUp(_, _) => Core(config, 0, 0, 0, 0, None, 1, {})
  }

  function NextThreshold(next: int, max: int, step: int): int {
    var value := Wrap64(next + step);
    var raised := if value < 0 then MAX_INT64 else value;
    if raised > max then max else raised
  }

  /** Starting makes a quit channel and a new timer generation; a ramp-up also raises the threshold. */
  function Started(c: Core): Core {
    var armed := c.(timerId := c.timerId + 1, quit := Some(c.made), made := c.made + 1);
    match c.config
    case Stable(_) => armed
    case RampUp(max, step) =>
      var next := NextThreshold(c.next, max, step);
      armed.(next := next, current := next)
  }

  /** A token is taken; no more than the tokens installed are granted. */
  function Taken(c: Core): Core {
    c.(current := c.current - 1)
  }

  /** A timer wakes up in its own generation: the bucket is refilled, and all who wait are released. */
  function Refilled(c: Core): Core {
    c.(current := c.next, closed := c.closed + {c.broadcast}, broadcast := c.made, made := c.made + 1)
  }

  function Updated(c: Core): Core {
    match c.config
    case Stable(_) => c
    case RampUp(max, step) => c.(next := NextThreshold(c.next, max, step))
  }

  /** Closing a channel panics if there is none or it is closed already. */
  function Stopped(c: Core): Option<Core> {
    if c.quit.None? || c.quit.value in c.closed then None
    else Some(c.(next := if c.config.RampUp? then 0 else c.next, closed := c.closed + {c.quit.value}))
  }

  class StableRateLimiter {
    const threshold: int
    var currentThreshold: int
    var timerId: nat
    var broadcastChannel: nat
    var quitChannel: Option<nat>
    var channelsMade: nat
    var channelsClosed: set<nat>

    function View(): Core
      reads this
    {
      Core(Stable(threshold), threshold, currentThreshold, timerId,
           broadcastChannel, quitChannel, channelsMade, channelsClosed)
    }

    constructor (threshold: int)
      ensures View() == NewCore(Stable(threshold))
    {
      this.threshold, currentThreshold, timerId := threshold, threshold, 0;
      broadcastChannel, quitChannel, channelsMade, channelsClosed := 0, None, 1, {};
    }

    method Start() returns (generation: nat, quit: nat)
      modifies this
      ensures View() == Started(old(View()))
      ensures generation == timerId && quitChannel == Some(quit)
    {
      timerId := timerId + 1;
      quit := channelsMade;
      channelsMade := channelsMade + 1;
      quitChannel := Some(quit);
      generation := timerId;
    }

    /** What the timer goroutine of a generation does when it wakes up; it ends when it is outdated. */
    method WakeUp(generation: nat) returns (ended: bool)
      requires broadcastChannel !in channelsClosed
      modifies this
      ensures ended <==> old(timerId) != generation
      ensures View() == if ended then old(View()) else Refilled(old(View()))
    {
      if timerId != generation {
        return true;
      }
      currentThreshold := threshold;
      channelsClosed := channelsClosed + {broadcastChannel};
      broadcastChannel := channelsMade;
      channelsMade := channelsMade + 1;
      return false;
    }

    /** The decrement of Acquire; a blocked caller then waits for the broadcast channel to close. */
    method Acquire() returns (blocked: bool)
      modifies this
      ensures View() == Taken(old(View()))
      ensures blocked <==> View().current < 0
    {
      currentThreshold := currentThreshold - 1;
      blocked := currentThreshold < 0;
    }

    method Stop() returns (panics: bool)
      modifies this
      ensures panics <==> Stopped(old(View())).None?
      ensures View() == if panics then old(View()) else Stopped(old(View())).value
    {
      if quitChannel == None || quitChannel.value in channelsClosed {
        return true;
      }
      channelsClosed := channelsClosed + {quitChannel.value};
      return false;
    }
  }

  class RampUpRateLimiter {
    const maxThreshold: int
    const rampUpStep: int
    var nextThreshold: int
    var currentThreshold: int
    var timerId: nat
    var broadcastChannel: nat
    var quitChannel: Option<nat>
    var channelsMade: nat
    var channelsClosed: set<nat>

    function View(): Core
      reads this
    {
      Core(RampUp(maxThreshold, rampUpStep), nextThreshold, currentThreshold, timerId,
           broadcastChannel, quitChannel, channelsMade, channelsClosed)
    }

    constructor (maxThreshold: int, rampUpStep: int)
      ensures View() == NewCore(RampUp(maxThreshold, rampUpStep))
    {
      this.maxThreshold, this.rampUpStep := maxThreshold, rampUpStep;
      nextThreshold, currentThreshold, timerId := 0, 0, 0;
      broadcastChannel, quitChannel, channelsMade, channelsClosed := 0, None, 1, {};
    }

    method GetNextThreshold() returns (nextValue: int)
      ensures nextValue == NextThreshold(nextThreshold, maxThreshold, rampUpStep)
    {
      nextValue := Wrap64(nextThreshold + rampUpStep);
      if nextValue < 0 {
        nextValue := MAX_INT64;
      }
      if nextValue > maxThreshold {
        nextValue := maxThreshold;
      }
    }

    method Start() returns (generation: nat, quit: nat)
      modifies this
      ensures View() == Started(old(View()))
      ensures generation == timerId && quitChannel == Some(quit)
    {
      timerId := timerId + 1;
      quit := channelsMade;
      channelsMade := channelsMade + 1;
      quitChannel := Some(quit);
      nextThreshold := GetNextThreshold();
      currentThreshold := nextThreshold;
      generation := timerId;
    }

    method WakeUp(generation: nat) returns (ended: bool)
      requires broadcastChannel !in channelsClosed
      modifies this
      ensures ended <==> old(timerId) != generation
      ensures View() == if ended then old(View()) else Refilled(old(View()))
    {
      if timerId != generation {
        return true;
      }
      currentThreshold := nextThreshold;
      channelsClosed := channelsClosed + {broadcastChannel};
      broadcastChannel := channelsMade;
      channelsMade := channelsMade + 1;
      return false;
    }

    method UpdateThreshold(generation: nat) returns (ended: bool)
      modifies this
      ensures ended <==> old(timerId) != generation
      ensures View() == if ended then old(View()) else Updated(old(View()))
    {
      if timerId != generation {
        return true;
      }
      nextThreshold := GetNextThreshold();
      return false;
    }

    method Acquire() returns (blocked: bool)
      modifies this
      ensures View() == Taken(old(View()))
      ensures blocked <==> View().current < 0
    {
      currentThreshold := currentThreshold - 1;
      blocked := currentThreshold < 0;
    }

    method Stop() returns (panics: bool)
      modifies this
      ensures panics <==> Stopped(old(View())).None?
      ensures View() == if panics then old(View()).(next := 0) else Stopped(old(View())).value
    {
      nextThreshold := 0;
      if quitChannel == None || quitChannel.value in channelsClosed {
        return true;
      }
      channelsClosed := channelsClosed + {quitChannel.value};
      return false;
    }
  }

  // ---------------------------------------------------------------------------------------------
  // The ramp
  // ---------------------------------------------------------------------------------------------

  function Min(a: int, b: int): int {
    if a < b then a else b
  }

  /** Whatever the step, a threshold in [0, max] is followed by one in [0, max]. */
  lemma NextThresholdInRange(next: int, max: int, step: int)
    requires 0 <= next <= max && IsInt64(max) && IsInt64(step)
    ensures 0 <= NextThreshold(next, max, step) <= max
  {
  }

  /** For a non-negative step the sign test finds every overflow: the sum saturates at the maximum. */
  lemma NextThresholdSaturates(next: int, max: int, step: int)
    requires 0 <= next <= max && IsInt64(max) && IsInt64(step) && 0 <= step
    ensures NextThreshold(next, max, step) == Min(max, next + step)
  {
  }

  /** The threshold k updates after the start, from a next threshold of zero. */
  function Ramp(max: int, step: int, k: nat): int {
    NextThreshold(if k == 0 then 0 else Ramp(max, step, k - 1), max, step)
  }

  /** A negative maximum is the threshold from the first start on. */
  lemma NegativeMaximum(next: int, max: int, step: int)
    requires max < 0
    ensures NextThreshold(next, max, step) == max
  {
  }

  lemma {:induction false} RampInRange(max: int, step: int, k: nat)
    requires 0 <= max && IsInt64(max) && IsInt64(step)
    ensures 0 <= Ramp(max, step, k) <= max
  {
    if k > 0 {
      RampInRange(max, step, k - 1);
    }
    NextThresholdInRange(if k == 0 then 0 else Ramp(max, step, k - 1), max, step);
  }

  lemma {:induction false} RampIsLinear(max: int, step: int, k: nat)
    requires IsInt64(max) && IsInt64(step) && 0 <= step
    ensures Ramp(max, step, k) == Min(max, (k + 1) * step)
  {
    hide NextThreshold;
    if max < 0 {
      NegativeMaximum(if k == 0 then 0 else Ramp(max, step, k - 1), max, step);
      assert (k + 1) * step >= 0;
    } else if k == 0 {
      NextThresholdSaturates(0, max, step);
    } else {
      RampIsLinear(max, step, k - 1);
      NextThresholdSaturates(Ramp(max, step, k - 1), max, step);
      assert (k + 1) * step == k * step + step;
    }
  }

  /** The ramp is linear up to the maximum, whatever the maximum, exactly when the step is not negative. */
  lemma RampIsLinearIff(max: int, step: int)
    requires IsInt64(max) && IsInt64(step)
    ensures (forall k: nat :: Ramp(max, step, k) == Min(max, (k + 1) * step)) <==> 0 <= step
  {
    hide NextThreshold, Ramp;
    if 0 <= step {
      forall k: nat
        ensures Ramp(max, step, k) == Min(max, (k + 1) * step)
      {
        RampIsLinear(max, step, k);
      }
    } else if 0 <= max {
      RampInRange(max, step, 0);
      assert Ramp(max, step, 0) != Min(max, (0 + 1) * step);
    } else {
      var k := -max;
      RampAtNegative(max, step, k);
      assert (k + 1) * step <= -(k + 1) by {
        assert (k + 1) * (-1 - step) >= 0;
      }
      assert Ramp(max, step, k) != Min(max, (k + 1) * step);
    }
  }

  lemma RampAtNegative(max: int, step: int, k: nat)
    requires max < 0
    ensures Ramp(max, step, k) == max
  {
    hide NextThreshold;
    NegativeMaximum(if k == 0 then 0 else Ramp(max, step, k - 1), max, step);
  }
}
