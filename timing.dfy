/** Frame bookkeeping: the once-a-second FPS sample and the frame-rate
    throttle, computed on the game's unsigned 64-bit tick counters. Ticks are
    milliseconds read from the platform clock; here they are parameters. */
module Timing {
  /** 2^64: every counter is a Go `uint64`, whose arithmetic wraps around. */
  const U64Limit: int := 0x1_0000_0000_0000_0000

  newtype u64 = n: int | 0 <= n < 0x1_0000_0000_0000_0000

  datatype Option<T> = None | Some(value: T)

  /** Unsigned 64-bit addition: the exact sum, less 2^64 when it overflows. */
  function Add(a: u64, b: u64): (r: u64)
    ensures a as int + b as int < U64Limit ==> r as int == a as int + b as int
    ensures a as int + b as int >= U64Limit ==> r as int == a as int + b as int - U64Limit
  {
    ((a as int + b as int) % U64Limit) as u64
  }

  /** Unsigned 64-bit subtraction: the exact difference, plus 2^64 when it
      would be negative. */
  function Sub(a: u64, b: u64): (r: u64)
    ensures b <= a ==> r as int == a as int - b as int
    ensures a < b ==> r as int == a as int - b as int + U64Limit
  {
    ((a as int - b as int) % U64Limit) as u64
  }

  /** The target frame rate (`setFPS`). */
  const SetFPS: u64 := 60

  /** The time one frame may take, in milliseconds: `1000 / setFPS`, which
      uint64 division makes 16. */
  const FrameBudget: u64 := 1000 / SetFPS

  /** Milliseconds between two FPS samples. */
  const SampleInterval: u64 := 1000

  /** daemon's test `lastFrame >= lastTime + 1000`, the sum taken in uint64. */
  predicate SampleDue(lastFrame: u64, lastTime: u64)
  {
    lastFrame >= Add(lastTime, SampleInterval)
  }

  /** While `lastTime + 1000` fits in 64 bits, a sample is due exactly when at
      least a second has passed since the last one. */
  lemma SampleDueAfterASecond(lastFrame: u64, lastTime: u64)
    requires lastTime as int + SampleInterval as int < U64Limit
    ensures SampleDue(lastFrame, lastTime) <==> lastFrame as int - lastTime as int >= 1000
  {
  }

  /** In the last second of the 64-bit tick range the sum wraps, and a sample
      is then due at once, whatever the elapsed time. */
  lemma SampleDueNearWrap(lastFrame: u64, lastTime: u64)
    requires lastTime as int + SampleInterval as int >= U64Limit
    requires lastTime <= lastFrame
    ensures SampleDue(lastFrame, lastTime)
  {
  }

  /** beginRender's throttle: the delay it requests after the frame has taken
      `timerFPS` milliseconds, if any. A delay is requested exactly when the
      frame is under budget, it lies in [1, 16], and it tops the frame up to
      exactly the budget. (The uint32 conversion is exact for these values.) */
  function FrameDelay(timerFPS: u64): (d: Option<nat>)
    ensures d.Some? <==> timerFPS < FrameBudget
    ensures d.Some? ==> 1 <= d.value <= 16 && timerFPS as int + d.value == FrameBudget as int
  {
    if timerFPS < FrameBudget then Some((FrameBudget - timerFPS) as nat) else None
  }

  /** The process-wide frame counters (`lastFrame`, `lastTime`, `frameCount`,
      `timerFPS`, `fps`), all starting at zero. */
  class FrameClock {
    var lastFrame: u64
    var lastTime: u64
    var frameCount: u64
    var timerFPS: u64
    var fps: u64

    constructor ()
      ensures lastFrame == 0 && lastTime == 0 && frameCount == 0 && timerFPS == 0 && fps == 0
    {
      lastFrame, lastTime, frameCount, timerFPS, fps := 0, 0, 0, 0, 0;
    }

    /** daemon's bookkeeping at tick `now`: records the frame's start and, once
        a second, moves the frame count into `fps` and restarts the count. */
    method Daemon(now: u64)
      modifies this`lastFrame, this`lastTime, this`frameCount, this`fps
      ensures lastFrame == now
      ensures SampleDue(now, old(lastTime)) ==> lastTime == now && fps == old(frameCount) && frameCount == 0
      ensures !SampleDue(now, old(lastTime)) ==>
                lastTime == old(lastTime) && fps == old(fps) && frameCount == old(frameCount)
    {
      lastFrame := now;
      if lastFrame >= Add(lastTime, SampleInterval) {
        lastTime := lastFrame;
        fps := frameCount;
        frameCount := 0;
      }
    }

    /** beginRender's bookkeeping at tick `now`: counts the frame, measures the
        time since the frame started, and returns the delay it asks for. */
    method BeginRender(now: u64) returns (delay: Option<nat>)
      modifies this`frameCount, this`timerFPS
      ensures frameCount == Add(old(frameCount), 1)
      ensures timerFPS == Sub(now, lastFrame)
      ensures delay == FrameDelay(timerFPS)
    {
      frameCount := Add(frameCount, 1);
      timerFPS := Sub(now, lastFrame);
      if timerFPS < FrameBudget {
        delay := Some((FrameBudget - timerFPS) as nat);
      } else {
        delay := None;
      }
    }
  }
}
