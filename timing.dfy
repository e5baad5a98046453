/** The per-iteration timing decision of `Game::run`, on 32-bit millisecond tick counts. */
module Timing {

  const TwoTo32: int := 0x1_0000_0000

  /** SDL's `Uint32` tick counter. */
  newtype u32 = x: int | 0 <= x < 0x1_0000_0000

  const TargetFps: int := 60
  /** Milliseconds between renders; integer division makes it 16. */
  const FrameDelay: int := 1000 / TargetFps
  /** Milliseconds between logic steps. */
  const LogicDelay: int := 100

  lemma FrameDelayIs16()
    ensures FrameDelay == 16
  {
  }

  /** `now - since` in unsigned 32-bit arithmetic: the time that passed since `since`, across a wrap. */
  function Elapsed(now: u32, since: u32): (e: u32)
    ensures (since as int + e as int) % TwoTo32 == now as int
    ensures since <= now ==> e as int == now as int - since as int
  {
    ((now as int - since as int) % TwoTo32) as u32
  }

  /** `t += delay` in unsigned 32-bit arithmetic. */
  function Advance(t: u32, delay: nat): (r: u32)
    ensures (r as int - t as int - delay) % TwoTo32 == 0
  {
    ((t as int + delay) % TwoTo32) as u32
  }

  /**
   * Advancing the logic anchor by one period takes exactly one period off the elapsed time:
   * the schedule does not drift and a late iteration is caught up step by step.
   */
  lemma NoDrift(now: u32, last: u32)
    requires Elapsed(now, last) as int >= LogicDelay
    ensures Elapsed(now, Advance(last, LogicDelay as nat)) as int == Elapsed(now, last) as int - LogicDelay
  {
  }

  /** The two anchors `run` keeps between iterations: `lastLogicTime` and `lastFrameTime`. */
  class FrameTimer {
    var lastLogicTime: u32
    var lastFrameTime: u32

    /** Each anchor starts at its own tick-count read, taken one after the other before the loop. */
    constructor (logicNow: u32, frameNow: u32)
      ensures lastLogicTime == logicNow && lastFrameTime == frameNow
    {
      lastLogicTime := logicNow;
      lastFrameTime := frameNow;
    }

    /**
     * One iteration's decision: a logic step is due once a full period has passed, and then the
     * logic anchor moves on by exactly one period; a render is due once a frame delay has passed,
     * and then the frame anchor jumps to `now`.
     */
    method Poll(now: u32) returns (logic: bool, render: bool)
      modifies this
      ensures logic <==> Elapsed(now, old(lastLogicTime)) as int >= LogicDelay
      ensures lastLogicTime == if logic then Advance(old(lastLogicTime), LogicDelay as nat) else old(lastLogicTime)
      ensures render <==> Elapsed(now, old(lastFrameTime)) as int >= FrameDelay
      ensures lastFrameTime == if render then now else old(lastFrameTime)
      ensures render ==> Elapsed(now, lastFrameTime) == 0
      ensures logic ==> Elapsed(now, lastLogicTime) as int == Elapsed(now, old(lastLogicTime)) as int - LogicDelay
    {
      var elapsedLogicTime := Elapsed(now, lastLogicTime);
      var elapsedFrameTime := Elapsed(now, lastFrameTime);
      logic := elapsedLogicTime as int >= LogicDelay;
      if logic {
        NoDrift(now, lastLogicTime);
        lastLogicTime := Advance(lastLogicTime, LogicDelay as nat);
      }
      render := elapsedFrameTime as int >= FrameDelay;
      if render {
        lastFrameTime := now;
      }
    }
  }
}
