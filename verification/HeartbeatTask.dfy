/** components/messaging/heartbeat_task.c: the guarded interval of the heartbeat loop. */
module HeartbeatTask {
  import opened Base

  predicate IntervalIsAccepted(intervalS: u32) { intervalS != 0 && intervalS <= 3600 }

  class Heartbeat {
    var intervalS: u32

    constructor (defaultS: u32)
      ensures intervalS == defaultS
    {
      intervalS := defaultS;
    }

    method SetInterval(requestedS: u32) returns (err: Err)
      modifies this
      ensures err == if IntervalIsAccepted(requestedS) then Ok else InvalidArg
      ensures intervalS == if IntervalIsAccepted(requestedS) then requestedS else old(intervalS)
    {
      if requestedS == 0 || requestedS > 3600 { return InvalidArg; }
      intervalS := requestedS;
      return Ok;
    }

    /** The delay the loop computes, `s_interval_s * 1000`, in unsigned 32-bit arithmetic: no accepted interval wraps it. */
    method DelayMs() returns (delayMs: u32)
      requires IntervalIsAccepted(intervalS)
      ensures delayMs == intervalS * 1000 && 1000 <= delayMs <= 3_600_000
    {
      delayMs := Wrap32(intervalS * 1000);
    }
  }
}
