/**
 * util/StopWatch.java: a watch over one of four clocks. Reading the clock is
 * outside the model: every operation that reads it takes the reading `now`.
 * Differences of readings wrap around as Java longs do, and they are divided
 * with Java's division, which rounds toward zero.
 */
module Watch {
  import opened Wrappers
  import opened JavaLang

  /** Which clock getTime() reads. */
  datatype TimeType = CPU | USER | SYSTEM | APPLICATION

  /** getElapsed's IllegalArgumentException. */
  datatype WatchError = DivisionByZero

  const NanosPerMilli: Long := 1_000_000
  const NanosPerSec: Long := 1_000_000_000

  class StopWatch {
    var startTime: Long
    var stopTime: Long
    var running: bool
    const timeType: TimeType
    /** The threads whose CPU time is summed; None for the whole process. */
    const ids: Option<seq<Long>>

    /** new StopWatch(): the clock of the application. */
    constructor ()
      ensures timeType == APPLICATION && ids == None
      ensures startTime == 0 && stopTime == 0 && !running
    {
      timeType, ids := APPLICATION, None;
      startTime, stopTime, running := 0, 0, false;
    }

    /** new StopWatch(tt). */
    constructor OfType(tt: TimeType)
      ensures timeType == tt && ids == None
      ensures startTime == 0 && stopTime == 0 && !running
    {
      timeType, ids := tt, None;
      startTime, stopTime, running := 0, 0, false;
    }

    /** new StopWatch(ids): the CPU time of these threads. */
    constructor OfThreads(threads: seq<Long>)
      ensures timeType == CPU && ids == Some(threads)
      ensures startTime == 0 && stopTime == 0 && !running
    {
      timeType, ids := CPU, Some(threads);
      startTime, stopTime, running := 0, 0, false;
    }

    method Start(now: Long)
      modifies this
      ensures startTime == now && running && stopTime == old(stopTime)
    {
      startTime := now;
      running := true;
    }

    method Stop(now: Long)
      modifies this
      ensures stopTime == now && !running && startTime == old(startTime)
    {
      stopTime := now;
      running := false;
    }

    /** reset(): a running watch starts again from now; a stopped one goes back to zero. */
    method Reset(now: Long)
      modifies this
      ensures running == old(running)
      ensures old(running) ==> startTime == now && stopTime == old(stopTime)
      ensures !old(running) ==> startTime == 0 && stopTime == 0
    {
      if running {
        startTime := now;
      } else {
        startTime := 0;
        stopTime := 0;
      }
    }

    /** The clock ticks since the start: up to now while running, else up to the stop, as a Java long. */
    function Ticks(now: Long): Long
      reads this
    {
      if running then Wrap64(now - startTime) else Wrap64(stopTime - startTime)
    }

    /** getElapsed(divisor): the ticks, divided (unless the divisor is 1). */
    function GetElapsed(divisor: Long, now: Long): (r: Result<Long, WatchError>)
      reads this
      ensures r.Err? <==> divisor == 0
      ensures r.Ok? && divisor > 0 ==> r.value == TruncDiv(Ticks(now), divisor)
    {
      if divisor == 0 then Err(DivisionByZero)
      else if divisor == 1 then Ok(Ticks(now))
      else Ok(Wrap64(TruncDiv(Ticks(now), divisor)))
    }

    function GetElapsedTime(now: Long): (r: Long)
      reads this
      ensures r == Ticks(now)
    {
      GetElapsed(1, now).value
    }

    function GetElapsedTimeMillis(now: Long): (r: Long)
      reads this
      ensures r == TruncDiv(Ticks(now), NanosPerMilli)
    {
      GetElapsed(NanosPerMilli, now).value
    }

    function GetElapsedTimeSecs(now: Long): (r: Long)
      reads this
      ensures r == TruncDiv(Ticks(now), NanosPerSec)
    {
      GetElapsed(NanosPerSec, now).value
    }
  }

  /** A watch that was never started reads zero, whatever the clock says. */
  lemma FreshReadsZero(w: StopWatch, now: Long)
    requires w.startTime == 0 && w.stopTime == 0 && !w.running
    ensures w.GetElapsedTime(now) == 0 && w.GetElapsedTimeMillis(now) == 0 && w.GetElapsedTimeSecs(now) == 0
  {
  }

  /** A stopped watch reads the same at every clock reading. */
  lemma StoppedIgnoresClock(w: StopWatch, now1: Long, now2: Long)
    requires !w.running
    ensures w.GetElapsedTime(now1) == w.GetElapsedTime(now2)
  {
  }

  /** Readings that do not go backwards give the plain difference, and never a negative time. */
  lemma ElapsedOfOrderedReadings(w: StopWatch, now: Long)
    requires 0 <= w.startTime
    requires w.running ==> w.startTime <= now
    requires !w.running ==> w.startTime <= w.stopTime
    ensures w.GetElapsedTime(now) == (if w.running then now else w.stopTime) - w.startTime
    ensures 0 <= w.GetElapsedTimeSecs(now) <= w.GetElapsedTimeMillis(now) <= w.GetElapsedTime(now)
  {
    var t := w.Ticks(now);
    assert 0 <= t;
    assert t / NanosPerSec <= t / NanosPerMilli <= t;
  }

  /** The seconds are the milliseconds divided by 1000, rounded toward zero like them. */
  lemma SecsFromMillis(w: StopWatch, now: Long)
    ensures w.GetElapsedTimeSecs(now) == TruncDiv(w.GetElapsedTimeMillis(now), 1000)
  {
    var t: int := w.Ticks(now);
    var n: nat := if t < 0 then -t else t;
    assert n / NanosPerMilli / 1000 == n / NanosPerSec;
  }
}
