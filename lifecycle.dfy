/**
 The lifecycle side of GPIOHandler: the `run`, `all_operating` and `clean`
 fields that the pulse loop reads, and the pin claims (GPIO.setmode,
 GPIO.setup, GPIO.add_event_detect) and releases (GPIO.cleanup) that they
 guard. The GPIO library calls are recorded in a ghost log; the 0.25 s
 grace waits are not modelled (each call is one atomic step).
 */
module Lifecycle {

  datatype PinMode = Output | InputPullUp

  /** One call into the GPIO library. */
  datatype GpioCall =
    | SetMode                              // GPIO.setmode(GPIO.BCM)
    | Setup(pin: int, mode: PinMode)       // GPIO.setup(pin, ...)
    | EdgeDetect(pin: int)                 // GPIO.add_event_detect(pin, GPIO.BOTH, ...)
    | Cleanup                              // GPIO.cleanup()

  /** The pins are held when some call has claimed them since the last
      cleanup. */
  ghost predicate Held(log: seq<GpioCall>) {
    |log| > 0 && log[|log| - 1] != Cleanup
  }

  /** Cleanup is issued at most once per claim: every cleanup directly
      follows a claiming call, never another cleanup or the start. */
  ghost predicate CleanupOncePerClaim(log: seq<GpioCall>) {
    forall i :: 0 <= i < |log| && log[i] == Cleanup ==> 0 < i && log[i - 1] != Cleanup
  }

  /** The calls resumeThreads makes, in order. */
  function ClaimCalls(pul: seq<int>, dir: seq<int>, emer: int): seq<GpioCall>
    requires |pul| == |dir|
  {
    [SetMode] + SetupCalls(pul, dir, |pul|) + [Setup(emer, InputPullUp), EdgeDetect(emer)]
  }

  /** The PUL and DIR setups of channels 0 .. n-1. */
  function SetupCalls(pul: seq<int>, dir: seq<int>, n: nat): (calls: seq<GpioCall>)
    requires n <= |pul| && n <= |dir|
    ensures |calls| == 2 * n && Cleanup !in calls
  {
    if n == 0 then [] else SetupCalls(pul, dir, n - 1) + [Setup(pul[n - 1], Output), Setup(dir[n - 1], Output)]
  }

  class GPIOHandler {
    /** Only set to false when the program is exiting. */
    var run: bool
    /** False while the motors are paused. */
    var allOperating: bool
    /** The pins have been released or never claimed. */
    var clean: bool
    /** The GPIO library calls made so far. */
    ghost var log: seq<GpioCall>

    ghost predicate Valid()
      reads this
    {
      clean == !Held(log) && CleanupOncePerClaim(log)
    }

    /** The class attributes' initial values; starting the pulse thread is
        not modelled here. */
    constructor ()
      ensures Valid()
      ensures run && !allOperating && clean && log == []
    {
      run := true;
      allOperating := false;
      clean := true;
      log := [];
    }

    /** cleanPins: releases the pins unless they are already released. */
    method CleanPins()
      requires Valid()
      modifies this`clean, this`log
      ensures Valid() && clean
      ensures log == if old(clean) then old(log) else old(log) + [Cleanup]
    {
      if !clean {
        log := log + [Cleanup];
        clean := true;
      }
    }

    /** pauseThreads: stops the pulses, then releases the pins. */
    method PauseThreads()
      requires Valid()
      modifies this`allOperating, this`clean, this`log
      ensures Valid() && !allOperating && clean
      ensures log == if old(clean) then old(log) else old(log) + [Cleanup]
    {
      allOperating := false;
      CleanPins();
    }

    /** resumeThreads: claims the PUL and DIR pins as outputs and the
        emergency pin as a pulled-up input with an interrupt on both edges,
        then lets the pulses run. */
    method ResumeThreads(pul: seq<int>, dir: seq<int>, emer: int)
      requires Valid() && |pul| == 3 && |dir| == 3
      modifies this`allOperating, this`clean, this`log
      ensures Valid() && allOperating && !clean
      ensures log == old(log) + ClaimCalls(pul, dir, emer)
    {
      log := log + [SetMode];
      ghost var start := log;
      for i := 0 to |pul|
        invariant log == start + SetupCalls(pul, dir, i)
      {
        log := log + [Setup(pul[i], Output)];
        log := log + [Setup(dir[i], Output)];
      }
      log := log + [Setup(emer, InputPullUp)];
      log := log + [EdgeDetect(emer)];
      allOperating := true;
      clean := false;
      assert forall i :: |old(log)| <= i < |log| ==> log[i] != Cleanup;
    }

    /** stopThreads: lets the pulse loop exit, then releases the pins. */
    method StopThreads()
      requires Valid()
      modifies this`run, this`clean, this`log
      ensures Valid() && !run && clean
      ensures log == if old(clean) then old(log) else old(log) + [Cleanup]
    {
      run := false;
      CleanPins();
    }

    /** The emergency-stop pin's edge callback: when the pins are held it
        pauses and reports that the window's stop handler is to be called
        (`stopRequested`); otherwise it does nothing. */
    method Emergency() returns (stopRequested: bool)
      requires Valid()
      modifies this`allOperating, this`clean, this`log
      ensures Valid()
      ensures stopRequested == !old(clean)
      ensures old(clean) ==> allOperating == old(allOperating) && clean && log == old(log)
      ensures !old(clean) ==> !allOperating && clean && log == old(log) + [Cleanup]
    {
      stopRequested := !clean;
      if stopRequested {
        PauseThreads();
      }
    }
  }

  /** A run of the handler: start, pause twice, stop. The second pause and
      the stop release nothing, and the run flag never comes back. */
  method StartPausePauseStop(h: GPIOHandler, pul: seq<int>, dir: seq<int>, emer: int)
    requires h.Valid() && |pul| == 3 && |dir| == 3
    modifies h
    ensures h.Valid() && !h.run && h.clean && !h.allOperating
    ensures h.log == old(h.log) + ClaimCalls(pul, dir, emer) + [Cleanup]
  {
    h.ResumeThreads(pul, dir, emer);
    h.PauseThreads();
    h.PauseThreads();
    h.StopThreads();
  }
}
