/**
 The pulse generator of GPIOHandler.runMotors: a loop that, while the
 handler's run flag is set, visits the three motor channels once per tick,
 drives each channel's PUL and DIR outputs and toggles the channel's step
 level every `threshold` ticks, where `threshold` stands for
 round(delay[i] / resolution).

 The flags run, clean and all_operating, and the per-channel globals
 operating, rpm_0, dirs, delay, PUL and DIR are written by other threads
 between ticks; the loop reads them afresh every tick. The model therefore
 takes the loop's input as a trace of Observations, one per tick.
 */
module PulseEngine {

  /** Logic level passed to GPIO.output. */
  datatype Level = Low | High

  /** One GPIO.output(pin, level) call. */
  datatype Write = Write(pin: int, level: Level)

  /** What one tick reads for one channel: PUL[i], DIR[i], operating[i],
      rpm_0[i], dirs[i] and the half-period threshold in ticks. */
  datatype Channel = Channel(pul: int, dir: int, operating: bool, rpm0: bool,
                             clockwise: bool, threshold: int)

  /** What one iteration of the loop reads: the handler's run, clean and
      all_operating fields and the three channels. */
  datatype Observation = Observation(run: bool, clean: bool, allOperating: bool,
                                     channels: seq<Channel>)

  /** The loop's own state: the tick counters `steps` and the step levels
      `gpio_high`, one per channel. */
  datatype State = State(steps: seq<nat>, high: seq<bool>)

  /** One channel's level, counter and the number of toggles seen so far. */
  datatype Phase = Phase(high: bool, steps: nat, toggles: nat)

  const ChannelCount: nat := 3

  predicate WellFormed(obs: Observation) {
    |obs.channels| == ChannelCount
  }

  predicate AllWellFormed(trace: seq<Observation>) {
    forall k :: 0 <= k < |trace| ==> WellFormed(trace[k])
  }

  predicate ValidState(s: State) {
    |s.steps| == ChannelCount && |s.high| == ChannelCount
  }

  /** The motors are pulsed only when the pins are claimed and the handler
      is not paused. */
  predicate Running(obs: Observation) {
    !obs.clean && obs.allOperating
  }

  /** `steps = [0, 0, 0]` and `gpio_high = [False, False, False]`. */
  const Initial: State := State([0, 0, 0], [false, false, false])

  function PulseLevel(high: bool, c: Channel): Level {
    if high && c.operating && !c.rpm0 then High else Low
  }

  function DirLevel(c: Channel): Level {
    if c.clockwise then Low else High
  }

  function ChannelWrites(high: bool, c: Channel): seq<Write> {
    [Write(c.pul, PulseLevel(high, c)), Write(c.dir, DirLevel(c))]
  }

  /** The counter step of one channel: count this tick, and once the
      threshold is reached flip the level and restart the count. */
  function Advance(high: bool, steps: nat, threshold: int): (bool, nat) {
    if threshold <= steps + 1 then (!high, 0) else (high, steps + 1)
  }

  /** The state once channels 0 .. n-1 have taken their counter step, each
      on its own channel's inputs; the other channels are as in `s`. */
  function AdvanceFirst(s: State, cs: seq<Channel>, n: nat): State
    requires ValidState(s) && |cs| == ChannelCount
  {
    State(seq(ChannelCount, k requires 0 <= k < ChannelCount =>
                if k < n then Advance(s.high[k], s.steps[k], cs[k].threshold).1 else s.steps[k]),
          seq(ChannelCount, k requires 0 <= k < ChannelCount =>
                if k < n then Advance(s.high[k], s.steps[k], cs[k].threshold).0 else s.high[k]))
  }

  /** Channel n's step taken on top of channels 0 .. n-1's. */
  lemma AdvanceNext(s: State, cs: seq<Channel>, n: nat)
    requires ValidState(s) && |cs| == ChannelCount && n < ChannelCount
    ensures var p := AdvanceFirst(s, cs, n);
            var a := Advance(p.high[n], p.steps[n], cs[n].threshold);
            && p.high[n] == s.high[n] && p.steps[n] == s.steps[n]
            && AdvanceFirst(s, cs, n + 1) == State(p.steps[n := a.1], p.high[n := a.0])
  {
  }

  /** The outputs of channels 0 .. n-1 of a running tick, in program order. */
  function TickWrites(high: seq<bool>, cs: seq<Channel>, n: nat): (w: seq<Write>)
    requires n <= |high| && n <= |cs|
    ensures |w| == 2 * n
  {
    if n == 0 then [] else TickWrites(high, cs, n - 1) + ChannelWrites(high[n - 1], cs[n - 1])
  }

  /** Channel k's two outputs sit at positions 2k and 2k+1, PUL first. */
  lemma {:induction false} TickWritesAt(high: seq<bool>, cs: seq<Channel>, n: nat, k: nat)
    requires n <= |high| && n <= |cs| && k < n
    ensures TickWrites(high, cs, n)[2 * k] == Write(cs[k].pul, PulseLevel(high[k], cs[k]))
    ensures TickWrites(high, cs, n)[2 * k + 1] == Write(cs[k].dir, DirLevel(cs[k]))
  {
    if k < n - 1 {
      TickWritesAt(high, cs, n - 1, k);
    }
  }

  /** One iteration of the `while self.run` loop: the new state and the
      outputs written. */
  function Tick(s: State, obs: Observation): (r: (State, seq<Write>))
    requires ValidState(s) && WellFormed(obs)
    ensures ValidState(r.0)
    ensures Running(obs) ==> |r.1| == 2 * ChannelCount
  {
    if !Running(obs) then
      (State([0, 0, 0], s.high), [])
    else
      (AdvanceFirst(s, obs.channels, ChannelCount), TickWrites(s.high, obs.channels, ChannelCount))
  }

  /** A paused tick (pins released or handler paused) zeroes the counters,
      keeps the levels and writes nothing. */
  lemma PausedTick(s: State, obs: Observation)
    requires ValidState(s) && WellFormed(obs) && !Running(obs)
    ensures Tick(s, obs).0 == State([0, 0, 0], s.high)
    ensures Tick(s, obs).1 == []
  {
  }

  /** In a running tick channel i writes PUL and then DIR. PUL is driven
      high exactly when the level from before this tick's toggle is high,
      the motor is operating and its RPM is not zero; DIR is driven low
      exactly when the direction flag is set. */
  lemma RunningTickOutputs(s: State, obs: Observation, i: nat)
    requires ValidState(s) && WellFormed(obs) && Running(obs) && i < ChannelCount
    ensures var w := Tick(s, obs).1;
            && |w| == 2 * ChannelCount
            && w[2 * i].pin == obs.channels[i].pul
            && (w[2 * i].level == High <==> s.high[i] && obs.channels[i].operating && !obs.channels[i].rpm0)
            && w[2 * i + 1].pin == obs.channels[i].dir
            && (w[2 * i + 1].level == Low <==> obs.channels[i].clockwise)
  {
    TickWritesAt(s.high, obs.channels, ChannelCount, i);
  }

  /** In a running tick channel i's counter goes up by one; when that
      reaches the threshold the level flips and the counter restarts at 0.
      Only channel i's own inputs are involved. */
  lemma RunningTickCounter(s: State, obs: Observation, i: nat)
    requires ValidState(s) && WellFormed(obs) && Running(obs) && i < ChannelCount
    ensures var reached := obs.channels[i].threshold <= s.steps[i] + 1;
            var r := Tick(s, obs).0;
            && r.steps[i] == (if reached then 0 else s.steps[i] + 1)
            && (r.high[i] != s.high[i] <==> reached)
  {
  }

  /** The state and the output log after running every observation of
      `trace`, starting from `s`. */
  function Run(s: State, trace: seq<Observation>): (r: (State, seq<Write>))
    requires ValidState(s) && AllWellFormed(trace)
    ensures ValidState(r.0)
    decreases |trace|
  {
    if trace == [] then (s, [])
    else
      var p := Run(s, trace[..|trace| - 1]);
      var t := Tick(p.0, trace[|trace| - 1]);
      (t.0, p.1 + t.1)
  }

  /** The number of iterations the loop makes over `trace`: it stops at the
      first observation whose run flag is false. */
  function Iterations(trace: seq<Observation>): (n: nat)
    ensures n <= |trace|
    ensures forall k :: 0 <= k < n ==> trace[k].run
    ensures n < |trace| ==> !trace[n].run
  {
    if trace == [] || !trace[0].run then 0 else 1 + Iterations(trace[1..])
  }

  /** One tick performed on the loop's two lists in place. */
  method TickInPlace(steps: array<nat>, high: array<bool>, obs: Observation)
    returns (ghost writes: seq<Write>)
    requires steps.Length == ChannelCount && high.Length == ChannelCount
    requires WellFormed(obs)
    modifies steps, high
    ensures (State(steps[..], high[..]), writes) == Tick(State(old(steps[..]), old(high[..])), obs)
  {
    if Running(obs) {
      writes := PulseChannels(steps, high, obs);
    } else {
      steps[0], steps[1], steps[2] := 0, 0, 0;
      writes := [];
      assert steps[..] == [0, 0, 0];
    }
  }

  /** The `for i in range(len(PUL))` loop of a running tick. */
  method PulseChannels(steps: array<nat>, high: array<bool>, obs: Observation)
    returns (ghost writes: seq<Write>)
    requires steps.Length == ChannelCount && high.Length == ChannelCount
    requires WellFormed(obs)
    modifies steps, high
    ensures State(steps[..], high[..]) == AdvanceFirst(State(old(steps[..]), old(high[..])), obs.channels, ChannelCount)
    ensures writes == TickWrites(old(high[..]), obs.channels, ChannelCount)
  {
    ghost var s := State(steps[..], high[..]);
    writes := [];
    assert State(steps[..], high[..]) == AdvanceFirst(s, obs.channels, 0);
    for i := 0 to ChannelCount
      invariant writes == TickWrites(s.high, obs.channels, i)
      invariant State(steps[..], high[..]) == AdvanceFirst(s, obs.channels, i)
    {
      AdvanceNext(s, obs.channels, i);
      var w := PulseChannel(steps, high, i, obs.channels[i]);
      writes := writes + w;
    }
  }

  /** One pass of that loop's body, for channel i. */
  method PulseChannel(steps: array<nat>, high: array<bool>, i: nat, c: Channel)
    returns (ghost writes: seq<Write>)
    requires i < steps.Length && i < high.Length
    modifies steps, high
    ensures var a := Advance(old(high[i]), old(steps[i]), c.threshold);
            high[..] == old(high[..])[i := a.0] && steps[..] == old(steps[..])[i := a.1]
    ensures writes == ChannelWrites(old(high[i]), c)
  {
    writes := [Write(c.pul, if high[i] && c.operating && !c.rpm0 then High else Low)];
    writes := writes + [Write(c.dir, if c.clockwise then Low else High)];
    steps[i] := steps[i] + 1;
    if c.threshold <= steps[i] {
      high[i] := !high[i];
      steps[i] := 0;
    }
  }

  /** GPIOHandler.runMotors over the observations its loop makes: returns
      the final counters and levels, the number of iterations, and the
      outputs written. */
  method RunMotors(trace: seq<Observation>)
    returns (steps: seq<nat>, high: seq<bool>, ticks: nat, ghost writes: seq<Write>)
    requires AllWellFormed(trace)
    ensures ticks == Iterations(trace)
    ensures (State(steps, high), writes) == Run(Initial, trace[..ticks])
  {
    var counters := new nat[ChannelCount](_ => 0);
    var levels := new bool[ChannelCount](_ => false);
    assert State(counters[..], levels[..]) == Initial;
    ticks := 0;
    writes := [];
    while ticks < |trace| && trace[ticks].run
      invariant ticks <= |trace|
      invariant forall k :: 0 <= k < ticks ==> trace[k].run
      invariant (State(counters[..], levels[..]), writes) == Run(Initial, trace[..ticks])
    {
      assert trace[..ticks + 1][..ticks] == trace[..ticks];
      var w := TickInPlace(counters, levels, trace[ticks]);
      writes := writes + w;
      ticks := ticks + 1;
    }
    LeadingRunIsIterations(trace, ticks);
    steps, high := counters[..], levels[..];
  }

  lemma {:induction false} LeadingRunIsIterations(trace: seq<Observation>, n: nat)
    requires n <= |trace|
    requires forall k :: 0 <= k < n ==> trace[k].run
    requires n == |trace| || !trace[n].run
    ensures Iterations(trace) == n
  {
    if n > 0 {
      LeadingRunIsIterations(trace[1..], n - 1);
    }
  }

  /** Channel i's phase after n ticks at a fixed threshold. */
  function Repeat(p: Phase, threshold: int, n: nat): Phase {
    if n == 0 then p
    else
      var q := Repeat(p, threshold, n - 1);
      var a := Advance(q.high, q.steps, threshold);
      Phase(a.0, a.1, q.toggles + (if a.0 != q.high then 1 else 0))
  }

  /** Running a + b ticks is running a ticks and then b more. */
  lemma {:induction false} RepeatAdd(p: Phase, t: int, a: nat, b: nat)
    ensures Repeat(p, t, a + b) == Repeat(Repeat(p, t, a), t, b)
  {
    if b > 0 {
      RepeatAdd(p, t, a, b - 1);
    }
  }

  /** Within a half period the counter just counts and the level holds. */
  lemma {:induction false} WithinHalfPeriod(high: bool, k: nat, t: int, r: nat)
    requires r < t
    ensures Repeat(Phase(high, 0, k), t, r) == Phase(high, r, k)
  {
    if r > 0 {
      WithinHalfPeriod(high, k, t, r - 1);
    }
  }

  /** A full half period from a zero counter flips the level once and
      leaves the counter at zero again. */
  lemma HalfPeriodThen(high: bool, k: nat, t: nat, m: nat)
    requires t >= 1
    ensures Repeat(Phase(high, 0, k), t, t + m) == Repeat(Phase(!high, 0, k + 1), t, m)
  {
    RepeatAdd(Phase(high, 0, k), t, t, m);
    WithinHalfPeriod(high, k, t, t - 1);
  }

  /** q full half periods of t ticks each, counted by repeated addition. */
  function Periods(q: nat, t: nat): nat {
    if q == 0 then 0 else t + Periods(q - 1, t)
  }

  lemma {:induction false} PeriodsIsProduct(q: nat, t: nat)
    ensures Periods(q, t) == q * t
  {
    if q > 0 {
      PeriodsIsProduct(q - 1, t);
    }
  }

  lemma ParityStep(q: nat)
    requires q >= 1
    ensures (q % 2 == 0) == ((q - 1) % 2 != 0)
  {
  }

  lemma {:induction false} CadenceFrom(high: bool, k: nat, t: nat, q: nat, r: nat)
    requires t >= 1 && r < t
    ensures Repeat(Phase(high, 0, k), t, Periods(q, t) + r)
         == Phase(if q % 2 == 0 then high else !high, r, k + q)
    decreases q
  {
    if q > 0 {
      var m := Periods(q - 1, t) + r;
      ParityStep(q);
      calc {
        Repeat(Phase(high, 0, k), t, Periods(q, t) + r);
        Repeat(Phase(high, 0, k), t, t + m);
        { HalfPeriodThen(high, k, t, m); }
        Repeat(Phase(!high, 0, k + 1), t, m);
        { CadenceFrom(!high, k + 1, t, q - 1, r); }
        Phase(if q % 2 == 0 then high else !high, r, k + q);
      }
    } else {
      WithinHalfPeriod(high, k, t, r);
    }
  }

  /** Cadence: with a fixed threshold T >= 1 and the counter starting at 0,
      after q * T + r ticks (r < T) the counter is r and the level has
      flipped exactly q times: once every T ticks. */
  lemma Cadence(high: bool, t: nat, q: nat, r: nat)
    requires t >= 1 && r < t
    ensures Repeat(Phase(high, 0, 0), t, q * t + r)
         == Phase(if q % 2 == 0 then high else !high, r, q)
  {
    PeriodsIsProduct(q, t);
    CadenceFrom(high, 0, t, q, r);
  }

  /** After one tick the counter is below any threshold T >= 1, even one
      lowered under a counter that had already passed it; so a counter
      never reaches a threshold it started below. */
  lemma CounterBelowThreshold(p: Phase, t: int, n: nat)
    requires t >= 1
    ensures n > 0 || p.steps < t ==> Repeat(p, t, n).steps < t
  {
  }

  function Constant(obs: Observation, n: nat): (trace: seq<Observation>)
    ensures |trace| == n && forall k :: 0 <= k < n ==> trace[k] == obs
  {
    seq(n, _ => obs)
  }

  /** Over n identical running ticks, channel i evolves exactly as its own
      counter step repeated n times: it reads only its own inputs and the
      other channels do not disturb it. */
  lemma {:induction false} ChannelFollowsRepeat(s: State, obs: Observation, n: nat, i: nat)
    requires ValidState(s) && WellFormed(obs) && Running(obs) && i < ChannelCount
    ensures var r := Run(s, Constant(obs, n)).0;
            var p := Repeat(Phase(s.high[i], s.steps[i], 0), obs.channels[i].threshold, n);
            r.high[i] == p.high && r.steps[i] == p.steps
  {
    if n > 0 {
      assert Constant(obs, n)[..n - 1] == Constant(obs, n - 1);
      ChannelFollowsRepeat(s, obs, n - 1, i);
    }
  }

  /** Pausing restarts the half period: after a paused tick and then
      q * T + r running ticks at threshold T >= 1 (r < T), channel i's
      counter is r and its level is the level it had before the pause,
      flipped q times. */
  lemma ResumeStartsFreshHalfPeriod(s: State, paused: Observation, obs: Observation, q: nat, r: nat, i: nat)
    requires ValidState(s) && WellFormed(paused) && !Running(paused)
    requires WellFormed(obs) && Running(obs) && i < ChannelCount
    requires 1 <= obs.channels[i].threshold && r < obs.channels[i].threshold
    ensures var t := obs.channels[i].threshold;
            var after := Run(Tick(s, paused).0, Constant(obs, q * t + r)).0;
            after.steps[i] == r && after.high[i] == (if q % 2 == 0 then s.high[i] else !s.high[i])
  {
    var t := obs.channels[i].threshold;
    ChannelFollowsRepeat(Tick(s, paused).0, obs, q * t + r, i);
    Cadence(s.high[i], t, q, r);
  }

  /** One second of ticks at the 10 microsecond resolution (100000 ticks)
      with half periods of 0.01 s, 0.02 s and 0.005 s (thresholds 1000,
      2000 and 500): the levels flip 100, 50 and 200 times. */
  lemma OneSecondScenario(h: bool)
    ensures Repeat(Phase(h, 0, 0), 1000, 100000).toggles == 100
    ensures Repeat(Phase(h, 0, 0), 2000, 100000).toggles == 50
    ensures Repeat(Phase(h, 0, 0), 500, 100000).toggles == 200
  {
    Cadence(h, 1000, 100, 0);
    Cadence(h, 2000, 50, 0);
    Cadence(h, 500, 200, 0);
  }
}
