/**
 MainWindow.setIncrement: a key press changes one motor's RPM by a fixed
 amount, or all three motors' RPM by a percentage, and re-derives the
 half-period `delay` the pulse loop waits between edges, or marks the motor
 as stopped (`rpm_0`). The RPM entry widgets are modelled as an array of
 reals, the text they display is not modelled.
 */
module Speed {

  /** The motor_name argument: one motor, or "all". */
  datatype Motor = Top | Middle | Bottom | All

  /** The position of a motor in the global delay, rpm_0 and operating lists. */
  function Slot(m: Motor): nat
    requires m != All
  {
    match m
    case Top => 0
    case Middle => 1
    case Bottom => 2
  }

  /** The motors a call adjusts, in the order it adjusts them. */
  function Targets(m: Motor): (ts: seq<nat>)
    ensures forall k :: 0 <= k < |ts| ==> ts[k] < 3
    ensures forall j, k :: 0 <= j < k < |ts| ==> ts[j] != ts[k]
  {
    if m == All then [0, 1, 2] else [Slot(m)]
  }

  /** The new RPM: `value` added for one motor, `value` percent added for
      all motors, and never below zero. */
  function NewRpm(m: Motor, rpm: real, value: real): real {
    var x := if m != All then rpm + value else rpm + rpm * value / 100.0;
    if x < 0.0 then 0.0 else x
  }

  /** What the half-period computation does with a new RPM. */
  datatype Tuning =
    | Halted                // rpm_0 is set, delay is left alone
    | Timed(delay: real)    // rpm_0 is cleared, delay is replaced
    | DivisionByZero        // 0 pulses per revolution: ZeroDivisionError

  function Retune(rpm: real, spr: int): Tuning {
    if rpm <= 0.0 then Halted
    else if spr == 0 then DivisionByZero
    else
      var d := 30.0 / (spr as real * rpm);
      if d <= 0.0 then Halted else Timed(d)
  }

  /** The state setIncrement changes: the RPM entries, the delay list and
      the rpm_0 list. */
  datatype Drive = Drive(rpm: seq<real>, delay: seq<real>, zero: seq<bool>)

  predicate ValidDrive(d: Drive) {
    |d.rpm| == 3 && |d.delay| == 3 && |d.zero| == 3
  }

  /** One motor's adjustment; the flag is the division error. */
  function Step(d: Drive, m: Motor, value: real, spr: seq<int>, i: nat): (Drive, bool)
    requires ValidDrive(d) && |spr| == 3 && i < 3
  {
    var r := NewRpm(m, d.rpm[i], value);
    var d1 := d.(rpm := d.rpm[i := r]);
    match Retune(r, spr[i])
    case Halted => (d1.(zero := d1.zero[i := true]), false)
    case DivisionByZero => (d1.(zero := d1.zero[i := false]), true)
    case Timed(t) => (d1.(zero := d1.zero[i := false], delay := d1.delay[i := t]), false)
  }

  /** The motors in `ts` adjusted in order, stopping at the first error. */
  function Adjust(d: Drive, m: Motor, value: real, spr: seq<int>, ts: seq<nat>): (r: (Drive, bool))
    requires ValidDrive(d) && |spr| == 3
    requires forall k :: 0 <= k < |ts| ==> ts[k] < 3
    ensures ValidDrive(r.0)
  {
    if ts == [] then (d, false)
    else
      var p := Adjust(d, m, value, spr, ts[..|ts| - 1]);
      if p.1 then p else Step(p.0, m, value, spr, ts[|ts| - 1])
  }

  predicate AllOperating(operating: seq<bool>)
    requires |operating| == 3
  {
    operating[0] && operating[1] && operating[2]
  }

  /** setIncrement: "all" does nothing unless all three motors are running. */
  function SetIncrementSpec(d: Drive, m: Motor, value: real, operating: seq<bool>, spr: seq<int>): (r: (Drive, bool))
    requires ValidDrive(d) && |operating| == 3 && |spr| == 3
    ensures ValidDrive(r.0)
  {
    if m == All && !AllOperating(operating) then (d, false)
    else Adjust(d, m, value, spr, Targets(m))
  }

  /** What the call did to motor i, read off the states before and after. */
  ghost predicate Adjusted(d: Drive, d2: Drive, m: Motor, value: real, spr: seq<int>, i: nat)
    requires ValidDrive(d) && ValidDrive(d2) && |spr| == 3 && i < 3
  {
    var r := NewRpm(m, d.rpm[i], value);
    d2.rpm[i] == r &&
    match Retune(r, spr[i])
    case Halted => d2.zero[i] && d2.delay[i] == d.delay[i]
    case DivisionByZero => !d2.zero[i] && d2.delay[i] == d.delay[i]
    case Timed(t) => !d2.zero[i] && d2.delay[i] == t
  }

  ghost predicate Untouched(d: Drive, d2: Drive, i: nat)
    requires ValidDrive(d) && ValidDrive(d2) && i < 3
  {
    d2.rpm[i] == d.rpm[i] && d2.delay[i] == d.delay[i] && d2.zero[i] == d.zero[i]
  }

  /** One motor's adjustment changes that motor alone, and fails exactly
      when the division does. */
  lemma StepEffect(d: Drive, m: Motor, value: real, spr: seq<int>, i: nat)
    requires ValidDrive(d) && |spr| == 3 && i < 3
    ensures var (d2, err) := Step(d, m, value, spr, i);
      ValidDrive(d2) && Adjusted(d, d2, m, value, spr, i) &&
      (err <==> Retune(NewRpm(m, d.rpm[i], value), spr[i]) == DivisionByZero) &&
      forall j :: 0 <= j < 3 && j != i ==> Untouched(d, d2, j)
  {
  }

  /** The half-period is the one the pulse loop needs: with `spr` pulses per
      revolution at `rpm` revolutions per minute a pulse takes 60/(spr*rpm)
      seconds, so each of its two edges waits 30/(spr*rpm) seconds. A
      motor is timed exactly when both are positive; it meets the division
      error exactly when it is asked to turn with 0 pulses per revolution. */
  lemma RetuneMeaning(rpm: real, spr: int)
    ensures Retune(rpm, spr).Timed? <==> rpm > 0.0 && spr > 0
    ensures Retune(rpm, spr) == DivisionByZero <==> rpm > 0.0 && spr == 0
    ensures Retune(rpm, spr).Timed? ==>
      Retune(rpm, spr).delay > 0.0 && Retune(rpm, spr).delay * (spr as real) * rpm == 30.0
  {
    if rpm > 0.0 && spr != 0 {
      var p := spr as real * rpm;
      assert spr > 0 <==> p > 0.0;
      assert (30.0 / p) * p == 30.0;
      assert 30.0 / p > 0.0 <==> p > 0.0;
    }
  }

  /** Changing one motor's RPM by +v and then by -v restores it, as long as
      the first change did not hit the zero floor. */
  lemma IncrementThenDecrement(m: Motor, rpm: real, v: real)
    requires m != All && rpm >= 0.0 && rpm + v >= 0.0
    ensures NewRpm(m, NewRpm(m, rpm, v), -v) == rpm
  {
  }

  /** For "all", a change of `value` percent scales a non-negative RPM by
      (100 + value)/100, and anything at or beyond -100 % stops the motor. */
  lemma PercentageOfAll(rpm: real, value: real)
    requires rpm >= 0.0
    ensures value >= -100.0 ==> NewRpm(All, rpm, value) == rpm * (100.0 + value) / 100.0
    ensures value <= -100.0 ==> NewRpm(All, rpm, value) == 0.0
  {
    assert rpm + rpm * value / 100.0 == rpm * (100.0 + value) / 100.0;
    if value <= -100.0 {
      assert rpm * (100.0 + value) <= 0.0;
    }
  }

  /** The new RPM is never negative, and for one motor it is the old RPM plus
      the change whenever that sum is not negative. */
  lemma NewRpmFloor(m: Motor, rpm: real, value: real)
    ensures NewRpm(m, rpm, value) >= 0.0
    ensures m != All && rpm + value >= 0.0 ==> NewRpm(m, rpm, value) == rpm + value
    ensures m != All && rpm + value < 0.0 ==> NewRpm(m, rpm, value) == 0.0
  {
  }

  /** Asking every motor to change while one of them is switched off changes
      nothing. */
  lemma AllNeedsAllOperating(d: Drive, value: real, operating: seq<bool>, spr: seq<int>)
    requires ValidDrive(d) && |operating| == 3 && |spr| == 3
    requires exists i :: 0 <= i < 3 && !operating[i]
    ensures SetIncrementSpec(d, All, value, operating, spr) == (d, false)
  {
  }

  /** With a positive pulses-per-revolution count and a positive new RPM the
      motor is left running with the half-period that gives that RPM;
      otherwise it is marked stopped. With a zero count the motor is left
      marked as running with the delay of its previous speed: the call
      raises, and the speed the loop keeps pulsing at is not the one the
      RPM entry shows. */
  lemma SetIncrementOneMotor(d: Drive, m: Motor, value: real, operating: seq<bool>, spr: seq<int>)
    requires ValidDrive(d) && |operating| == 3 && |spr| == 3 && m != All
    ensures var (d2, err) := SetIncrementSpec(d, m, value, operating, spr);
      var i := Slot(m);
      var r := NewRpm(m, d.rpm[i], value);
      d2.rpm[i] == r &&
      (forall j :: 0 <= j < 3 && j != i ==> Untouched(d, d2, j)) &&
      (err <==> r > 0.0 && spr[i] == 0) &&
      (d2.zero[i] <==> !(r > 0.0 && spr[i] >= 0)) &&
      (!d2.zero[i] && !err ==> d2.delay[i] > 0.0 && d2.delay[i] * (spr[i] as real) * r == 30.0) &&
      (err || d2.zero[i] ==> d2.delay[i] == d.delay[i])
  {
    var i := Slot(m);
    assert Targets(m) == [i];
    assert [i][..0] == [];
    assert Adjust(d, m, value, spr, []) == (d, false);
    assert SetIncrementSpec(d, m, value, operating, spr) == Step(d, m, value, spr, i);
    StepEffect(d, m, value, spr, i);
    RetuneMeaning(NewRpm(m, d.rpm[i], value), spr[i]);
  }

  /** Motor i, which had drive d, now runs at RPM r in d2: it is marked
      stopped exactly when it cannot turn, its half-period is the one for r
      when it turns, and it keeps its old half-period when it is stopped. */
  ghost predicate RunsAt(d: Drive, d2: Drive, spr: seq<int>, i: nat, r: real)
    requires ValidDrive(d) && ValidDrive(d2) && |spr| == 3 && i < 3
  {
    (d2.zero[i] <==> !(r > 0.0 && spr[i] > 0)) &&
    (!d2.zero[i] ==> d2.delay[i] > 0.0 && d2.delay[i] * (spr[i] as real) * r == 30.0) &&
    (d2.zero[i] ==> d2.delay[i] == d.delay[i])
  }

  lemma AdjustedRunsAt(d: Drive, d2: Drive, m: Motor, value: real, spr: seq<int>, i: nat)
    requires ValidDrive(d) && ValidDrive(d2) && |spr| == 3 && i < 3
    requires Adjusted(d, d2, m, value, spr, i)
    requires Retune(NewRpm(m, d.rpm[i], value), spr[i]) != DivisionByZero
    ensures RunsAt(d, d2, spr, i, NewRpm(m, d.rpm[i], value))
  {
    RetuneMeaning(NewRpm(m, d.rpm[i], value), spr[i]);
  }

  /** The same for "all" when every motor is running: each motor is scaled
      and re-timed on its own, until the first motor (k) asked to turn with
      a zero pulses-per-revolution count; that one is left running at its
      old delay and the motors after it are not reached. */
  lemma SetIncrementAll(d: Drive, value: real, operating: seq<bool>, spr: seq<int>, k: nat)
    requires ValidDrive(d) && |operating| == 3 && |spr| == 3
    requires AllOperating(operating)
    requires k <= 3
    requires forall i :: 0 <= i < k ==> !(NewRpm(All, d.rpm[i], value) > 0.0 && spr[i] == 0)
    requires k < 3 ==> NewRpm(All, d.rpm[k], value) > 0.0 && spr[k] == 0
    ensures var (d2, err) := SetIncrementSpec(d, All, value, operating, spr);
      (err <==> k < 3) &&
      (forall i :: 0 <= i < k ==>
        d2.rpm[i] == NewRpm(All, d.rpm[i], value) && RunsAt(d, d2, spr, i, NewRpm(All, d.rpm[i], value))) &&
      (k < 3 ==> d2.rpm[k] == NewRpm(All, d.rpm[k], value) && !d2.zero[k] && d2.delay[k] == d.delay[k]) &&
      (forall i :: k < i < 3 ==> Untouched(d, d2, i))
  {
    var ts := [0, 1, 2];
    AdjustAllPrefix(d, value, spr, k);
    var d1 := Adjust(d, All, value, spr, ts[..k]).0;
    assert SetIncrementSpec(d, All, value, operating, spr) == Adjust(d, All, value, spr, ts);
    if k == 3 {
      assert ts[..3] == ts;
      return;
    }
    assert Untouched(d, d1, k);
    StepEffect(d1, All, value, spr, k);
    RetuneMeaning(NewRpm(All, d1.rpm[k], value), spr[k]);
    assert ts[..k + 1][..k] == ts[..k] && ts[..k + 1][k] == k;
    assert Adjust(d, All, value, spr, ts[..k + 1]) == Step(d1, All, value, spr, k);
    AdjustStopped(d, All, value, spr, ts, k + 1);
    var d2 := Step(d1, All, value, spr, k).0;
    forall i | 0 <= i < k
      ensures RunsAt(d, d2, spr, i, NewRpm(All, d.rpm[i], value))
    {
      RunsAtKept(d, d1, d2, spr, i, NewRpm(All, d.rpm[i], value));
    }
  }

  /** After "all" has adjusted motors 0 .. n-1 of d into d2: each of them
      runs at its new RPM, and the rest are not reached. */
  ghost predicate SettledUpTo(d: Drive, d2: Drive, value: real, spr: seq<int>, n: nat)
    requires ValidDrive(d) && ValidDrive(d2) && |spr| == 3 && n <= 3
  {
    (forall i :: 0 <= i < n ==>
      d2.rpm[i] == NewRpm(All, d.rpm[i], value) && RunsAt(d, d2, spr, i, NewRpm(All, d.rpm[i], value))) &&
    (forall i :: n <= i < 3 ==> Untouched(d, d2, i))
  }

  /** Adjusting the next motor, when it does not meet the division error,
      settles one motor more. */
  lemma SettleNext(d: Drive, d1: Drive, value: real, spr: seq<int>, j: nat)
    requires ValidDrive(d) && ValidDrive(d1) && |spr| == 3 && j < 3
    requires SettledUpTo(d, d1, value, spr, j)
    requires !(NewRpm(All, d.rpm[j], value) > 0.0 && spr[j] == 0)
    ensures var (d2, err) := Step(d1, All, value, spr, j);
      !err && ValidDrive(d2) && SettledUpTo(d, d2, value, spr, j + 1)
  {
    var d2 := Step(d1, All, value, spr, j).0;
    assert Untouched(d, d1, j);
    StepEffect(d1, All, value, spr, j);
    RetuneMeaning(NewRpm(All, d1.rpm[j], value), spr[j]);
    AdjustedRunsAt(d1, d2, All, value, spr, j);
    RunsAtFrom(d, d1, d2, spr, j, NewRpm(All, d.rpm[j], value));
    forall i | 0 <= i < j
      ensures RunsAt(d, d2, spr, i, NewRpm(All, d.rpm[i], value))
    {
      RunsAtKept(d, d1, d2, spr, i, NewRpm(All, d.rpm[i], value));
    }
    forall i | j < i < 3
      ensures Untouched(d, d2, i)
    {
      assert Untouched(d, d1, i) && Untouched(d1, d2, i);
    }
  }

  /** "all" over its first n motors, none of which meets the division
      error, settles those n motors. */
  lemma {:induction false} AdjustAllPrefix(d: Drive, value: real, spr: seq<int>, n: nat)
    requires ValidDrive(d) && |spr| == 3 && n <= 3
    requires forall i :: 0 <= i < n ==> !(NewRpm(All, d.rpm[i], value) > 0.0 && spr[i] == 0)
    ensures var (d2, err) := Adjust(d, All, value, spr, [0, 1, 2][..n]);
      !err && SettledUpTo(d, d2, value, spr, n)
  {
    var ts := [0, 1, 2];
    if n == 0 {
      assert ts[..0] == [];
    } else {
      var j := n - 1;
      AdjustAllPrefix(d, value, spr, j);
      assert ts[..n][..j] == ts[..j] && ts[..n][j] == j;
      var d1 := Adjust(d, All, value, spr, ts[..j]).0;
      assert Adjust(d, All, value, spr, ts[..n]) == Step(d1, All, value, spr, j);
      SettleNext(d, d1, value, spr, j);
    }
  }

  /** A later step that leaves motor i alone keeps it running at r. */
  lemma RunsAtKept(d: Drive, d2: Drive, d3: Drive, spr: seq<int>, i: nat, r: real)
    requires ValidDrive(d) && ValidDrive(d2) && ValidDrive(d3) && |spr| == 3 && i < 3
    requires RunsAt(d, d2, spr, i, r) && Untouched(d2, d3, i)
    ensures RunsAt(d, d3, spr, i, r)
  {
  }

  /** An earlier step that left motor i alone does not change where it
      started from. */
  lemma RunsAtFrom(d: Drive, d1: Drive, d2: Drive, spr: seq<int>, i: nat, r: real)
    requires ValidDrive(d) && ValidDrive(d1) && ValidDrive(d2) && |spr| == 3 && i < 3
    requires Untouched(d, d1, i) && RunsAt(d1, d2, spr, i, r)
    ensures RunsAt(d, d2, spr, i, r)
  {
  }

  lemma AdjustStopped(d: Drive, m: Motor, value: real, spr: seq<int>, ts: seq<nat>, k: nat)
    requires ValidDrive(d) && |spr| == 3
    requires forall j :: 0 <= j < |ts| ==> ts[j] < 3
    requires k <= |ts| && Adjust(d, m, value, spr, ts[..k]).1
    ensures Adjust(d, m, value, spr, ts) == Adjust(d, m, value, spr, ts[..k])
    decreases |ts| - k
  {
    if k < |ts| {
      assert ts[..k + 1][..k] == ts[..k];
      AdjustStopped(d, m, value, spr, ts, k + 1);
    } else {
      assert ts[..k] == ts;
    }
  }

  /** setIncrement itself, over the RPM entries, the delay list and the
      rpm_0 list; `failed` is the ZeroDivisionError, raised after the
      motors before the failing one were already adjusted. */
  method SetIncrement(m: Motor, value: real, operating: seq<bool>, spr: seq<int>,
                      rpm: array<real>, delay: array<real>, zero: array<bool>)
    returns (failed: bool)
    requires rpm.Length == 3 && delay.Length == 3 && zero.Length == 3 && rpm != delay
    requires |operating| == 3 && |spr| == 3
    modifies rpm, delay, zero
    ensures (Drive(rpm[..], delay[..], zero[..]), failed)
         == SetIncrementSpec(Drive(old(rpm[..]), old(delay[..]), old(zero[..])), m, value, operating, spr)
  {
    ghost var d0 := Drive(rpm[..], delay[..], zero[..]);
    if m == All {
      for k := 0 to 3
        invariant forall j :: 0 <= j < k ==> operating[j]
      {
        if !operating[k] {
          return false;
        }
      }
    }
    var ts := Targets(m);
    failed := false;
    var k := 0;
    while k < |ts| && !failed
      invariant 0 <= k <= |ts|
      invariant (Drive(rpm[..], delay[..], zero[..]), failed) == Adjust(d0, m, value, spr, ts[..k])
    {
      failed := AdjustMotor(m, value, spr, ts[k], rpm, delay, zero);
      assert ts[..k + 1][..k] == ts[..k];
      k := k + 1;
    }
    if failed {
      AdjustStopped(d0, m, value, spr, ts, k);
    } else {
      assert ts[..k] == ts;
    }
  }

  /** One pass of setIncrement's loop: motor i's new RPM, then its
      half-period or its stop flag; `failed` is the division error. */
  method AdjustMotor(m: Motor, value: real, spr: seq<int>, i: nat,
                     rpm: array<real>, delay: array<real>, zero: array<bool>)
    returns (failed: bool)
    requires rpm.Length == 3 && delay.Length == 3 && zero.Length == 3 && rpm != delay
    requires |spr| == 3 && i < 3
    modifies rpm, delay, zero
    ensures (Drive(rpm[..], delay[..], zero[..]), failed)
         == Step(Drive(old(rpm[..]), old(delay[..]), old(zero[..])), m, value, spr, i)
  {
    ghost var d := Drive(rpm[..], delay[..], zero[..]);
    var x := rpm[i];
    x := x + (if m != All then value else x * value / 100.0);
    x := if x < 0.0 then 0.0 else x;
    assert x == NewRpm(m, d.rpm[i], value);
    rpm[i] := x;
    failed := false;
    if x <= 0.0 {
      zero[i] := true;
      assert Retune(x, spr[i]) == Halted;
    } else {
      zero[i] := false;
      if spr[i] == 0 {
        failed := true;
        assert Retune(x, spr[i]) == DivisionByZero;
      } else {
        var t := 30.0 / (spr[i] as real * x);
        if t <= 0.0 {
          zero[i] := true;
          assert Retune(x, spr[i]) == Halted;
        } else {
          delay[i] := t;
          assert Retune(x, spr[i]) == Timed(t);
        }
      }
    }
    assert rpm[..] == d.rpm[i := x];
    assert zero[..] == d.zero[i := zero[i]];
    assert delay[..] == d.delay[i := delay[i]];
  }
}
