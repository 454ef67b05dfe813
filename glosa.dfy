/** Green Light Optimal Speed Advisory (glosa/glosa.py): per vehicle, predict
    the arrival time at the stop line, then either command the maximum speed
    (the vehicle clears the junction in the current green) or a slow-down that
    aims at the next useful green. */
module Glosa {
  import opened Common

  const MaxSpeed: real := 14.0
  const ArrivalMargin: real := 2.0
  /** The speed mode every advised vehicle is switched to: 31 - 16 - 1. */
  const IgnoreRedLight: int := 14

  /** The eight signal states of the junction, numbered as `caller` numbers them. */
  const Phase1: string := "rrrrGGGgrrrrGGGg"
  const Phase2: string := "rrrryyygrrrryyyg"
  const Phase3: string := "rrrrrrrGrrrrrrrG"
  const Phase4: string := "rrrrrrryrrrrrrry"
  const Phase5: string := "GGGgrrrrGGGgrrrr"
  const Phase6: string := "yyygrrrryyygrrrr"
  const Phase7: string := "rrrGrrrrrrrGrrrr"
  const Phase8: string := "rrryrrrrrrryrrrr"

  /** Phase strings in the order `caller` tests them; position k holds phase k + 1. */
  const CallerTable: seq<string> := [Phase1, Phase2, Phase3, Phase4, Phase5, Phase6, Phase7, Phase8]

  /** Phase strings in the order `caller1` (the cross approaches) tests them. */
  const Caller1Table: seq<string> := [Phase5, Phase6, Phase7, Phase8, Phase1, Phase2, Phase3, Phase4]

  /** Offsets (seconds) to the next useful green, phases 1..8, advisory path. */
  const AdvisoryOffsets: seq<real> := [59.0, 55.0, 49.0, 45.0, 14.0, 10.0, 4.0, 0.0]

  /** The 1-based index of the first entry of `table` equal to s, as the
      if/elif chain of `caller` finds it. */
  function PhaseIndex(table: seq<string>, s: string): (r: Option<int>)
    ensures r.Some? <==> s in table
    ensures r.Some? ==> 1 <= r.value <= |table| && table[r.value - 1] == s
    ensures r.Some? ==> forall j :: 0 <= j < r.value - 1 ==> table[j] != s
  {
    if |table| == 0 then None
    else if table[0] == s then Some(1)
    else match PhaseIndex(table[1..], s)
      case None => None
      case Some(k) => Some(k + 1)
  }

  predicate Distinct(table: seq<string>) {
    forall i, j :: 0 <= i < j < |table| ==> table[i] != table[j]
  }

  /** Characters 0, 3, 4 and 7 of a phase string, enough to tell the eight apart. */
  function Signature(s: string): string
    requires |s| == 16
  {
    [s[0], s[3], s[4], s[7]]
  }

  lemma CallerTableDistinct()
    ensures Distinct(CallerTable)
  {
    assert Signature(CallerTable[0]) == "rrGg";
    assert Signature(CallerTable[1]) == "rryg";
    assert Signature(CallerTable[2]) == "rrrG";
    assert Signature(CallerTable[3]) == "rrry";
    assert Signature(CallerTable[4]) == "Ggrr";
    assert Signature(CallerTable[5]) == "ygrr";
    assert Signature(CallerTable[6]) == "rGrr";
    assert Signature(CallerTable[7]) == "ryrr";
  }

  lemma Caller1TableDistinct()
    ensures Distinct(Caller1Table)
  {
    assert Signature(Caller1Table[0]) == "Ggrr";
    assert Signature(Caller1Table[1]) == "ygrr";
    assert Signature(Caller1Table[2]) == "rGrr";
    assert Signature(Caller1Table[3]) == "ryrr";
    assert Signature(Caller1Table[4]) == "rrGg";
    assert Signature(Caller1Table[5]) == "rryg";
    assert Signature(Caller1Table[6]) == "rrrG";
    assert Signature(Caller1Table[7]) == "rrry";
  }

  /** In a table without repeats, every entry is found at its own position. */
  lemma PhaseIndexOfEntry(table: seq<string>, k: int)
    requires Distinct(table) && 0 <= k < |table|
    ensures PhaseIndex(table, table[k]) == Some(k + 1)
  {
    var r := PhaseIndex(table, table[k]);
    assert r.Some? && table[r.value - 1] == table[k];
  }

  /** Two strings found at the same position are the same string. */
  lemma PhaseIndexInjective(table: seq<string>)
    ensures forall s, t :: PhaseIndex(table, s).Some? && PhaseIndex(table, s) == PhaseIndex(table, t) ==> s == t
  {
    forall s, t | PhaseIndex(table, s).Some? && PhaseIndex(table, s) == PhaseIndex(table, t) ensures s == t {
      var r := PhaseIndex(table, s).value;
      assert table[r - 1] == s;
      assert table[r - 1] == t;
    }
  }

  /** caller maps its eight phase strings one-to-one onto 1..8 and ignores every other string. */
  lemma CallerIsBijective()
    ensures forall k :: 1 <= k <= 8 ==> PhaseIndex(CallerTable, CallerTable[k - 1]) == Some(k)
    ensures forall s :: s !in CallerTable ==> PhaseIndex(CallerTable, s) == None
    ensures forall s, t :: PhaseIndex(CallerTable, s).Some? && PhaseIndex(CallerTable, s) == PhaseIndex(CallerTable, t) ==> s == t
  {
    CallerTableDistinct();
    forall k | 1 <= k <= 8 ensures PhaseIndex(CallerTable, CallerTable[k - 1]) == Some(k) {
      PhaseIndexOfEntry(CallerTable, k - 1);
    }
    PhaseIndexInjective(CallerTable);
  }

  /** Looking a string up in a table rotated by half its length rotates the index. */
  lemma PhaseIndexRotated(t: seq<string>, u: seq<string>, s: string)
    requires |t| == 8 && |u| == 8 && Distinct(u)
    requires forall k :: 0 <= k < 4 ==> u[k] == t[k + 4] && u[k + 4] == t[k]
    ensures (s in t) <==> (s in u)
    ensures s in t ==> PhaseIndex(u, s) == Some((PhaseIndex(t, s).value + 3) % 8 + 1)
  {
    if s in t {
      var i := PhaseIndex(t, s).value;
      var k := if i <= 4 then i + 3 else i - 5;
      assert k == (i + 3) % 8;
      assert u[k] == s;
      PhaseIndexOfEntry(u, k);
    }
    if s in u {
      var j :| 0 <= j < 8 && u[j] == s;
      assert t[if j < 4 then j + 4 else j - 4] == s;
    }
  }

  /** caller1's phase index is caller's rotated by four phases. */
  lemma Caller1IsCallerRotated(s: string)
    ensures (s in CallerTable) <==> (s in Caller1Table)
    ensures s in CallerTable ==>
      PhaseIndex(Caller1Table, s) == Some((PhaseIndex(CallerTable, s).value + 3) % 8 + 1)
  {
    Caller1TableDistinct();
    PhaseIndexRotated(CallerTable, Caller1Table, s);
  }

  // ---------------------------------------------------------------------
  // Kinematic predictor

  /** Time to accelerate from `speed` to the cap. */
  function TimeToCap(speed: real, acceleration: real): real
    requires acceleration != 0.0
  {
    (MaxSpeed - speed) / acceleration
  }

  /** Distance covered while accelerating from `speed` to the cap. */
  function DistanceToCap(speed: real, acceleration: real): real
    requires acceleration != 0.0
  {
    TimeToCap(speed, acceleration) * ((MaxSpeed + speed) / 2.0)
  }

  /** The radicand of the quadratic root taken in `algo`. */
  function Radicand(speed: real, acceleration: real, distance: real): real
    requires acceleration != 0.0
  {
    (speed * speed) / (acceleration * acceleration) + (2.0 * distance) / acceleration
  }

  /** Predicted arrival time at the stop line (glosa.py:189-210). The cap test
      and the capped branch use the lane length, not the remaining distance.
      A negative radicand makes math.sqrt raise. */
  function ArrivalTime(ops: RealOps, speed: real, acceleration: real, distance: real, laneLength: real): (r: Result<real>)
    ensures r.Err? <==> acceleration != 0.0 && DistanceToCap(speed, acceleration) > laneLength
                         && Radicand(speed, acceleration, distance) < 0.0
    ensures r.Err? ==> r.error == MathDomainError
  {
    if acceleration != 0.0 then
      var tmax := TimeToCap(speed, acceleration);
      var dmax := DistanceToCap(speed, acceleration);
      if dmax > laneLength then
        var rad := Radicand(speed, acceleration, distance);
        if rad < 0.0 then Err(MathDomainError)
        else Ok(-(speed / acceleration) + ops.sqrt(rad))
      else
        Ok(tmax + (laneLength - dmax) / MaxSpeed)
    else if speed != 0.0 then
      Ok(distance / speed)
    else
      Ok(0.0)
  }

  /** Without acceleration the arrival time is the one at constant speed; a
      standing vehicle gets 0 and no division happens. */
  lemma ArrivalAtConstantSpeed(ops: RealOps, speed: real, distance: real, laneLength: real)
    ensures speed != 0.0 ==> (ArrivalTime(ops, speed, 0.0, distance, laneLength).Ok?
                           && ArrivalTime(ops, speed, 0.0, distance, laneLength).value * speed == distance)
    ensures speed == 0.0 ==> ArrivalTime(ops, speed, 0.0, distance, laneLength) == Ok(0.0)
  {
  }

  /** When the vehicle would reach the cap after the lane length, the arrival
      time solves distance = speed*t + acceleration*t^2/2. */
  lemma ArrivalBeforeCapSolvesKinematics(ops: RealOps, speed: real, acceleration: real, distance: real, laneLength: real)
    requires Lawful(ops)
    requires acceleration != 0.0 && DistanceToCap(speed, acceleration) > laneLength
    requires Radicand(speed, acceleration, distance) >= 0.0
    ensures ArrivalTime(ops, speed, acceleration, distance, laneLength).Ok?
    ensures var t := ArrivalTime(ops, speed, acceleration, distance, laneLength).value;
            speed * t + acceleration * t * t / 2.0 == distance
  {
    var rad := Radicand(speed, acceleration, distance);
    var q := speed / acceleration;
    var root := ops.sqrt(rad);
    assert root * root == rad;
    var t := root - q;
    assert ArrivalTime(ops, speed, acceleration, distance, laneLength).value == t;
    assert speed == q * acceleration;
    assert rad == q * q + (2.0 * distance) / acceleration;
    assert (2.0 * distance) / acceleration * acceleration == 2.0 * distance;
    calc {
      speed * t + acceleration * t * t / 2.0;
      == acceleration * (q * t + t * t / 2.0);
      == acceleration * ((root * root - q * q) / 2.0);
      == acceleration * (((2.0 * distance) / acceleration) / 2.0);
      == distance;
    }
  }

  /** When the cap is reached within the lane length, the arrival time is the
      time to the cap plus the rest of the lane at the cap speed. */
  lemma ArrivalAfterCap(ops: RealOps, speed: real, acceleration: real, distance: real, laneLength: real)
    requires acceleration != 0.0 && DistanceToCap(speed, acceleration) <= laneLength
    ensures ArrivalTime(ops, speed, acceleration, distance, laneLength)
         == Ok(TimeToCap(speed, acceleration) + (laneLength - DistanceToCap(speed, acceleration)) / MaxSpeed)
  {
  }

  /** In the capped branch the prediction does not depend on where the
      vehicle is: it is computed as if the vehicle stood at the lane start. */
  lemma CappedArrivalIgnoresPosition(ops: RealOps, speed: real, acceleration: real, d1: real, d2: real, laneLength: real)
    requires acceleration != 0.0 && DistanceToCap(speed, acceleration) <= laneLength
    ensures ArrivalTime(ops, speed, acceleration, d1, laneLength) == ArrivalTime(ops, speed, acceleration, d2, laneLength)
  {
  }

  /** A vehicle still accelerating towards the cap never arrives, in the
      capped branch, earlier than a vehicle driving the lane at the cap speed. */
  lemma CappedArrivalNotFasterThanCapSpeed(ops: RealOps, speed: real, acceleration: real, distance: real, laneLength: real)
    requires acceleration > 0.0 && 0.0 <= speed < MaxSpeed
    requires DistanceToCap(speed, acceleration) <= laneLength
    requires distance <= laneLength
    ensures ArrivalTime(ops, speed, acceleration, distance, laneLength).Ok?
    ensures ArrivalTime(ops, speed, acceleration, distance, laneLength).value > distance / MaxSpeed
  {
    var tmax := TimeToCap(speed, acceleration);
    var dmax := DistanceToCap(speed, acceleration);
    assert tmax > 0.0;
    assert dmax == tmax * ((MaxSpeed + speed) / 2.0);
    MulStrictlyMonotone(tmax, (MaxSpeed + speed) / 2.0, MaxSpeed);
    assert dmax < tmax * MaxSpeed;
    assert tmax + (laneLength - dmax) / MaxSpeed == (tmax * MaxSpeed - dmax + laneLength) / MaxSpeed;
  }

  lemma MulStrictlyMonotone(a: real, x: real, y: real)
    requires a > 0.0 && x < y
    ensures a * x < a * y
  {
  }

  /** The two worked examples: 5 m/s at 1 m/s^2 on a 1000 m lane, and 10 m/s
      without acceleration 50 m before the line. */
  lemma ArrivalExamples(ops: RealOps)
    ensures ArrivalTime(ops, 5.0, 1.0, 1000.0, 1000.0) == Ok(9.0 + 914.5 / 14.0)
    ensures ArrivalTime(ops, 10.0, 0.0, 50.0, 1000.0) == Ok(5.0)
  {
    assert TimeToCap(5.0, 1.0) == 9.0;
    assert DistanceToCap(5.0, 1.0) == 85.5;
  }

  // ---------------------------------------------------------------------
  // Speed advisory

  /** The horizon used outside the maximum-speed branch (glosa.py:232, 242-257). */
  function Horizon(phase: int, remaining: real): real
    requires 1 <= phase <= 8
  {
    AdvisoryOffsets[phase - 1] + remaining + ArrivalMargin
  }

  lemma AdvisoryOffsetsNonIncreasing()
    ensures forall i, j :: 0 <= i <= j < 8 ==> AdvisoryOffsets[i] >= AdvisoryOffsets[j]
    ensures AdvisoryOffsets[0] == 59.0 && AdvisoryOffsets[7] == 0.0
  {
  }

  /** The speed that covers `distance` in `horizon` with a linear ramp from `speed`, floored at 0. */
  function ExpectedSpeed(distance: real, horizon: real, speed: real): (r: real)
    requires horizon != 0.0
    ensures r >= 0.0
    ensures r == 0.0 || (r + speed) * horizon == 2.0 * distance
    ensures r >= 2.0 * distance / horizon - speed
  {
    Max(0.0, (2.0 * distance) / horizon - speed)
  }

  /** A vehicle's readings taken by `algo`. */
  datatype VehicleReading = VehicleReading(lanePosition: real, speed: real, acceleration: real)

  /** The commands issued so far, and the exception that stopped the run, if any. */
  datatype Emission = Emission(commands: seq<Command>, failure: Option<Error>)

  /** The phase-1 test (glosa.py:225): remaining > arrival and remaining - arrival >= margin. */
  predicate ClearsInGreen(remaining: real, arrival: real) {
    remaining > arrival && remaining - arrival >= ArrivalMargin
  }

  lemma ClearsInGreenIsMarginTest(remaining: real, arrival: real)
    ensures ClearsInGreen(remaining, arrival) <==> remaining - arrival >= ArrivalMargin
  {
  }

  /** `algo` for one vehicle on a lane of length laneLength in phase `phase`,
      with `remaining` seconds to the next switch. */
  function Algo(ops: RealOps, vehId: string, laneLength: real, phase: int, v: VehicleReading, remaining: real): (e: Emission)
    requires 1 <= phase <= 8
    ensures |e.commands| >= 1 && e.commands[0] == SetSpeedMode(vehId, IgnoreRedLight)
    ensures e.failure.None? ==> |e.commands| == 2
    ensures e.failure.Some? ==> |e.commands| == 1
  {
    var distance := laneLength - v.lanePosition;
    var mode := SetSpeedMode(vehId, IgnoreRedLight);
    match ArrivalTime(ops, v.speed, v.acceleration, distance, laneLength)
    case Err(err) => Emission([mode], Some(err))
    case Ok(arrival) =>
      if phase == 1 then
        if ClearsInGreen(remaining, arrival) then
          Emission([mode, SetSpeed(vehId, MaxSpeed)], None)
        else
          var horizon := Horizon(1, remaining);
          if horizon == 0.0 then Emission([mode], Some(ZeroDivisionError))
          else Emission([mode, SlowDown(vehId, ExpectedSpeed(distance, horizon, v.speed), horizon * 1000.0)], None)
      else
        var horizon := Horizon(phase, remaining);
        var expected := if horizon != 0.0 then ExpectedSpeed(distance, horizon, v.speed) else v.speed;
        Emission([mode, SlowDown(vehId, expected, horizon * 1000.0)], None)
  }

  /** In phase 1 the maximum speed is commanded exactly when the vehicle
      arrives at least the margin before the switch. */
  lemma Phase1MaxSpeedIffMargin(ops: RealOps, vehId: string, laneLength: real, v: VehicleReading, remaining: real)
    requires ArrivalTime(ops, v.speed, v.acceleration, laneLength - v.lanePosition, laneLength).Ok?
    ensures var arrival := ArrivalTime(ops, v.speed, v.acceleration, laneLength - v.lanePosition, laneLength).value;
            (Algo(ops, vehId, laneLength, 1, v, remaining).commands[1..] == [SetSpeed(vehId, MaxSpeed)])
            <==> remaining - arrival >= ArrivalMargin
  {
  }

  /** Outside the maximum-speed branch, with a non-negative time to the next
      switch, the horizon is at least the margin and the command is a
      slow-down to a non-negative speed over horizon*1000 ms; the fallback
      that keeps the current speed is never taken. */
  lemma SlowDownWhenNotClearing(ops: RealOps, vehId: string, laneLength: real, phase: int, v: VehicleReading, remaining: real)
    requires 1 <= phase <= 8 && remaining >= 0.0
    requires ArrivalTime(ops, v.speed, v.acceleration, laneLength - v.lanePosition, laneLength).Ok?
    requires phase == 1 ==> !ClearsInGreen(remaining, ArrivalTime(ops, v.speed, v.acceleration, laneLength - v.lanePosition, laneLength).value)
    ensures Horizon(phase, remaining) >= ArrivalMargin
    ensures Algo(ops, vehId, laneLength, phase, v, remaining)
         == Emission([SetSpeedMode(vehId, IgnoreRedLight),
                      SlowDown(vehId, ExpectedSpeed(laneLength - v.lanePosition, Horizon(phase, remaining), v.speed),
                               Horizon(phase, remaining) * 1000.0)], None)
  {
  }

  /** Every speed `algo` commands is non-negative when the vehicle's own speed is. */
  lemma CommandedSpeedNonNegative(ops: RealOps, vehId: string, laneLength: real, phase: int, v: VehicleReading, remaining: real)
    requires 1 <= phase <= 8 && v.speed >= 0.0
    ensures forall c :: c in Algo(ops, vehId, laneLength, phase, v, remaining).commands && (c.SlowDown? || c.SetSpeed?) ==> c.speed >= 0.0
  {
  }

  // ---------------------------------------------------------------------
  // The per-lane loops `caller` and `caller1`

  /** What the loop reads for one vehicle: the phase string (re-read for
      every vehicle), the vehicle's state and the time to the next switch. */
  datatype Observation = Observation(vehId: string, phaseString: string, reading: VehicleReading, remaining: real)

  /** The commands one vehicle contributes: none for an unknown phase string. */
  function VehicleAdvice(ops: RealOps, table: seq<string>, laneLength: real, o: Observation): (e: Emission)
    requires |table| == 8
  {
    match PhaseIndex(table, o.phaseString)
    case None => Emission([], None)
    case Some(phase) => Algo(ops, o.vehId, laneLength, phase, o.reading, remaining := o.remaining)
  }

  /** The loop over a lane's vehicles, stopping at the first exception. */
  function LaneAdvice(ops: RealOps, table: seq<string>, laneLength: real, obs: seq<Observation>): (e: Emission)
    requires |table| == 8
    decreases |obs|
  {
    if |obs| == 0 then Emission([], None)
    else
      var prev := LaneAdvice(ops, table, laneLength, obs[..|obs| - 1]);
      if prev.failure.Some? then prev
      else
        var next := VehicleAdvice(ops, table, laneLength, obs[|obs| - 1]);
        Emission(prev.commands + next.commands, next.failure)
  }

  lemma LaneAdviceStaysFailed(ops: RealOps, table: seq<string>, laneLength: real, obs: seq<Observation>, i: nat)
    requires |table| == 8 && i <= |obs|
    requires LaneAdvice(ops, table, laneLength, obs[..i]).failure.Some?
    ensures LaneAdvice(ops, table, laneLength, obs) == LaneAdvice(ops, table, laneLength, obs[..i])
    decreases |obs| - i
  {
    if i < |obs| {
      assert obs[..i + 1][..i] == obs[..i];
      LaneAdviceStaysFailed(ops, table, laneLength, obs, i + 1);
    } else {
      assert obs[..i] == obs;
    }
  }

  /** `caller` (table CallerTable) and `caller1` (table Caller1Table). */
  method Caller(ops: RealOps, table: seq<string>, laneLength: real, obs: seq<Observation>)
      returns (commands: seq<Command>, failure: Option<Error>)
    requires |table| == 8
    ensures Emission(commands, failure) == LaneAdvice(ops, table, laneLength, obs)
  {
    commands, failure := [], None;
    var i := 0;
    while i < |obs| && failure.None?
      invariant 0 <= i <= |obs|
      invariant Emission(commands, failure) == LaneAdvice(ops, table, laneLength, obs[..i])
    {
      assert obs[..i + 1][..i] == obs[..i];
      var e := VehicleAdvice(ops, table, laneLength, obs[i]);
      commands := commands + e.commands;
      failure := e.failure;
      i := i + 1;
    }
    if i < |obs| {
      LaneAdviceStaysFailed(ops, table, laneLength, obs, i);
    } else {
      assert obs[..i] == obs;
    }
  }

  /** A lane on which no vehicle reads a known phase string gets no command. */
  lemma {:induction false} UnknownPhasesIssueNothing(ops: RealOps, table: seq<string>, laneLength: real, obs: seq<Observation>)
    requires |table| == 8
    requires forall k :: 0 <= k < |obs| ==> obs[k].phaseString !in table
    ensures LaneAdvice(ops, table, laneLength, obs) == Emission([], None)
    decreases |obs|
  {
    if |obs| > 0 {
      UnknownPhasesIssueNothing(ops, table, laneLength, obs[..|obs| - 1]);
    }
  }

  /** Without an exception, every vehicle with a known phase string gets its
      speed-mode command and exactly one speed command, in lane order. */
  lemma {:induction false} LaneAdviceCount(ops: RealOps, table: seq<string>, laneLength: real, obs: seq<Observation>)
    requires |table| == 8
    requires LaneAdvice(ops, table, laneLength, obs).failure.None?
    ensures |LaneAdvice(ops, table, laneLength, obs).commands| == 2 * KnownCount(table, obs)
    decreases |obs|
  {
    if |obs| > 0 {
      LaneAdviceCount(ops, table, laneLength, obs[..|obs| - 1]);
    }
  }

  /** The number of observations whose phase string the table knows. */
  function KnownCount(table: seq<string>, obs: seq<Observation>): nat
    decreases |obs|
  {
    if |obs| == 0 then 0
    else KnownCount(table, obs[..|obs| - 1]) + (if obs[|obs| - 1].phaseString in table then 1 else 0)
  }
}
