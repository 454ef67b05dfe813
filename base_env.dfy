/** The per-step rules of the base environment: the acceleration and
    lane-change commands it sends, the headway table built from the
    simulator's leader readings, the absolute-position update with its crash
    flag, sorting by position, and the step timer. Simulator readings arrive
    as an `Observation` per vehicle; commands are returned as values. */
module BaseEnv {
  import opened Common
  import opened Registry
  import Sorting

  /** Duration of the slowDown command used for accelerations, in ms. */
  const SlowDownMs: real := 100.0
  /** Duration of a lane-change command, in ms. */
  const LaneChangeMs: int := 100000
  /** Headway assumed when there is no usable leader reading. */
  const NoLeaderHeadway: real := 0.001

  // ---------------------------------------------------------------------
  // apply_acceleration (no failsafe, single agent)
  // ---------------------------------------------------------------------

  /** The per-vehicle loop of `apply_acceleration`, from index i on: it stops
      at the first vehicle without an acceleration controller (KeyError) or
      at the first index past the end of the acceleration list (IndexError). */
  function ControllerCheck(vehicles: Vehicles, vehIds: seq<string>, accCount: nat, i: nat): (r: Option<Error>)
    reads vehicles
    requires i <= |vehIds|
    ensures r.None? <==>
      (forall k :: i <= k < |vehIds| ==> vehicles.Field(vehIds[k], "acc_controller").Ok?) &&
      (i == |vehIds| || |vehIds| <= accCount)
    ensures r.Some? ==> r.value.IndexError? || r.value.KeyError?
    decreases |vehIds| - i
  {
    if i == |vehIds| then None
    else match vehicles.Field(vehIds[i], "acc_controller")
      case Err(e) => Some(e)
      case Ok(_) => if i >= accCount then Some(IndexError) else ControllerCheck(vehicles, vehIds, accCount, i + 1)
  }

  /** The slowDown commands `apply_acceleration` issues, or the exception it
      raises before issuing any: each vehicle is asked to reach its current
      speed plus acceleration times the time step, clipped below at 0. */
  function Accelerate(vehicles: Vehicles, vehIds: seq<string>, acc: seq<real>, timeStep: real): (r: Result<seq<Command>>)
    reads vehicles
    ensures r.Ok? <==>
      ControllerCheck(vehicles, vehIds, |acc|, 0).None? && vehicles.Numbers(vehIds, "speed").Ok? &&
      BroadcastLength(|vehIds|, |acc|).Some?
    ensures ControllerCheck(vehicles, vehIds, |acc|, 0).Some? ==> r == Err(ControllerCheck(vehicles, vehIds, |acc|, 0).value)
    ensures r.Ok? ==> |r.value| == |vehIds| && |vehIds| <= |acc|
    ensures r.Ok? ==> forall i :: 0 <= i < |vehIds| ==>
      vehicles.Number(vehIds[i], "speed").Ok? &&
      r.value[i] == SlowDown(vehIds[i], NextSpeed(vehicles.Number(vehIds[i], "speed").value, acc[i], timeStep), SlowDownMs)
    ensures r.Ok? ==> forall i :: 0 <= i < |r.value| ==> r.value[i].speed >= 0.0
  {
    match ControllerCheck(vehicles, vehIds, |acc|, 0)
    case Some(e) => Err(e)
    case None =>
      match vehicles.Numbers(vehIds, "speed")
      case Err(e) => Err(e)
      case Ok(speeds) =>
        if BroadcastLength(|speeds|, |acc|).None? then Err(ValueError("operands could not be broadcast together"))
        else Ok(SlowDowns(vehIds, speeds, acc, timeStep, 0))
  }

  /** The commanded speed: current speed plus acceleration times the time
      step, never below 0. */
  function NextSpeed(speed: real, acc: real, timeStep: real): (r: real)
    ensures r >= 0.0 && r >= speed + acc * timeStep
    ensures speed + acc * timeStep >= 0.0 ==> r == speed + acc * timeStep
    ensures speed + acc * timeStep < 0.0 ==> r == 0.0
  {
    Max(0.0, speed + acc * timeStep)
  }

  /** The slowDown commands for vehIds[i..]. */
  function SlowDowns(vehIds: seq<string>, speeds: seq<real>, acc: seq<real>, timeStep: real, i: nat): (r: seq<Command>)
    requires i <= |vehIds| == |speeds| <= |acc|
    ensures |r| == |vehIds| - i
    ensures forall k :: i <= k < |vehIds| ==> r[k - i] == SlowDown(vehIds[k], NextSpeed(speeds[k], acc[k], timeStep), SlowDownMs)
    decreases |vehIds| - i
  {
    if i == |vehIds| then []
    else
      var rest := SlowDowns(vehIds, speeds, acc, timeStep, i + 1);
      var r := [SlowDown(vehIds[i], NextSpeed(speeds[i], acc[i], timeStep), SlowDownMs)] + rest;
      assert forall j :: 0 <= j < |rest| ==> r[j + 1] == rest[j];
      r
  }

  /** The command loop of `apply_acceleration`. */
  method SlowDownCommands(vehIds: seq<string>, speeds: seq<real>, acc: seq<real>, timeStep: real) returns (commands: seq<Command>)
    requires |vehIds| == |speeds| <= |acc|
    ensures commands == SlowDowns(vehIds, speeds, acc, timeStep, 0)
  {
    commands := [];
    var i := 0;
    while i < |vehIds|
      invariant 0 <= i <= |vehIds|
      invariant commands + SlowDowns(vehIds, speeds, acc, timeStep, i) == SlowDowns(vehIds, speeds, acc, timeStep, 0)
    {
      var c := SlowDown(vehIds[i], NextSpeed(speeds[i], acc[i], timeStep), SlowDownMs);
      ghost var rest := SlowDowns(vehIds, speeds, acc, timeStep, i + 1);
      assert SlowDowns(vehIds, speeds, acc, timeStep, i) == [c] + rest;
      assert (commands + [c]) + rest == commands + ([c] + rest);
      commands := commands + [c];
      i := i + 1;
    }
    assert commands + [] == commands;
  }

  // ---------------------------------------------------------------------
  // apply_lane_change
  // ---------------------------------------------------------------------

  datatype LaneChangeOutcome = Applied | SingleLane | Raised(error: Error)

  /** What `apply_lane_change` leaves behind: the refreshed `prev_last_lc`
      map, the commands already sent, and how the call ended. */
  datatype LaneChange = LaneChange(prevLastLc: map<string, Value>, commands: seq<Command>, outcome: LaneChangeOutcome)

  datatype Refreshed = Refreshed(prevLastLc: map<string, Value>, error: Option<Error>)

  /** The refresh loop of `apply_lane_change` from index i on: each listed
      vehicle's `last_lc` is copied into `prev_last_lc`, until a vehicle
      without one raises KeyError. */
  function Refresh(vehicles: Vehicles, prev: map<string, Value>, vehIds: seq<string>, i: nat): (r: Refreshed)
    reads vehicles
    requires i <= |vehIds|
    ensures r.error.None? <==> forall k :: i <= k < |vehIds| ==> vehicles.Field(vehIds[k], "last_lc").Ok?
    ensures r.error.Some? ==> r.error.value.KeyError?
    ensures r.error.None? ==> forall k :: i <= k < |vehIds| ==>
      vehIds[k] in r.prevLastLc && r.prevLastLc[vehIds[k]] == vehicles.Field(vehIds[k], "last_lc").value
    ensures forall v :: v in prev && v !in vehIds[i..] ==> v in r.prevLastLc && r.prevLastLc[v] == prev[v]
    decreases |vehIds| - i
  {
    if i == |vehIds| then Refreshed(prev, None)
    else match vehicles.Field(vehIds[i], "last_lc")
      case Err(e) => Refreshed(prev, Some(e))
      case Ok(x) =>
        var r := Refresh(vehicles, prev[vehIds[i] := x], vehIds, i + 1);
        assert forall v :: v in vehIds[i + 1..] ==> v in vehIds[i..];
        r
  }

  /** The lanes `apply_lane_change` aims for before its per-vehicle loop:
      the given target lanes, or current lane plus direction (after checking
      every direction is -1, 0 or 1), clipped to the lanes of the network. */
  function TargetLanes(current: seq<real>, direction: Option<seq<real>>, targetLane: Option<seq<real>>, lanes: int): (r: Result<seq<real>>)
    requires direction.Some? != targetLane.Some?
    ensures direction.Some? && (exists k :: 0 <= k < |direction.value| && Sign(direction.value[k]) != direction.value[k]) ==>
      r.Err? && r.error.ValueError?
    ensures lanes >= 1 && r.Ok? ==> forall k :: 0 <= k < |r.value| ==> 0.0 <= r.value[k] <= (lanes - 1) as real
    ensures targetLane.Some? ==> (r.Ok? && |r.value| == |targetLane.value| &&
      forall k :: 0 <= k < |r.value| ==> r.value[k] == Clip(targetLane.value[k], 0.0, (lanes - 1) as real))
    ensures direction.Some? && |direction.value| == |current| && r.Ok? ==> (|r.value| == |current| &&
      forall k :: 0 <= k < |r.value| ==> r.value[k] == Clip(current[k] + direction.value[k], 0.0, (lanes - 1) as real))
  {
    var top := (lanes - 1) as real;
    if targetLane.Some? then Ok(ClippedLanes(targetLane.value, top))
    else DirectedLanes(current, direction.value, top)
  }

  /** The given target lanes, clipped to [0, top]. */
  function ClippedLanes(t: seq<real>, top: real): (r: seq<real>)
    ensures |r| == |t| && forall k :: 0 <= k < |r| ==> r[k] == Clip(t[k], 0.0, top)
  {
    seq(|t|, k requires 0 <= k < |t| => Clip(t[k], 0.0, top))
  }

  /** Current lane plus direction, clipped to [0, top], after the direction check. */
  function DirectedLanes(current: seq<real>, d: seq<real>, top: real): (r: Result<seq<real>>)
    ensures (exists k :: 0 <= k < |d| && Sign(d[k]) != d[k]) ==> r.Err? && r.error.ValueError?
    ensures top >= 0.0 && r.Ok? ==> forall k :: 0 <= k < |r.value| ==> 0.0 <= r.value[k] <= top
    ensures |d| == |current| && r.Ok? ==> (|r.value| == |current| &&
      forall k :: 0 <= k < |r.value| ==> r.value[k] == Clip(current[k] + d[k], 0.0, top))
  {
    // np.sign(x) != x exactly when x is not -1, 0 or 1 (the ensures of Sign)
    if exists k :: 0 <= k < |d| && !(d[k] == -1.0 || d[k] == 0.0 || d[k] == 1.0) then
      Err(ValueError("Direction values for lane changes may only be: -1, 0, or 1."))
    else match BroadcastLength(|current|, |d|)
      case None => Err(ValueError("operands could not be broadcast together"))
      case Some(m) => Ok(BroadcastSum(current, d, m, top))
  }

  /** The broadcast sum current + d of length m, clipped to [0, top]. */
  function BroadcastSum(current: seq<real>, d: seq<real>, m: nat, top: real): (r: seq<real>)
    requires (|current| == 1 || m <= |current|) && (|d| == 1 || m <= |d|)
    ensures |r| == m
    ensures top >= 0.0 ==> forall k :: 0 <= k < m ==> 0.0 <= r[k] <= top
    ensures |d| == |current| == m ==> forall k :: 0 <= k < m ==> r[k] == Clip(current[k] + d[k], 0.0, top)
  {
    seq(m, k requires 0 <= k < m => Clip(BroadcastAt(current, k) + BroadcastAt(d, k), 0.0, top))
  }

  datatype Issued = Issued(commands: seq<Command>, error: Option<Error>)

  /** The command an RL vehicle or another vehicle gets in the per-vehicle
      loop of `apply_lane_change`. */
  function LaneCommand(vehId: string, isRl: bool, target: real, current: real): seq<Command> {
    if isRl && target == current then [] else [ChangeLane(vehId, Trunc(target), LaneChangeMs)]
  }

  /** The per-vehicle loop of `apply_lane_change` from index i on; reading a
      target past the end of the target list raises IndexError after the
      commands of the earlier vehicles have been sent. */
  function Issue(vehIds: seq<string>, rlIds: seq<string>, target: seq<real>, current: seq<real>, i: nat): (r: Issued)
    requires i <= |vehIds| == |current|
    ensures r.error.None? <==> |vehIds| <= |target| || i == |vehIds|
    ensures r.error.Some? ==> r.error.value == IndexError
    decreases |vehIds| - i
  {
    if i == |vehIds| then Issued([], None)
    else if i >= |target| then Issued([], Some(IndexError))
    else
      var rest := Issue(vehIds, rlIds, target, current, i + 1);
      Issued(LaneCommand(vehIds[i], vehIds[i] in rlIds, target[i], current[i]) + rest.commands, rest.error)
  }

  /** The per-vehicle loop of `apply_lane_change`, sending each command in turn. */
  method IssueLaneChanges(vehIds: seq<string>, rlIds: seq<string>, target: seq<real>, current: seq<real>)
    returns (commands: seq<Command>, err: Option<Error>)
    requires |vehIds| == |current|
    ensures Issued(commands, err) == Issue(vehIds, rlIds, target, current, 0)
  {
    commands := [];
    var i := 0;
    while i < |vehIds|
      invariant 0 <= i <= |vehIds|
      invariant i <= |target|
      invariant commands + Issue(vehIds, rlIds, target, current, i).commands == Issue(vehIds, rlIds, target, current, 0).commands
      invariant Issue(vehIds, rlIds, target, current, i).error == Issue(vehIds, rlIds, target, current, 0).error
    {
      if i >= |target| {
        return commands, Some(IndexError);
      }
      commands := commands + LaneCommand(vehIds[i], vehIds[i] in rlIds, target[i], current[i]);
      i := i + 1;
    }
    return commands, None;
  }

  function ErrLaneChange(prev: map<string, Value>, e: Error): LaneChange {
    LaneChange(prev, [], Raised(e))
  }

  /** `apply_lane_change` as a whole. */
  function ApplyLaneChange(vehicles: Vehicles, prev: map<string, Value>, lanes: int, vehIds: seq<string>,
                           direction: Option<seq<real>>, targetLane: Option<seq<real>>): (r: LaneChange)
    reads vehicles
    ensures direction.Some? == targetLane.Some? ==>
      r.prevLastLc == prev && r.commands == [] && r.outcome.Raised? && r.outcome.error.ValueError?
    ensures direction.Some? != targetLane.Some? ==> r.prevLastLc == Refresh(vehicles, prev, vehIds, 0).prevLastLc
    ensures direction.Some? != targetLane.Some? && lanes == 1 && Refresh(vehicles, prev, vehIds, 0).error.None? ==>
      r.commands == [] && r.outcome == SingleLane
  {
    if direction.Some? && targetLane.Some? then
      ErrLaneChange(prev, ValueError("Cannot provide both a direction and target_lane."))
    else if direction.None? && targetLane.None? then
      ErrLaneChange(prev, ValueError("A direction or target_lane must be specified."))
    else
      var rf := Refresh(vehicles, prev, vehIds, 0);
      if rf.error.Some? then ErrLaneChange(rf.prevLastLc, rf.error.value)
      else if lanes == 1 then LaneChange(rf.prevLastLc, [], SingleLane)
      else match vehicles.Numbers(vehIds, "lane")
        case Err(e) => ErrLaneChange(rf.prevLastLc, e)
        case Ok(current) =>
          match TargetLanes(current, direction, targetLane, lanes)
          case Err(e) => ErrLaneChange(rf.prevLastLc, e)
          case Ok(target) =>
            var sent := Issue(vehIds, vehicles.rlIds, target, current, 0);
            LaneChange(rf.prevLastLc, sent.commands, if sent.error.Some? then Raised(sent.error.value) else Applied)
  }

  /** A call that sent a command, or completed, went through the per-vehicle
      loop: it had exactly one of the two inputs, read every current lane and
      computed the target lanes, and its commands are the loop's. */
  lemma SentIsIssued(vehicles: Vehicles, prev: map<string, Value>, lanes: int, vehIds: seq<string>,
                     direction: Option<seq<real>>, targetLane: Option<seq<real>>)
    requires ApplyLaneChange(vehicles, prev, lanes, vehIds, direction, targetLane).commands != [] ||
             ApplyLaneChange(vehicles, prev, lanes, vehIds, direction, targetLane).outcome == Applied
    ensures direction.Some? != targetLane.Some? && lanes != 1
    ensures vehicles.Numbers(vehIds, "lane").Ok?
    ensures TargetLanes(vehicles.Numbers(vehIds, "lane").value, direction, targetLane, lanes).Ok?
    ensures ApplyLaneChange(vehicles, prev, lanes, vehIds, direction, targetLane).commands ==
      Issue(vehIds, vehicles.rlIds, TargetLanes(vehicles.Numbers(vehIds, "lane").value, direction, targetLane, lanes).value,
            vehicles.Numbers(vehIds, "lane").value, 0).commands
  {
  }

  /** A direction outside {-1, 0, 1} raises ValueError, and by then
      `prev_last_lc` holds the `last_lc` of every listed vehicle. */
  lemma BadDirectionRaisesAfterRefresh(vehicles: Vehicles, prev: map<string, Value>, lanes: int, vehIds: seq<string>,
                                      direction: seq<real>, k: nat)
    requires k < |direction| && Sign(direction[k]) != direction[k]
    requires lanes != 1
    requires forall j :: 0 <= j < |vehIds| ==> vehicles.Field(vehIds[j], "last_lc").Ok?
    requires vehicles.Numbers(vehIds, "lane").Ok?
    ensures var r := ApplyLaneChange(vehicles, prev, lanes, vehIds, Some(direction), None);
      && r.commands == []
      && r.outcome.Raised? && r.outcome.error.ValueError?
      && forall j :: 0 <= j < |vehIds| ==>
           vehIds[j] in r.prevLastLc && r.prevLastLc[vehIds[j]] == vehicles.Field(vehIds[j], "last_lc").value
  {
    var current := vehicles.Numbers(vehIds, "lane").value;
    var t := TargetLanes(current, Some(direction), None, lanes);
    assert t.Err?;
  }

  /** The commands of the per-vehicle loop, both ways: a vehicle the loop
      reaches gets a change command exactly when it is not an RL vehicle or
      its target differs from its current lane, and every command is such a
      vehicle's command towards its truncated target. */
  lemma {:induction false} IssueCommands(vehIds: seq<string>, rlIds: seq<string>, target: seq<real>, current: seq<real>, i: nat)
    requires i <= |vehIds| == |current|
    ensures var cs := Issue(vehIds, rlIds, target, current, i).commands;
      && (forall k :: i <= k < |vehIds| && k < |target| && (vehIds[k] !in rlIds || target[k] != current[k]) ==>
            ChangeLane(vehIds[k], Trunc(target[k]), LaneChangeMs) in cs)
      && (forall c :: c in cs ==> exists k :: (i <= k < |vehIds| && k < |target| &&
            (vehIds[k] !in rlIds || target[k] != current[k]) && c == ChangeLane(vehIds[k], Trunc(target[k]), LaneChangeMs)))
    decreases |vehIds| - i
  {
    if i < |vehIds| && i < |target| {
      IssueCommands(vehIds, rlIds, target, current, i + 1);
      var rest := Issue(vehIds, rlIds, target, current, i + 1).commands;
      var own := LaneCommand(vehIds[i], vehIds[i] in rlIds, target[i], current[i]);
      assert Issue(vehIds, rlIds, target, current, i).commands == own + rest;
      forall c | c in own + rest
        ensures exists k :: (i <= k < |vehIds| && k < |target| &&
          (vehIds[k] !in rlIds || target[k] != current[k]) && c == ChangeLane(vehIds[k], Trunc(target[k]), LaneChangeMs))
      {
        if c in own {
          assert c == ChangeLane(vehIds[i], Trunc(target[i]), LaneChangeMs);
        } else {
          assert c in rest;
        }
      }
    }
  }

  /** Every lane-change command names an existing lane, 0 to lanes - 1. */
  lemma {:induction false} CommandsNameExistingLanes(vehicles: Vehicles, prev: map<string, Value>, lanes: int, vehIds: seq<string>,
                                                    direction: Option<seq<real>>, targetLane: Option<seq<real>>)
    requires lanes >= 1
    ensures forall c :: c in ApplyLaneChange(vehicles, prev, lanes, vehIds, direction, targetLane).commands ==>
      c.ChangeLane? && 0 <= c.lane <= lanes - 1
  {
    var r := ApplyLaneChange(vehicles, prev, lanes, vehIds, direction, targetLane);
    if r.commands != [] {
      var current := vehicles.Numbers(vehIds, "lane").value;
      var target := TargetLanes(current, direction, targetLane, lanes).value;
      IssueCommands(vehIds, vehicles.rlIds, target, current, 0);
      forall c | c in r.commands ensures c.ChangeLane? && 0 <= c.lane <= lanes - 1 {
        var k :| 0 <= k < |vehIds| && k < |target| && c == ChangeLane(vehIds[k], Trunc(target[k]), LaneChangeMs);
        TruncBelowInteger(target[k], lanes - 1);
      }
    }
  }

  lemma TruncBelowInteger(x: real, n: int)
    requires 0.0 <= x <= n as real
    ensures 0 <= Trunc(x) <= n
  {
    assert Trunc(x) as real <= x;
  }

  // ---------------------------------------------------------------------
  // get_headway_dict
  // ---------------------------------------------------------------------

  /** The leader reading of one vehicle: the leader's id and the gap to it. */
  datatype Leader = Leader(id: string, gap: real)

  /** What the simulator reports about one vehicle after a step. */
  datatype Observation = Observation(lanePosition: real, roadId: string, laneIndex: int, speed: real, leader: Option<Leader>)

  /** A key of an inner dict of the headway table, present or absent. */
  datatype Slot<T> = Unset | Set(value: T)

  datatype Entry = Entry(leader: Slot<Option<string>>, follower: Slot<Option<string>>, headway: Slot<real>)

  const NoLeaderEntry: Entry := Entry(Set(None), Set(None), Set(NoLeaderHeadway))

  /** `dict.fromkeys(ids)` with an empty dict per id. */
  function EmptyTable(ids: seq<string>): (t: map<string, Entry>)
    ensures forall v :: v in t <==> v in ids
    ensures forall v :: v in t ==> t[v] == Entry(Unset, Unset, Unset)
  {
    if |ids| == 0 then map[] else EmptyTable(ids[..|ids| - 1])[ids[|ids| - 1] := Entry(Unset, Unset, Unset)]
  }

  /** One pass of the filling loop for vehicle v. */
  function FillOne(t: map<string, Entry>, v: string, obs: map<string, Observation>): map<string, Entry>
    requires v in t
  {
    if v !in obs || obs[v].leader.None? then t[v := NoLeaderEntry]
    else
      var l := obs[v].leader.value;
      var t1 := t[v := t[v].(headway := Set(l.gap), leader := Set(Some(l.id)))];
      if l.id in t1 then t1[l.id := t1[l.id].(follower := Set(Some(v)))]
      else t1[v := NoLeaderEntry]
  }

  /** The table after the filling loop has processed ids[..n]. */
  function Fill(ids: seq<string>, obs: map<string, Observation>, n: nat): (t: map<string, Entry>)
    requires n <= |ids|
    ensures forall v :: v in t <==> v in ids
  {
    if n == 0 then EmptyTable(ids)
    else
      assert ids[n - 1] in ids;
      FillOne(Fill(ids, obs, n - 1), ids[n - 1], obs)
  }

  /** One more pass of the filling loop. */
  lemma FillStep(ids: seq<string>, obs: map<string, Observation>, n: nat)
    requires n < |ids|
    ensures ids[n] in Fill(ids, obs, n)
    ensures Fill(ids, obs, n + 1) == FillOne(Fill(ids, obs, n), ids[n], obs)
  {
    assert ids[n] in ids;
  }

  /** The first loop of `get_headway_dict`: an empty dict per id. */
  method EmptyHeadways(ids: seq<string>) returns (table: map<string, Entry>)
    ensures table == EmptyTable(ids)
  {
    table := map[];
    var i := 0;
    while i < |ids|
      invariant 0 <= i <= |ids|
      invariant table == EmptyTable(ids[..i])
    {
      assert ids[..i + 1][..i] == ids[..i];
      table := table[ids[i] := Entry(Unset, Unset, Unset)];
      i := i + 1;
    }
    assert ids[..|ids|] == ids;
  }

  function HeadwayTable(ids: seq<string>, obs: map<string, Observation>): map<string, Entry> {
    Fill(ids, obs, |ids|)
  }

  /** The lookup `headway[0] in ids` that decides a usable leader reading. */
  predicate HasUsableLeader(v: string, ids: seq<string>, obs: map<string, Observation>) {
    v in obs && obs[v].leader.Some? && obs[v].leader.value.id in ids
  }

  /** A vehicle's leader and headway come from its own reading: the reported
      leader and gap when that leader is among the ids, and otherwise no
      leader and headway 1e-3. */
  lemma {:induction false} FillLeaderAndHeadway(ids: seq<string>, obs: map<string, Observation>, n: nat, v: string)
    requires n <= |ids| && v in ids[..n]
    ensures var e := Fill(ids, obs, n)[v];
      if HasUsableLeader(v, ids, obs)
      then e.leader == Set(Some(obs[v].leader.value.id)) && e.headway == Set(obs[v].leader.value.gap)
      else e.leader == Set(None) && e.headway == Set(NoLeaderHeadway)
  {
    var w := ids[n - 1];
    var prev := Fill(ids, obs, n - 1);
    if w != v {
      assert v in ids[..n - 1] by { assert ids[..n] == ids[..n - 1] + [w]; }
      FillLeaderAndHeadway(ids, obs, n - 1, v);
    }
  }

  /** A recorded follower is a vehicle whose own reading names v as leader. */
  lemma {:induction false} FillFollowerSound(ids: seq<string>, obs: map<string, Observation>, n: nat, v: string)
    requires n <= |ids| && v in ids
    ensures var e := Fill(ids, obs, n)[v];
      e.follower.Set? && e.follower.value.Some? ==>
        var w := e.follower.value.value;
        w in ids[..n] && w in obs && obs[w].leader.Some? && obs[w].leader.value.id == v
  {
    if n > 0 {
      FillFollowerSound(ids, obs, n - 1, v);
      assert ids[..n] == ids[..n - 1] + [ids[n - 1]];
    }
  }

  /** The table has one entry per id, and every entry has its leader and
      headway keys. */
  lemma HeadwayTableShape(ids: seq<string>, obs: map<string, Observation>)
    ensures forall v :: v in HeadwayTable(ids, obs) <==> v in ids
    ensures forall v :: v in ids ==> HeadwayTable(ids, obs)[v].leader.Set? && HeadwayTable(ids, obs)[v].headway.Set?
  {
    forall v | v in ids
      ensures HeadwayTable(ids, obs)[v].leader.Set? && HeadwayTable(ids, obs)[v].headway.Set?
    {
      assert ids[..|ids|] == ids;
      FillLeaderAndHeadway(ids, obs, |ids|, v);
    }
  }

  // ---------------------------------------------------------------------
  // The observation update of _step
  // ---------------------------------------------------------------------

  /** The fields `_step` reads from a record before overwriting it. */
  predicate Tracked(rec: Record) {
    && "edge" in rec && rec["edge"].Text?
    && "position" in rec && rec["position"].Num?
    && "lane" in rec
    && "absolute_position" in rec && rec["absolute_position"].Num?
  }

  predicate AllTracked(records: map<string, Record>, ids: seq<string>) {
    forall v :: v in ids ==> v in records && Tracked(records[v])
  }

  /** `get_x_by_id`: 0 on the empty edge a teleported vehicle reports, and
      otherwise the scenario's position of (edge, position). */
  function XOf(rec: Record, getX: (string, real) -> real): real
    requires Tracked(rec)
  {
    XAt(rec["edge"].s, rec["position"].x, getX)
  }

  function XAt(edge: string, position: real, getX: (string, real) -> real): real {
    if edge == "" then 0.0 else getX(edge, position)
  }

  /** The field names the observation update writes are pairwise distinct. */
  lemma FieldNamesDistinct()
    ensures "position" != "edge" && "position" != "lane" && "position" != "last_lc" && "position" != "speed"
    ensures "position" != "absolute_position" && "edge" != "lane" && "edge" != "last_lc" && "edge" != "speed"
    ensures "edge" != "absolute_position" && "lane" != "last_lc" && "lane" != "speed" && "lane" != "absolute_position"
    ensures "last_lc" != "speed" && "last_lc" != "absolute_position" && "speed" != "absolute_position"
    ensures "headway" != "leader" && "headway" != "follower" && "leader" != "follower"
    ensures "headway" != "edge" && "headway" != "position" && "headway" != "lane" && "headway" != "absolute_position"
    ensures "leader" != "edge" && "leader" != "position" && "leader" != "lane" && "leader" != "absolute_position"
    ensures "follower" != "edge" && "follower" != "position" && "follower" != "lane" && "follower" != "absolute_position"
  {
    assert "position"[0] != "follower"[0];
    assert "edge"[0] != "lane"[0];
    assert "last_lc"[0] != "headway"[0];
  }

  /** How far the absolute position moves for a change `change` of the
      one-dimensional position on a network of the given length. */
  function Advance(change: real, length: real): (r: real)
    ensures r == change || r == change + length
    ensures change < 0.0 ==> r == change + length
    ensures -length < change < length ==> 0.0 <= r < length
  {
    if change < 0.0 then change + length else change
  }

  /** The absolute position never decreases when both positions lie in
      [0, length): the step's advance is non-negative and below length. */
  lemma AdvanceOfPositions(prev: real, next: real, length: real)
    requires 0.0 <= prev < length && 0.0 <= next < length
    ensures 0.0 <= Advance(next - prev, length) < length
    ensures Advance(next - prev, length) == if next >= prev then next - prev else next - prev + length
  {
  }

  /** `last_lc` = timer when `changed` (an RL vehicle that changed lane). */
  function Marked(records: map<string, Record>, v: string, changed: bool, timer: int): map<string, Record> {
    if changed then Updated(records, v, "last_lc", Int(timer)) else records
  }

  /** The absolute position after the observation: the old one plus the
      change of `get_x_by_id`, wrapped by the network length. */
  function NewAbsolutePosition(rec: Record, o: Observation, length: real, getX: (string, real) -> real): real
    requires Tracked(rec)
  {
    rec["absolute_position"].x + Advance(XAt(o.roadId, o.lanePosition, getX) - XOf(rec, getX), length)
  }

  /** The observed vehicle's record after `_step`'s setter calls: position,
      edge and lane take the observed values, `last_lc` becomes the timer
      when `changed`, then speed and absolute position are set. */
  function ObservedRecord(rec: Record, o: Observation, changed: bool, timer: int, absolute: real): Record {
    var placed := rec["position" := Num(o.lanePosition)]["edge" := Text(o.roadId)]["lane" := Int(o.laneIndex)];
    var marked := if changed then placed["last_lc" := Int(timer)] else placed;
    marked["speed" := Num(o.speed)]["absolute_position" := Num(absolute)]
  }

  /** The registry after one observed vehicle: only its record changes; an
      RL vehicle that changed lane gets `last_lc` = timer, and the absolute
      position advances by the change of `get_x_by_id`. */
  function Observe(records: map<string, Record>, v: string, o: Observation, isRl: bool, timer: int,
                   length: real, getX: (string, real) -> real): map<string, Record>
    requires v in records && Tracked(records[v])
  {
    var rec := records[v];
    records[v := ObservedRecord(rec, o, Int(o.laneIndex) != rec["lane"] && isRl, timer, NewAbsolutePosition(rec, o, length, getX))]
  }

  /** Setting a field of a record just replaced amends the replacement. */
  lemma UpdatedAgain(records: map<string, Record>, v: string, rec: Record, name: string, value: Value)
    ensures Updated(records[v := rec], v, name, value) == records[v := rec[name := value]]
  {
  }

  /** The setter calls of `_step`, one after the other, produce that record. */
  lemma ObserveBySetters(records: map<string, Record>, v: string, o: Observation, changed: bool, timer: int, absolute: real)
    requires v in records
    ensures Updated(Updated(Marked(Updated(Updated(Updated(records, v, "position", Num(o.lanePosition)),
                                                   v, "edge", Text(o.roadId)), v, "lane", Int(o.laneIndex)), v, changed, timer),
                            v, "speed", Num(o.speed)), v, "absolute_position", Num(absolute))
            == records[v := ObservedRecord(records[v], o, changed, timer, absolute)]
  {
    var rec := records[v];
    var p1 := rec["position" := Num(o.lanePosition)];
    var p2 := p1["edge" := Text(o.roadId)];
    var p3 := p2["lane" := Int(o.laneIndex)];
    var p4 := if changed then p3["last_lc" := Int(timer)] else p3;
    var p5 := p4["speed" := Num(o.speed)];
    var r1 := Updated(records, v, "position", Num(o.lanePosition));
    assert r1 == records[v := p1];
    UpdatedAgain(records, v, p1, "edge", Text(o.roadId));
    var r2 := Updated(r1, v, "edge", Text(o.roadId));
    UpdatedAgain(records, v, p2, "lane", Int(o.laneIndex));
    var r3 := Updated(r2, v, "lane", Int(o.laneIndex));
    UpdatedAgain(records, v, p3, "last_lc", Int(timer));
    var r4 := Marked(r3, v, changed, timer);
    assert r4 == records[v := p4];
    UpdatedAgain(records, v, p4, "speed", Num(o.speed));
    UpdatedAgain(records, v, p5, "absolute_position", Num(absolute));
  }

  /** What one observation does to the registry: the observed vehicle keeps
      the fields `_step` reads, takes the observed position, edge, lane and
      speed, records the timer as `last_lc` when an RL vehicle changed lane,
      and its absolute position advances by the change of `get_x_by_id`,
      plus the network length when that change is negative. */
  lemma ObserveEffect(records: map<string, Record>, v: string, o: Observation, isRl: bool, timer: int,
                      length: real, getX: (string, real) -> real)
    requires v in records && Tracked(records[v])
    ensures var r := Observe(records, v, o, isRl, timer, length, getX);
      && Tracked(r[v])
      && r[v]["position"] == Num(o.lanePosition) && r[v]["edge"] == Text(o.roadId) && r[v]["lane"] == Int(o.laneIndex)
      && "speed" in r[v] && r[v]["speed"] == Num(o.speed)
      && (isRl && Int(o.laneIndex) != records[v]["lane"] ==> "last_lc" in r[v] && r[v]["last_lc"] == Int(timer))
      && r[v]["absolute_position"].x ==
           records[v]["absolute_position"].x + Advance(XOf(r[v], getX) - XOf(records[v], getX), length)
  {
    FieldNamesDistinct();
  }

  /** The record after one entry of the headway table is copied into it; a
      missing key falls back to no leader and headway 1e-3. */
  function EntryRecord(rec: Record, e: Entry): Record {
    if e.headway.Set? && e.leader.Set? && e.follower.Set? then
      rec["headway" := Num(e.headway.value)]["leader" := OptionalId(e.leader.value)]["follower" := OptionalId(e.follower.value)]
    else
      rec["headway" := Num(NoLeaderHeadway)]["leader" := Nothing]["follower" := Nothing]
  }

  /** The registry after one entry of the headway table is copied into it. */
  function ApplyEntry(records: map<string, Record>, v: string, e: Entry): map<string, Record> {
    if v in records then records[v := EntryRecord(records[v], e)] else records
  }

  /** The three setter calls of the copy produce that registry. */
  lemma EntryBySetters(records: map<string, Record>, v: string, headway: real, leader: Value, follower: Value)
    ensures Updated(Updated(Updated(records, v, "headway", Num(headway)), v, "leader", leader), v, "follower", follower)
            == if v in records then records[v := records[v]["headway" := Num(headway)]["leader" := leader]["follower" := follower]]
               else records
  {
  }

  /** Copying an entry leaves the fields `_step` reads untouched. */
  lemma ApplyEntryKeepsTracked(records: map<string, Record>, v: string, e: Entry, w: string)
    requires w in records && Tracked(records[w])
    ensures Tracked(ApplyEntry(records, v, e)[w])
  {
  }

  /** The inner loop of `_step` over ids[..n], copying the table into the registry. */
  function ApplyTable(records: map<string, Record>, ids: seq<string>, table: map<string, Entry>, n: nat): (r: map<string, Record>)
    requires n <= |ids|
    requires forall k :: 0 <= k < n ==> ids[k] in table
    ensures r.Keys == records.Keys
  {
    if n == 0 then records
    else ApplyEntry(ApplyTable(records, ids, table, n - 1), ids[n - 1], table[ids[n - 1]])
  }

  lemma {:induction false} ApplyTableKeepsTracked(records: map<string, Record>, ids: seq<string>, table: map<string, Entry>, n: nat,
                                                 tracked: seq<string>)
    requires n <= |ids|
    requires forall k :: 0 <= k < n ==> ids[k] in table
    requires AllTracked(records, tracked)
    ensures AllTracked(ApplyTable(records, ids, table, n), tracked)
  {
    if n > 0 {
      ApplyTableKeepsTracked(records, ids, table, n - 1, tracked);
      forall w | w in tracked ensures Tracked(ApplyTable(records, ids, table, n)[w]) {
        ApplyEntryKeepsTracked(ApplyTable(records, ids, table, n - 1), ids[n - 1], table[ids[n - 1]], w);
      }
    }
  }

  /** One pass of the outer loop of `_step` for vehicle v: a vehicle without
      an observation is skipped; an observed one is updated and then the
      whole headway table is copied into the registry. */
  function StepOne(prev: map<string, Record>, v: string, ids: seq<string>, obs: map<string, Observation>,
                   table: map<string, Entry>, rlIds: seq<string>, timer: int, length: real,
                   getX: (string, real) -> real): map<string, Record>
    requires forall k :: 0 <= k < |ids| ==> ids[k] in table
  {
    if v !in obs || v !in prev || !Tracked(prev[v]) then prev
    else ApplyTable(Observe(prev, v, obs[v], v in rlIds, timer, length, getX), ids, table, |ids|)
  }

  /** The outer loop of `_step` over ids[..n]. */
  function StepRecords(records: map<string, Record>, ids: seq<string>, obs: map<string, Observation>,
                       table: map<string, Entry>, rlIds: seq<string>, timer: int, length: real,
                       getX: (string, real) -> real, n: nat): map<string, Record>
    requires n <= |ids| && forall k :: 0 <= k < |ids| ==> ids[k] in table
  {
    if n == 0 then records
    else
      StepOne(StepRecords(records, ids, obs, table, rlIds, timer, length, getX, n - 1), ids[n - 1],
              ids, obs, table, rlIds, timer, length, getX)
  }

  /** The step keeps every record and every field the step reads. */
  lemma {:induction false} StepRecordsKeepsTracked(records: map<string, Record>, ids: seq<string>, obs: map<string, Observation>,
                                                  table: map<string, Entry>, rlIds: seq<string>, timer: int, length: real,
                                                  getX: (string, real) -> real, n: nat)
    requires n <= |ids| && forall k :: 0 <= k < |ids| ==> ids[k] in table
    requires AllTracked(records, ids)
    ensures var r := StepRecords(records, ids, obs, table, rlIds, timer, length, getX, n);
      r.Keys == records.Keys && AllTracked(r, ids)
  {
    if n > 0 {
      StepRecordsKeepsTracked(records, ids, obs, table, rlIds, timer, length, getX, n - 1);
      var prev := StepRecords(records, ids, obs, table, rlIds, timer, length, getX, n - 1);
      var v := ids[n - 1];
      assert v in ids;
      if v in obs {
        var observed := Observe(prev, v, obs[v], v in rlIds, timer, length, getX);
        ObserveEffect(prev, v, obs[v], v in rlIds, timer, length, getX);
        assert AllTracked(observed, ids) by {
          forall w | w in ids ensures w in observed && Tracked(observed[w]) {
            if w != v { assert observed[w] == prev[w]; }
          }
        }
        ApplyTableKeepsTracked(observed, ids, table, |ids|, ids);
      }
    }
  }

  /** The fields `_step` reads are present at any vehicle of the list. */
  lemma StepRecordsTrackedAt(records: map<string, Record>, ids: seq<string>, obs: map<string, Observation>,
                              table: map<string, Entry>, rlIds: seq<string>, timer: int, length: real,
                              getX: (string, real) -> real, n: nat, w: string)
    requires n <= |ids| && (forall k :: 0 <= k < |ids| ==> ids[k] in table) && w in ids
    requires AllTracked(records, ids)
    ensures var r := StepRecords(records, ids, obs, table, rlIds, timer, length, getX, n);
      w in r && Tracked(r[w])
  {
    StepRecordsKeepsTracked(records, ids, obs, table, rlIds, timer, length, getX, n);
  }

  /** The crash flag after ids[..n]: raised by an observed vehicle with a
      negative position or a negative speed. */
  predicate Crashed(ids: seq<string>, obs: map<string, Observation>, n: nat)
    requires n <= |ids|
  {
    n > 0 && (Crashed(ids, obs, n - 1) || CrashesOn(ids[n - 1], obs))
  }

  /** The crash test of one observed vehicle: a negative position or speed. */
  predicate CrashesOn(v: string, obs: map<string, Observation>) {
    v in obs && (obs[v].lanePosition < 0.0 || obs[v].speed < 0.0)
  }

  /** The crash flag is raised exactly when some observed vehicle among the
      first n reports a negative position or speed. */
  lemma {:induction false} CrashedIff(ids: seq<string>, obs: map<string, Observation>, n: nat)
    requires n <= |ids|
    ensures Crashed(ids, obs, n) <==>
      exists k :: 0 <= k < n && ids[k] in obs && (obs[ids[k]].lanePosition < 0.0 || obs[ids[k]].speed < 0.0)
  {
    if n > 0 {
      CrashedIff(ids, obs, n - 1);
    }
  }

  /** Every tracked vehicle has a numeric absolute position. */
  lemma TrackedPositions(vehicles: Vehicles)
    requires AllTracked(vehicles.records, vehicles.ids)
    ensures vehicles.Numbers(vehicles.ids, "absolute_position").Ok?
  {
    forall k | 0 <= k < |vehicles.ids| ensures vehicles.Number(vehicles.ids[k], "absolute_position").Ok? {
      assert vehicles.ids[k] in vehicles.ids;
    }
  }

  // ---------------------------------------------------------------------
  // sort_by_position
  // ---------------------------------------------------------------------

  function PositionKey(vehicles: Vehicles): (key: map<string, real>)
    reads vehicles
    requires vehicles.Numbers(vehicles.ids, "absolute_position").Ok?
    ensures forall v :: v in vehicles.ids ==> v in key && key[v] == vehicles.Number(v, "absolute_position").value
  {
    map v | v in vehicles.ids :: vehicles.Number(v, "absolute_position").value
  }

  /** `sort_by_position`: the ids ordered by absolute position, or the error
      of a vehicle whose absolute position is missing or not a number. */
  function SortByPosition(vehicles: Vehicles): (r: Result<seq<string>>)
    reads vehicles
    ensures r.Ok? <==> vehicles.Numbers(vehicles.ids, "absolute_position").Ok?
  {
    if vehicles.Numbers(vehicles.ids, "absolute_position").Err? then Err(vehicles.Numbers(vehicles.ids, "absolute_position").error)
    else Ok(Sorting.SortByKey(vehicles.ids, PositionKey(vehicles)))
  }

  /** The sorted ids are a permutation of the ids, in non-decreasing order
      of absolute position. */
  lemma SortByPositionSorts(vehicles: Vehicles)
    requires vehicles.Numbers(vehicles.ids, "absolute_position").Ok?
    ensures var r := SortByPosition(vehicles).value;
      && multiset(r) == multiset(vehicles.ids)
      && forall a, b :: 0 <= a < b < |r| ==>
           vehicles.Number(r[a], "absolute_position").Ok? && vehicles.Number(r[b], "absolute_position").Ok? &&
           vehicles.Number(r[a], "absolute_position").value <= vehicles.Number(r[b], "absolute_position").value
  {
    var key := PositionKey(vehicles);
    var r := Sorting.SortByKey(vehicles.ids, key);
    assert forall k :: 0 <= k < |r| ==> r[k] in multiset(vehicles.ids);
  }

  // ---------------------------------------------------------------------
  // The environment
  // ---------------------------------------------------------------------

  /** The base environment's own state. Its id lists are the registry's
      lists themselves (`get_ids` returns the list object), so they are read
      through `vehicles`. */
  class Env {
    const vehicles: Vehicles
    const timeStep: real
    const lanes: int
    const length: real
    var timer: int
    var prevLastLc: map<string, Value>
    var sortedIds: seq<string>

    constructor (vehicles: Vehicles, timeStep: real, lanes: int, length: real)
      ensures this.vehicles == vehicles && this.timeStep == timeStep && this.lanes == lanes && this.length == length
      ensures timer == 0 && prevLastLc == map[] && sortedIds == []
    {
      this.vehicles := vehicles;
      this.timeStep := timeStep;
      this.lanes := lanes;
      this.length := length;
      timer := 0;
      prevLastLc := map[];
      sortedIds := [];
    }

    /** The timer is set back to 0 on reset. */
    method ResetTimer()
      modifies this
      ensures timer == 0
      ensures prevLastLc == old(prevLastLc) && sortedIds == old(sortedIds)
    {
      timer := 0;
    }

    /** `apply_acceleration` without a failsafe. */
    method ApplyAcceleration(vehIds: seq<string>, acc: seq<real>) returns (r: Result<seq<Command>>)
      ensures r == Accelerate(vehicles, vehIds, acc, timeStep)
    {
      var err := CheckControllers(vehIds, |acc|);
      if err.Some? {
        return Err(err.value);
      }
      var speeds := vehicles.Numbers(vehIds, "speed");
      if speeds.Err? {
        return Err(speeds.error);
      }
      if BroadcastLength(|speeds.value|, |acc|).None? {
        return Err(ValueError("operands could not be broadcast together"));
      }
      var commands := SlowDownCommands(vehIds, speeds.value, acc, timeStep);
      return Ok(commands);
    }

    /** The controller loop of `apply_acceleration`. */
    method CheckControllers(vehIds: seq<string>, accCount: nat) returns (err: Option<Error>)
      ensures err == ControllerCheck(vehicles, vehIds, accCount, 0)
    {
      var i := 0;
      while i < |vehIds|
        invariant 0 <= i <= |vehIds|
        invariant i <= accCount
        invariant ControllerCheck(vehicles, vehIds, accCount, 0) == ControllerCheck(vehicles, vehIds, accCount, i)
      {
        var c := vehicles.Field(vehIds[i], "acc_controller");
        if c.Err? {
          return Some(c.error);
        }
        if i >= accCount {
          return Some(IndexError);
        }
        i := i + 1;
      }
      return None;
    }

    /** `apply_lane_change`: refreshes `prev_last_lc` and returns the commands
        sent together with how the call ended (returning -1 on a single-lane
        network is the SingleLane outcome). */
    method LaneChangeStep(vehIds: seq<string>, direction: Option<seq<real>>, targetLane: Option<seq<real>>)
      returns (commands: seq<Command>, outcome: LaneChangeOutcome)
      modifies this
      ensures var r := ApplyLaneChange(vehicles, old(prevLastLc), lanes, vehIds, direction, targetLane);
        prevLastLc == r.prevLastLc && commands == r.commands && outcome == r.outcome
      ensures timer == old(timer) && sortedIds == old(sortedIds)
    {
      if direction.Some? && targetLane.Some? {
        return [], Raised(ValueError("Cannot provide both a direction and target_lane."));
      } else if direction.None? && targetLane.None? {
        return [], Raised(ValueError("A direction or target_lane must be specified."));
      }
      var err := RefreshLastLc(vehIds);
      if err.Some? {
        return [], Raised(err.value);
      }
      if lanes == 1 {
        return [], SingleLane;
      }
      var current := vehicles.Numbers(vehIds, "lane");
      if current.Err? {
        return [], Raised(current.error);
      }
      var target := TargetLanes(current.value, direction, targetLane, lanes);
      if target.Err? {
        return [], Raised(target.error);
      }
      var issueErr;
      commands, issueErr := IssueLaneChanges(vehIds, vehicles.rlIds, target.value, current.value);
      outcome := if issueErr.Some? then Raised(issueErr.value) else Applied;
    }

    /** The refresh loop of `apply_lane_change`. */
    method RefreshLastLc(vehIds: seq<string>) returns (err: Option<Error>)
      modifies this
      ensures var r := Refresh(vehicles, old(prevLastLc), vehIds, 0);
        prevLastLc == r.prevLastLc && err == r.error
      ensures timer == old(timer) && sortedIds == old(sortedIds)
    {
      var i := 0;
      while i < |vehIds|
        invariant 0 <= i <= |vehIds|
        invariant Refresh(vehicles, old(prevLastLc), vehIds, 0) == Refresh(vehicles, prevLastLc, vehIds, i)
        invariant timer == old(timer) && sortedIds == old(sortedIds)
      {
        var x := vehicles.Field(vehIds[i], "last_lc");
        if x.Err? {
          return Some(x.error);
        }
        prevLastLc := prevLastLc[vehIds[i] := x.value];
        i := i + 1;
      }
      return None;
    }

    /** `get_headway_dict`. */
    method GetHeadwayDict(obs: map<string, Observation>) returns (table: map<string, Entry>)
      ensures table == HeadwayTable(vehicles.ids, obs)
    {
      var ids := vehicles.ids;
      table := EmptyHeadways(ids);
      var i := 0;
      while i < |ids|
        invariant 0 <= i <= |ids|
        invariant table == Fill(ids, obs, i)
      {
        var v := ids[i];
        FillStep(ids, obs, i);
        ghost var expected := FillOne(table, v, obs);
        if v !in obs || obs[v].leader.None? {
          table := table[v := NoLeaderEntry];
        } else {
          var l := obs[v].leader.value;
          table := table[v := table[v].(headway := Set(l.gap), leader := Set(Some(l.id)))];
          if l.id in table {
            table := table[l.id := table[l.id].(follower := Set(Some(v)))];
          } else {
            table := table[v := NoLeaderEntry];
          }
        }
        assert table == expected;
        i := i + 1;
      }
    }

    /** The observation part of `_step` for one vehicle, through the
        registry's setters. */
    method ObserveVehicle(v: string, o: Observation, getX: (string, real) -> real)
      requires v in vehicles.records && Tracked(vehicles.records[v])
      modifies vehicles`records
      ensures vehicles.records == Observe(old(vehicles.records), v, o, v in vehicles.rlIds, timer, length, getX)
    {
      var rec := vehicles.records[v];
      var prevLane := rec["lane"];
      // get_x_by_id after the setters reads back the edge and position of o,
      // so the new absolute position depends only on rec and o
      var absolute := NewAbsolutePosition(rec, o, length, getX);
      var changed := Int(o.laneIndex) != prevLane && v in vehicles.rlIds;
      var e := vehicles.SetPosition(v, o.lanePosition);
      e := vehicles.SetEdge(v, o.roadId);
      e := vehicles.SetLane(v, o.laneIndex);
      MarkLaneChange(v, changed);
      e := vehicles.SetSpeed(v, o.speed);
      e := vehicles.SetAbsolutePosition(v, absolute);
      ObserveBySetters(old(vehicles.records), v, o, changed, timer, absolute);
    }

    /** `last_lc` = timer for an RL vehicle whose lane changed. */
    method MarkLaneChange(v: string, changed: bool)
      modifies vehicles`records
      ensures vehicles.records == Marked(old(vehicles.records), v, changed, timer)
    {
      if changed {
        var e := vehicles.SetState(v, "last_lc", Int(timer));
      }
    }

    /** One entry of the headway table copied into the registry. */
    method CopyEntry(v: string, d: Entry)
      modifies vehicles`records
      ensures vehicles.records == ApplyEntry(old(vehicles.records), v, d)
    {
      var e;
      if d.headway.Set? && d.leader.Set? && d.follower.Set? {
        e := vehicles.SetHeadway(v, d.headway.value);
        e := vehicles.SetLeader(v, d.leader.value);
        e := vehicles.SetFollower(v, d.follower.value);
        EntryBySetters(old(vehicles.records), v, d.headway.value, OptionalId(d.leader.value), OptionalId(d.follower.value));
      } else {
        e := vehicles.SetHeadway(v, NoLeaderHeadway);
        e := vehicles.SetLeader(v, None);
        e := vehicles.SetFollower(v, None);
        EntryBySetters(old(vehicles.records), v, NoLeaderHeadway, Nothing, Nothing);
      }
    }

    /** The inner loop of `_step`: the headway table copied into the registry. */
    method CopyHeadways(table: map<string, Entry>)
      requires forall k :: 0 <= k < |vehicles.ids| ==> vehicles.ids[k] in table
      modifies vehicles`records
      ensures vehicles.records == ApplyTable(old(vehicles.records), vehicles.ids, table, |vehicles.ids|)
    {
      var ids := vehicles.ids;
      var i := 0;
      while i < |ids|
        invariant 0 <= i <= |ids|
        invariant vehicles.records == ApplyTable(old(vehicles.records), ids, table, i)
      {
        CopyEntry(ids[i], table[ids[i]]);
        i := i + 1;
      }
    }

    /** One step's bookkeeping: the timer advances, every observed vehicle is
        updated with the headway table copied after each, the observation
        part of the crash flag is computed (the teleport counts `_step` ORs
        in afterwards are simulator readings), and the ids are sorted by
        absolute position; only the records of the registry change, and no
        vehicle is added or removed. */
    method Step(obs: map<string, Observation>, getX: (string, real) -> real) returns (crash: bool)
      requires vehicles.Valid() && AllTracked(vehicles.records, vehicles.ids)
      modifies this, vehicles`records
      ensures vehicles.Valid() && AllTracked(vehicles.records, vehicles.ids)
      ensures timer == old(timer) + 1
      ensures vehicles.records ==
        StepRecords(old(vehicles.records), vehicles.ids, obs, HeadwayTable(vehicles.ids, obs), vehicles.rlIds, timer, length, getX,
                    |vehicles.ids|)
      ensures crash == Crashed(vehicles.ids, obs, |vehicles.ids|)
      ensures SortByPosition(vehicles).Ok? && sortedIds == SortByPosition(vehicles).value
      ensures prevLastLc == old(prevLastLc)
    {
      timer := timer + 1;
      crash := ObserveAll(obs, getX);
      TrackedPositions(vehicles);
      SortIds();
    }

    /** `sorted_ids` after a step: the ids ordered by absolute position. */
    method SortIds()
      requires vehicles.Numbers(vehicles.ids, "absolute_position").Ok?
      modifies this
      ensures SortByPosition(vehicles).Ok? && sortedIds == SortByPosition(vehicles).value
      ensures timer == old(timer) && prevLastLc == old(prevLastLc)
    {
      var sorted := SortByPosition(vehicles);
      sortedIds := sorted.value;
    }

    /** The observation loop of `_step`. */
    method ObserveAll(obs: map<string, Observation>, getX: (string, real) -> real) returns (crash: bool)
      requires AllTracked(vehicles.records, vehicles.ids)
      modifies vehicles`records
      ensures vehicles.records.Keys == old(vehicles.records.Keys) && AllTracked(vehicles.records, vehicles.ids)
      ensures crash == Crashed(vehicles.ids, obs, |vehicles.ids|)
      ensures vehicles.records ==
        StepRecords(old(vehicles.records), vehicles.ids, obs, HeadwayTable(vehicles.ids, obs), vehicles.rlIds, timer, length, getX,
                    |vehicles.ids|)
    {
      var ids := vehicles.ids;
      ghost var rl := vehicles.rlIds;
      ghost var table := HeadwayTable(ids, obs);
      ghost var start := vehicles.records;
      HeadwayTableShape(ids, obs);
      crash := false;
      var i := 0;
      while i < |ids|
        invariant 0 <= i <= |ids|
        invariant vehicles.records == StepRecords(start, ids, obs, table, rl, timer, length, getX, i)
        invariant crash == Crashed(ids, obs, i)
      {
        StepRecordsTrackedAt(start, ids, obs, table, rl, timer, length, getX, i, ids[i]);
        var crashed := ObserveAndCopy(ids[i], obs, getX, ids, table, rl, timer);
        crash := crash || crashed;
        i := i + 1;
      }
      StepRecordsKeepsTracked(start, ids, obs, table, rl, timer, length, getX, |ids|);
    }

    /** One pass of the outer loop of `_step`. */
    method ObserveAndCopy(v: string, obs: map<string, Observation>, getX: (string, real) -> real,
                          ghost ids: seq<string>, ghost table: map<string, Entry>, ghost rl: seq<string>, ghost t: int)
      returns (crashed: bool)
      requires ids == vehicles.ids && table == HeadwayTable(ids, obs) && rl == vehicles.rlIds && t == timer
      requires v in vehicles.records && Tracked(vehicles.records[v])
      requires forall k :: 0 <= k < |ids| ==> ids[k] in table
      modifies vehicles`records
      ensures vehicles.records ==
        StepOne(old(vehicles.records), v, ids, obs, table, rl, t, length, getX)
      ensures crashed == CrashesOn(v, obs)
    {
      if v in obs {
        ObserveVehicle(v, obs[v], getX);
        var table := GetHeadwayDict(obs);
        crashed := obs[v].lanePosition < 0.0 || obs[v].speed < 0.0;
        CopyHeadways(table);
      } else {
        crashed := false;
      }
    }
  }
}
