/** The lane-changing environments. The RL action vector alternates an
    acceleration and a lane-change direction per RL vehicle, in the order the
    RL vehicles appear in `sorted_ids`. The direction is rounded, and
    vehicles still inside their lane-change cooldown have it forced to 0.
    The reward takes 1 off for each RL vehicle that changed lanes this
    step. The state has three columns per vehicle. In the lane-change-only
    variant the accelerations come from a car-following controller and the
    lane change is applied first. */
module LaneChanging {
  import opened Common
  import opened Registry
  import opened BaseEnv

  // ---------------------------------------------------------------------
  // The RL vehicles in observation order, and the action vector
  // ---------------------------------------------------------------------

  /** The RL vehicles in the order of `sorted_ids`. */
  function SortedRlIds(sortedIds: seq<string>, rlIds: seq<string>): (r: seq<string>)
    ensures forall v :: v in r <==> v in sortedIds && v in rlIds
    ensures |r| <= |sortedIds|
  {
    if |sortedIds| == 0 then []
    else
      var last := sortedIds[|sortedIds| - 1];
      assert sortedIds == sortedIds[..|sortedIds| - 1] + [last];
      SortedRlIds(sortedIds[..|sortedIds| - 1], rlIds) + if last in rlIds then [last] else []
  }

  /** Where each entry of SortedRlIds sits in `sorted_ids`. */
  function RlPositions(sortedIds: seq<string>, rlIds: seq<string>): (idx: seq<nat>)
    ensures |idx| <= |sortedIds|
    decreases |sortedIds|
  {
    if |sortedIds| == 0 then []
    else
      var n := |sortedIds| - 1;
      RlPositions(sortedIds[..n], rlIds) + if sortedIds[n] in rlIds then [n] else []
  }

  /** The positions of the RL vehicles lie in `sorted_ids` and strictly
      increase. */
  lemma {:induction false} RlPositionsIncrease(sortedIds: seq<string>, rlIds: seq<string>)
    ensures forall a :: 0 <= a < |RlPositions(sortedIds, rlIds)| ==> RlPositions(sortedIds, rlIds)[a] < |sortedIds|
    ensures forall a, b :: 0 <= a < b < |RlPositions(sortedIds, rlIds)| ==> RlPositions(sortedIds, rlIds)[a] < RlPositions(sortedIds, rlIds)[b]
    decreases |sortedIds|
  {
    if |sortedIds| > 0 {
      var n := |sortedIds| - 1;
      var init := sortedIds[..n];
      RlPositionsIncrease(init, rlIds);
      var idx0 := RlPositions(init, rlIds);
      if sortedIds[n] in rlIds {
        var idx := idx0 + [n];
        assert RlPositions(sortedIds, rlIds) == idx;
        assert forall a :: 0 <= a < |idx0| ==> idx[a] == idx0[a];
      } else {
        assert RlPositions(sortedIds, rlIds) == idx0;
      }
    }
  }

  /** SortedRlIds picks `sorted_ids` at those positions, so it is the
      order-preserving subsequence of the RL vehicles. */
  lemma {:induction false} RlPositionsPick(sortedIds: seq<string>, rlIds: seq<string>)
    ensures |RlPositions(sortedIds, rlIds)| == |SortedRlIds(sortedIds, rlIds)|
    ensures forall a :: 0 <= a < |RlPositions(sortedIds, rlIds)| ==>
      RlPositions(sortedIds, rlIds)[a] < |sortedIds| && SortedRlIds(sortedIds, rlIds)[a] == sortedIds[RlPositions(sortedIds, rlIds)[a]]
    decreases |sortedIds|
  {
    if |sortedIds| > 0 {
      var n := |sortedIds| - 1;
      var init := sortedIds[..n];
      RlPositionsPick(init, rlIds);
      var idx0 := RlPositions(init, rlIds);
      var r0 := SortedRlIds(init, rlIds);
      assert forall i :: 0 <= i < n ==> init[i] == sortedIds[i];
      if sortedIds[n] in rlIds {
        var idx := idx0 + [n];
        var r := r0 + [sortedIds[n]];
        assert RlPositions(sortedIds, rlIds) == idx;
        assert SortedRlIds(sortedIds, rlIds) == r;
        assert forall a :: 0 <= a < |idx0| ==> idx[a] == idx0[a] && r[a] == r0[a];
      } else {
        assert RlPositions(sortedIds, rlIds) == idx0;
        assert SortedRlIds(sortedIds, rlIds) == r0;
      }
    }
  }

  /** Every position of `sorted_ids` that holds an RL vehicle is among the
      positions. */
  lemma {:induction false} RlPositionsCover(sortedIds: seq<string>, rlIds: seq<string>)
    ensures forall i :: 0 <= i < |sortedIds| && sortedIds[i] in rlIds ==> i in RlPositions(sortedIds, rlIds)
    decreases |sortedIds|
  {
    if |sortedIds| > 0 {
      var n := |sortedIds| - 1;
      var init := sortedIds[..n];
      RlPositionsCover(init, rlIds);
      var idx0 := RlPositions(init, rlIds);
      assert forall i :: 0 <= i < n ==> init[i] == sortedIds[i];
      if sortedIds[n] in rlIds {
        assert RlPositions(sortedIds, rlIds) == idx0 + [n];
      } else {
        assert RlPositions(sortedIds, rlIds) == idx0;
      }
    }
  }

  /** `np.round(actions[1::2])`: one lane-change direction per RL vehicle,
      rounded half to even. */
  function Directions(actions: seq<real>): (d: seq<real>)
    ensures |d| == |actions| / 2
    ensures forall i :: 0 <= i < |d| ==> d[i] == Round(actions[2 * i + 1]) as real
  {
    var odd := Odds(actions);
    seq(|odd|, i requires 0 <= i < |odd| => Round(odd[i]) as real)
  }

  /** The low and high corners of a gym Box action space. */
  datatype Box = Box(low: seq<real>, high: seq<real>)

  predicate InBox(b: Box, actions: seq<real>) {
    && |actions| == |b.low| == |b.high|
    && forall i :: 0 <= i < |actions| ==> b.low[i] <= actions[i] <= b.high[i]
  }

  /** The action space of the acceleration-and-lane-change environments:
      for each RL vehicle an acceleration in [-|max_deacc|, max_acc] and a
      direction in [-1, 1]. */
  function ActionBounds(maxDeacc: real, maxAcc: real, numRl: nat): (b: Box)
    ensures |b.low| == |b.high| == 2 * numRl
    ensures forall i :: 0 <= i < numRl ==>
      && b.low[2 * i] == -Abs(maxDeacc) && b.high[2 * i] == maxAcc
      && b.low[2 * i + 1] == -1.0 && b.high[2 * i + 1] == 1.0
  {
    Box(seq(2 * numRl, j => if j % 2 == 0 then -Abs(maxDeacc) else -1.0),
        seq(2 * numRl, j => if j % 2 == 0 then maxAcc else 1.0))
  }

  /** Rounding a value of [-1, 1] gives -1, 0 or 1. */
  lemma RoundInUnit(x: real)
    requires -1.0 <= x <= 1.0
    ensures Round(x) == -1 || Round(x) == 0 || Round(x) == 1
  {
    assert Abs(x - Round(x) as real) <= 0.5;
  }

  /** An action of the action space splits into one acceleration within its
      bounds per RL vehicle and one direction of -1, 0 or 1, so the
      direction check of `apply_lane_change` never fires on it. */
  lemma ActionsInBoxDecode(maxDeacc: real, maxAcc: real, numRl: nat, actions: seq<real>)
    requires InBox(ActionBounds(maxDeacc, maxAcc, numRl), actions)
    ensures |Evens(actions)| == |Directions(actions)| == numRl
    ensures forall i :: 0 <= i < numRl ==> -Abs(maxDeacc) <= Evens(actions)[i] <= maxAcc
    ensures forall i :: 0 <= i < numRl ==> Sign(Directions(actions)[i]) == Directions(actions)[i]
  {
    var b := ActionBounds(maxDeacc, maxAcc, numRl);
    forall i | 0 <= i < numRl
      ensures -Abs(maxDeacc) <= Evens(actions)[i] <= maxAcc
      ensures Sign(Directions(actions)[i]) == Directions(actions)[i]
    {
      assert b.low[2 * i] <= actions[2 * i] <= b.high[2 * i];
      assert b.low[2 * i + 1] <= actions[2 * i + 1] <= b.high[2 * i + 1];
      RoundInUnit(actions[2 * i + 1]);
    }
  }

  /** The action space of the lane-change-only environment: one direction in
      [-1, 1] per RL vehicle. */
  function DirectionBounds(numRl: nat): (b: Box)
    ensures |b.low| == |b.high| == numRl
    ensures forall i :: 0 <= i < numRl ==> b.low[i] == -1.0 && b.high[i] == 1.0
  {
    Box(seq(numRl, _ => -1.0), seq(numRl, _ => 1.0))
  }

  // ---------------------------------------------------------------------
  // The lane-change cooldown
  // ---------------------------------------------------------------------

  /** `timer <= lane_change_duration + last_lc` for each listed vehicle: true
      for a vehicle that changed lanes too recently to change again. A
      missing `last_lc` raises KeyError; a non-numeric one raises TypeError. */
  function Cooldown(vehicles: Vehicles, ids: seq<string>, timer: int, duration: real): (r: Result<seq<bool>>)
    reads vehicles
    ensures r.Ok? <==> vehicles.Numbers(ids, "last_lc").Ok?
    ensures r.Ok? ==> |r.value| == |ids| && forall k :: 0 <= k < |ids| ==>
      (r.value[k] <==> timer as real <= duration + vehicles.Number(ids[k], "last_lc").value)
  {
    match vehicles.Numbers(ids, "last_lc")
    case Err(e) => Err(e)
    case Ok(lc) => Ok(seq(|lc|, k requires 0 <= k < |lc| => timer as real <= duration + lc[k]))
  }

  /** numpy's `direction[mask] = 0` with a list of booleans: an empty list is
      an empty index and changes nothing; any other list must be exactly as
      long as the array. */
  predicate MaskMismatch(d: seq<real>, mask: seq<bool>) {
    |mask| != 0 && |mask| != |d|
  }

  /** The directions with every masked entry set to 0. */
  function Masked(d: seq<real>, mask: seq<bool>): (r: seq<real>)
    ensures |r| == |d|
    ensures forall i :: 0 <= i < |d| ==> r[i] == if i < |mask| && mask[i] then 0.0 else d[i]
  {
    seq(|d|, i requires 0 <= i < |d| => if i < |mask| && mask[i] then 0.0 else d[i])
  }

  /** Masking twice is masking once, and masking keeps every direction in
      {-1, 0, 1}. */
  lemma MaskedIdempotent(d: seq<real>, mask: seq<bool>)
    ensures Masked(Masked(d, mask), mask) == Masked(d, mask)
    ensures (forall i :: 0 <= i < |d| ==> Sign(d[i]) == d[i]) ==>
      forall i :: 0 <= i < |d| ==> Sign(Masked(d, mask)[i]) == Masked(d, mask)[i]
  {
  }

  /** The masking assignment of `apply_rl_actions`, in place, raising
      IndexError when the mask does not fit the array. */
  method MaskDirections(direction: array<real>, mask: seq<bool>) returns (err: Option<Error>)
    modifies direction
    ensures err.Some? <==> MaskMismatch(old(direction[..]), mask)
    ensures err.Some? ==> err.value == IndexError && direction[..] == old(direction[..])
    ensures err.None? ==> direction[..] == Masked(old(direction[..]), mask)
  {
    if |mask| != 0 && |mask| != direction.Length {
      return Some(IndexError);
    }
    var i := 0;
    while i < direction.Length
      invariant 0 <= i <= direction.Length
      invariant forall k :: 0 <= k < i ==> direction[k] == Masked(old(direction[..]), mask)[k]
      invariant forall k :: i <= k < direction.Length ==> direction[k] == old(direction[k])
    {
      if i < |mask| && mask[i] {
        direction[i] := 0.0;
      }
      i := i + 1;
    }
    return None;
  }

  // ---------------------------------------------------------------------
  // The reward
  // ---------------------------------------------------------------------

  /** Python's `last_lc == timer`: an integer or a float of the same value. */
  predicate ChangedAt(x: Value, timer: int) {
    (x.Int? && x.i == timer) || (x.Num? && x.x == timer as real)
  }

  /** The number of listed vehicles whose `last_lc` is the current step,
      or the KeyError of the first vehicle without one. */
  function Penalty(vehicles: Vehicles, ids: seq<string>, timer: int): (r: Result<nat>)
    reads vehicles
    ensures r.Ok? <==> forall k :: 0 <= k < |ids| ==> vehicles.Field(ids[k], "last_lc").Ok?
    ensures r.Ok? ==> r.value <= |ids|
    ensures r.Ok? ==> (r.value == 0 <==> forall k :: 0 <= k < |ids| ==> !ChangedAt(vehicles.Field(ids[k], "last_lc").value, timer))
    ensures r.Ok? ==> (r.value == |ids| <==> forall k :: 0 <= k < |ids| ==> ChangedAt(vehicles.Field(ids[k], "last_lc").value, timer))
    decreases |ids|
  {
    if |ids| == 0 then Ok(0)
    else
      var init := ids[..|ids| - 1];
      assert forall k :: 0 <= k < |init| ==> init[k] == ids[k];
      match Penalty(vehicles, init, timer)
      case Err(e) => Err(e)
      case Ok(p) =>
        match vehicles.Field(ids[|ids| - 1], "last_lc")
        case Err(e) => Err(e)
        case Ok(x) => Ok(p + if ChangedAt(x, timer) then 1 else 0)
  }

  /** `compute_reward`: the velocity reward, passed in, less 1 for every RL
      vehicle that changed lanes at this step. It lies between
      base - |rl_ids| and base, and equals base exactly when no RL vehicle
      changed lanes. */
  function Reward(vehicles: Vehicles, baseReward: real, timer: int): (r: Result<real>)
    reads vehicles
    ensures r.Ok? <==> forall k :: 0 <= k < |vehicles.rlIds| ==> vehicles.Field(vehicles.rlIds[k], "last_lc").Ok?
    ensures r.Ok? ==> baseReward - |vehicles.rlIds| as real <= r.value <= baseReward
    ensures r.Ok? ==> (r.value == baseReward <==>
      forall k :: 0 <= k < |vehicles.rlIds| ==> !ChangedAt(vehicles.Field(vehicles.rlIds[k], "last_lc").value, timer))
  {
    match Penalty(vehicles, vehicles.rlIds, timer)
    case Err(e) => Err(e)
    case Ok(p) => Ok(baseReward - p as real)
  }

  /** The decrementing loop of `compute_reward`. */
  method ComputeReward(vehicles: Vehicles, baseReward: real, timer: int) returns (r: Result<real>)
    ensures r == Reward(vehicles, baseReward, timer)
  {
    var rlIds := vehicles.rlIds;
    var reward := baseReward;
    var i := 0;
    while i < |rlIds|
      invariant 0 <= i <= |rlIds|
      invariant Penalty(vehicles, rlIds[..i], timer).Ok?
      invariant reward == baseReward - Penalty(vehicles, rlIds[..i], timer).value as real
    {
      PenaltyStep(vehicles, rlIds, timer, i);
      var x := vehicles.Field(rlIds[i], "last_lc");
      if x.Err? {
        PenaltyErrorPersists(vehicles, rlIds, timer, i + 1);
        return Err(x.error);
      }
      if ChangedAt(x.value, timer) {
        reward := reward - 1.0;
      }
      i := i + 1;
    }
    assert rlIds[..i] == rlIds;
    return Ok(reward);
  }

  /** One more vehicle of the loop: its missing `last_lc` is the error, or
      it adds 1 exactly when it changed lanes at this step. */
  lemma PenaltyStep(vehicles: Vehicles, ids: seq<string>, timer: int, n: nat)
    requires n < |ids| && Penalty(vehicles, ids[..n], timer).Ok?
    ensures vehicles.Field(ids[n], "last_lc").Err? ==>
      Penalty(vehicles, ids[..n + 1], timer) == Err(vehicles.Field(ids[n], "last_lc").error)
    ensures vehicles.Field(ids[n], "last_lc").Ok? ==>
      Penalty(vehicles, ids[..n + 1], timer) ==
      Ok(Penalty(vehicles, ids[..n], timer).value + if ChangedAt(vehicles.Field(ids[n], "last_lc").value, timer) then 1 else 0)
  {
    assert ids[..n + 1][..n] == ids[..n];
  }

  /** Once a prefix has no penalty, because a vehicle lacks `last_lc`, the
      whole list has none, and with the same error. */
  lemma {:induction false} PenaltyErrorPersists(vehicles: Vehicles, ids: seq<string>, timer: int, n: nat)
    requires n <= |ids| && Penalty(vehicles, ids[..n], timer).Err?
    ensures Penalty(vehicles, ids, timer) == Penalty(vehicles, ids[..n], timer)
    decreases |ids|
  {
    if n == |ids| {
      assert ids[..n] == ids;
    } else {
      var init := ids[..|ids| - 1];
      assert init[..n] == ids[..n];
      PenaltyErrorPersists(vehicles, init, timer, n);
    }
  }

  // ---------------------------------------------------------------------
  // The state
  // ---------------------------------------------------------------------

  /** One row of the state: speed, absolute position and lane. */
  function StateRow(vehicles: Vehicles, v: string): (r: Result<seq<real>>)
    reads vehicles
    ensures r.Ok? <==> (vehicles.Number(v, "speed").Ok? && vehicles.Number(v, "absolute_position").Ok? &&
                        vehicles.Number(v, "lane").Ok?)
    ensures r.Ok? ==> r.value == [vehicles.Number(v, "speed").value, vehicles.Number(v, "absolute_position").value,
                                  vehicles.Number(v, "lane").value]
  {
    match vehicles.Number(v, "speed")
    case Err(e) => Err(e)
    case Ok(speed) =>
      match vehicles.Number(v, "absolute_position")
      case Err(e) => Err(e)
      case Ok(pos) =>
        match vehicles.Number(v, "lane")
        case Err(e) => Err(e)
        case Ok(lane) => Ok([speed, pos, lane])
  }

  /** `get_state`: one row per vehicle of `sorted_ids`, in that order, or the
      first error of the first vehicle whose row cannot be read. */
  function StateRows(vehicles: Vehicles, sortedIds: seq<string>): (r: Result<seq<seq<real>>>)
    reads vehicles
    ensures r.Ok? <==> forall k :: 0 <= k < |sortedIds| ==> StateRow(vehicles, sortedIds[k]).Ok?
    ensures r.Ok? ==> |r.value| == |sortedIds|
    ensures r.Ok? ==> forall k :: 0 <= k < |sortedIds| ==> r.value[k] == StateRow(vehicles, sortedIds[k]).value
    ensures r.Err? ==> exists k :: 0 <= k < |sortedIds| && StateRow(vehicles, sortedIds[k]) == Err(r.error)
    decreases |sortedIds|
  {
    if |sortedIds| == 0 then Ok([])
    else match StateRow(vehicles, sortedIds[0])
      case Err(e) => Err(e)
      case Ok(row) =>
        match StateRows(vehicles, sortedIds[1..])
        case Err(e) => Err(e)
        case Ok(rows) => Ok([row] + rows)
  }

  // ---------------------------------------------------------------------
  // apply_rl_actions of the acceleration-and-lane-change environment
  // ---------------------------------------------------------------------

  /** The part of the environment `apply_rl_actions` reads besides the
      vehicle registry and `prev_last_lc`. */
  datatype Ctx = Ctx(lanes: int, timeStep: real, sortedIds: seq<string>, timer: int, duration: real)

  /** What a step of `apply_rl_actions` leaves behind: the refreshed
      `prev_last_lc`, every command sent, and the exception that ended it. */
  datatype Step = Step(prevLastLc: map<string, Value>, commands: seq<Command>, error: Option<Error>)

  /** Commands already sent, followed by what `apply_lane_change` did. */
  function ThenLaneChange(sent: seq<Command>, lc: LaneChange): Step {
    Step(lc.prevLastLc, sent + lc.commands, if lc.outcome.Raised? then Some(lc.outcome.error) else None)
  }

  function RlOf(vehicles: Vehicles, ctx: Ctx): seq<string>
    reads vehicles
  {
    SortedRlIds(ctx.sortedIds, vehicles.rlIds)
  }

  /** `apply_rl_actions`: the cooldown mask, then the accelerations, then the
      lane changes. The i-th RL vehicle in `sorted_ids` order is sent a
      slowDown towards its speed plus actions[2 i] times the time step. */
  function SimpleStep(vehicles: Vehicles, prev: map<string, Value>, ctx: Ctx, actions: seq<real>): (r: Step)
    reads vehicles
    ensures r.error.None? ==> |RlOf(vehicles, ctx)| <= |r.commands| && 2 * |RlOf(vehicles, ctx)| <= |actions| + 1
    ensures r.error.None? ==> forall i :: 0 <= i < |RlOf(vehicles, ctx)| ==>
      vehicles.Number(RlOf(vehicles, ctx)[i], "speed").Ok? &&
      r.commands[i] == SlowDown(RlOf(vehicles, ctx)[i],
        NextSpeed(vehicles.Number(RlOf(vehicles, ctx)[i], "speed").value, actions[2 * i], ctx.timeStep), SlowDownMs)
  {
    var sortedRl := RlOf(vehicles, ctx);
    match Cooldown(vehicles, sortedRl, ctx.timer, ctx.duration)
    case Err(e) => Step(prev, [], Some(e))
    case Ok(mask) =>
      var dirs := Directions(actions);
      if MaskMismatch(dirs, mask) then Step(prev, [], Some(IndexError))
      else match Accelerate(vehicles, sortedRl, Evens(actions), ctx.timeStep)
        case Err(e) => Step(prev, [], Some(e))
        case Ok(acc) => ThenLaneChange(acc, ApplyLaneChange(vehicles, prev, ctx.lanes, sortedRl, Some(Masked(dirs, mask)), None))
  }

  /** `apply_rl_actions` on the environment. */
  method ApplyRlActions(env: Env, actions: seq<real>, duration: real) returns (commands: seq<Command>, err: Option<Error>)
    modifies env
    ensures var r := SimpleStep(env.vehicles, old(env.prevLastLc),
                                Ctx(env.lanes, env.timeStep, old(env.sortedIds), old(env.timer), duration), actions);
      env.prevLastLc == r.prevLastLc && commands == r.commands && err == r.error
    ensures env.timer == old(env.timer) && env.sortedIds == old(env.sortedIds)
  {
    var sortedRl := SortedRlIds(env.sortedIds, env.vehicles.rlIds);
    var cooling := Cooldown(env.vehicles, sortedRl, env.timer, duration);
    if cooling.Err? {
      return [], Some(cooling.error);
    }
    var dirs := Directions(actions);
    var direction := new real[|dirs|](i requires 0 <= i < |dirs| => dirs[i]);
    assert direction[..] == dirs;
    var maskErr := MaskDirections(direction, cooling.value);
    if maskErr.Some? {
      return [], maskErr;
    }
    var acc := env.ApplyAcceleration(sortedRl, Evens(actions));
    if acc.Err? {
      return [], Some(acc.error);
    }
    var laneCommands, outcome := env.LaneChangeStep(sortedRl, Some(direction[..]), None);
    commands := acc.value + laneCommands;
    err := if outcome.Raised? then Some(outcome.error) else None;
  }

  /** Every command `apply_lane_change` sends is a lane change. */
  lemma LaneCommandsAreLaneChanges(vehicles: Vehicles, prev: map<string, Value>, lanes: int, vehIds: seq<string>,
                                   direction: Option<seq<real>>, targetLane: Option<seq<real>>)
    ensures forall c :: c in ApplyLaneChange(vehicles, prev, lanes, vehIds, direction, targetLane).commands ==> c.ChangeLane?
  {
    var r := ApplyLaneChange(vehicles, prev, lanes, vehIds, direction, targetLane);
    if r.commands != [] {
      SentIsIssued(vehicles, prev, lanes, vehIds, direction, targetLane);
      var current := vehicles.Numbers(vehIds, "lane").value;
      var target := TargetLanes(current, direction, targetLane, lanes).value;
      IssueCommands(vehIds, vehicles.rlIds, target, current, 0);
    }
  }

  /** A vehicle in its cooldown whose lane exists is never told to change
      lanes when the directions are masked by the cooldown. */
  lemma {:induction false} CooledVehicleKeepsLane(vehicles: Vehicles, prev: map<string, Value>, lanes: int, ids: seq<string>,
                                                 d: seq<real>, timer: int, duration: real, v: string)
    requires |d| == |ids|
    requires vehicles.Numbers(ids, "last_lc").Ok?
    requires forall k :: 0 <= k < |ids| ==> ids[k] in vehicles.rlIds
    requires vehicles.Number(v, "last_lc").Ok? && timer as real <= duration + vehicles.Number(v, "last_lc").value
    requires vehicles.Number(v, "lane").Ok? && 0.0 <= vehicles.Number(v, "lane").value <= (lanes - 1) as real
    ensures var mask := Cooldown(vehicles, ids, timer, duration).value;
      forall c :: c in ApplyLaneChange(vehicles, prev, lanes, ids, Some(Masked(d, mask)), None).commands ==> c.vehId != v
  {
    var mask := Cooldown(vehicles, ids, timer, duration).value;
    var masked := Masked(d, mask);
    var r := ApplyLaneChange(vehicles, prev, lanes, ids, Some(masked), None);
    if r.commands != [] {
      SentIsIssued(vehicles, prev, lanes, ids, Some(masked), None);
      var current := vehicles.Numbers(ids, "lane").value;
      var target := TargetLanes(current, Some(masked), None, lanes).value;
      forall k | 0 <= k < |ids| && ids[k] == v ensures target[k] == current[k] {
        assert mask[k] && masked[k] == 0.0;
        assert target[k] == Clip(current[k] + masked[k], 0.0, (lanes - 1) as real);
      }
      IssueSkips(ids, vehicles.rlIds, target, current, 0, v);
    }
  }

  /** The per-vehicle loop sends nothing to an RL vehicle whose every target
      is its current lane. */
  lemma {:induction false} IssueSkips(vehIds: seq<string>, rlIds: seq<string>, target: seq<real>, current: seq<real>,
                                      i: nat, v: string)
    requires i <= |vehIds| == |current|
    requires forall k :: i <= k < |vehIds| && k < |target| && vehIds[k] == v ==> v in rlIds && target[k] == current[k]
    ensures forall c :: c in Issue(vehIds, rlIds, target, current, i).commands ==> c.vehId != v
    decreases |vehIds| - i
  {
    if i < |vehIds| && i < |target| {
      IssueSkips(vehIds, rlIds, target, current, i + 1, v);
    }
  }

  /** A vehicle in its cooldown, whose lane exists, gets no lane change from
      `apply_rl_actions`: every command naming it is a slowDown. */
  lemma SimpleCooledVehicleKeepsLane(vehicles: Vehicles, prev: map<string, Value>, ctx: Ctx, actions: seq<real>, v: string)
    requires v in ctx.sortedIds && v in vehicles.rlIds
    requires vehicles.Number(v, "last_lc").Ok? && ctx.timer as real <= ctx.duration + vehicles.Number(v, "last_lc").value
    requires vehicles.Number(v, "lane").Ok? && 0.0 <= vehicles.Number(v, "lane").value <= (ctx.lanes - 1) as real
    ensures forall c :: c in SimpleStep(vehicles, prev, ctx, actions).commands && c.vehId == v ==> c.SlowDown?
  {
    var sortedRl := RlOf(vehicles, ctx);
    var r := SimpleStep(vehicles, prev, ctx, actions);
    var cool := Cooldown(vehicles, sortedRl, ctx.timer, ctx.duration);
    if cool.Ok? {
      var dirs := Directions(actions);
      var acc := Accelerate(vehicles, sortedRl, Evens(actions), ctx.timeStep);
      if !MaskMismatch(dirs, cool.value) && acc.Ok? {
        assert |dirs| == |sortedRl|;
        CooledVehicleKeepsLane(vehicles, prev, ctx.lanes, sortedRl, dirs, ctx.timer, ctx.duration, v);
        var lc := ApplyLaneChange(vehicles, prev, ctx.lanes, sortedRl, Some(Masked(dirs, cool.value)), None);
        assert r.commands == acc.value + lc.commands;
        forall c | c in r.commands && c.vehId == v ensures c.SlowDown? {
          if c in acc.value {
            var i :| 0 <= i < |acc.value| && acc.value[i] == c;
          }
        }
      }
    }
  }

  /** The lane change towards current lane plus dir, clipped to the
      network, is among the commands whenever it leaves the current lane. */
  predicate SentLaneChange(vehicles: Vehicles, lanes: int, v: string, dir: real, commands: seq<Command>)
    reads vehicles
    requires vehicles.Number(v, "lane").Ok?
  {
    var lane := vehicles.Number(v, "lane").value;
    var target := Clip(lane + dir, 0.0, (lanes - 1) as real);
    target != lane ==> ChangeLane(v, Trunc(target), LaneChangeMs) in commands
  }

  lemma SentLaneChangeAfter(vehicles: Vehicles, lanes: int, v: string, dir: real, before: seq<Command>, commands: seq<Command>)
    requires vehicles.Number(v, "lane").Ok? && SentLaneChange(vehicles, lanes, v, dir, commands)
    ensures SentLaneChange(vehicles, lanes, v, dir, before + commands)
  {
  }

  /** A listed RL vehicle whose direction says to leave its lane is sent the
      lane change, when the call completes its per-vehicle loop. */
  lemma DirectionApplied(vehicles: Vehicles, prev: map<string, Value>, lanes: int, ids: seq<string>, d: seq<real>, i: nat)
    requires lanes >= 2 && i < |ids| == |d| && ids[i] in vehicles.rlIds
    requires ApplyLaneChange(vehicles, prev, lanes, ids, Some(d), None).outcome == Applied
    ensures vehicles.Number(ids[i], "lane").Ok?
    ensures SentLaneChange(vehicles, lanes, ids[i], d[i], ApplyLaneChange(vehicles, prev, lanes, ids, Some(d), None).commands)
  {
    SentIsIssued(vehicles, prev, lanes, ids, Some(d), None);
    var current := vehicles.Numbers(ids, "lane").value;
    var target := TargetLanes(current, Some(d), None, lanes).value;
    assert |target| == |ids| && current[i] == vehicles.Number(ids[i], "lane").value;
    assert target[i] == Clip(current[i] + d[i], 0.0, (lanes - 1) as real);
    var cs := Issue(ids, vehicles.rlIds, target, current, 0).commands;
    assert target[i] != current[i] ==> ChangeLane(ids[i], Trunc(target[i]), LaneChangeMs) in cs by {
      IssueCommands(ids, vehicles.rlIds, target, current, 0);
    }
    SentFromTarget(vehicles, lanes, ids[i], d[i], target[i], cs);
  }

  lemma SentFromTarget(vehicles: Vehicles, lanes: int, v: string, dir: real, target: real, commands: seq<Command>)
    requires vehicles.Number(v, "lane").Ok?
    requires target == Clip(vehicles.Number(v, "lane").value + dir, 0.0, (lanes - 1) as real)
    requires target != vehicles.Number(v, "lane").value ==> ChangeLane(v, Trunc(target), LaneChangeMs) in commands
    ensures SentLaneChange(vehicles, lanes, v, dir, commands)
  {
  }

  /** A step of `apply_rl_actions` that raised nothing read every cooldown,
      had a mask that fits, sent every acceleration and completed the lane
      change's per-vehicle loop. */
  lemma SimpleStepCompleted(vehicles: Vehicles, prev: map<string, Value>, ctx: Ctx, actions: seq<real>)
    requires ctx.lanes >= 2 && SimpleStep(vehicles, prev, ctx, actions).error.None?
    ensures var sortedRl := RlOf(vehicles, ctx);
      var cool := Cooldown(vehicles, sortedRl, ctx.timer, ctx.duration);
      && cool.Ok? && (|sortedRl| > 0 ==> |Directions(actions)| == |sortedRl|)
      && Accelerate(vehicles, sortedRl, Evens(actions), ctx.timeStep).Ok?
      && var lc := ApplyLaneChange(vehicles, prev, ctx.lanes, sortedRl, Some(Masked(Directions(actions), cool.value)), None);
         lc.outcome == Applied
         && SimpleStep(vehicles, prev, ctx, actions).commands ==
            Accelerate(vehicles, sortedRl, Evens(actions), ctx.timeStep).value + lc.commands
  {
    var sortedRl := RlOf(vehicles, ctx);
    var cool := Cooldown(vehicles, sortedRl, ctx.timer, ctx.duration);
    assert cool.Ok?;
    var dirs := Directions(actions);
    assert !MaskMismatch(dirs, cool.value);
    NotRaisedIsApplied(vehicles, prev, ctx.lanes, sortedRl, Some(Masked(dirs, cool.value)), None);
  }

  /** On a network of more than one lane, `apply_lane_change` either raises
      or completes its per-vehicle loop. */
  lemma NotRaisedIsApplied(vehicles: Vehicles, prev: map<string, Value>, lanes: int, vehIds: seq<string>,
                           direction: Option<seq<real>>, targetLane: Option<seq<real>>)
    requires lanes != 1
    ensures var outcome := ApplyLaneChange(vehicles, prev, lanes, vehIds, direction, targetLane).outcome;
      outcome.Raised? || outcome == Applied
  {
  }

  /** A vehicle out of its cooldown, and whose rounded direction
      actions[2 i + 1] says to leave its lane, is sent that lane change. */
  lemma SimpleDirectionApplied(vehicles: Vehicles, prev: map<string, Value>, ctx: Ctx, actions: seq<real>, i: nat)
    requires ctx.lanes >= 2 && SimpleStep(vehicles, prev, ctx, actions).error.None?
    requires i < |RlOf(vehicles, ctx)|
    requires var v := RlOf(vehicles, ctx)[i];
      vehicles.Number(v, "last_lc").Ok? && !(ctx.timer as real <= ctx.duration + vehicles.Number(v, "last_lc").value)
    ensures vehicles.Number(RlOf(vehicles, ctx)[i], "lane").Ok?
    ensures SentLaneChange(vehicles, ctx.lanes, RlOf(vehicles, ctx)[i], Round(actions[2 * i + 1]) as real,
                           SimpleStep(vehicles, prev, ctx, actions).commands)
  {
    var sortedRl := RlOf(vehicles, ctx);
    SimpleStepCompleted(vehicles, prev, ctx, actions);
    var mask := Cooldown(vehicles, sortedRl, ctx.timer, ctx.duration).value;
    var dirs := Directions(actions);
    var masked := Masked(dirs, mask);
    assert masked[i] == Round(actions[2 * i + 1]) as real;
    DirectionApplied(vehicles, prev, ctx.lanes, sortedRl, masked, i);
    SentLaneChangeAfter(vehicles, ctx.lanes, sortedRl[i], masked[i], Accelerate(vehicles, sortedRl, Evens(actions), ctx.timeStep).value,
                        ApplyLaneChange(vehicles, prev, ctx.lanes, sortedRl, Some(masked), None).commands);
  }

  /** Every slowDown a command list holds comes before every lane change. */
  predicate AccelerationsFirst(cs: seq<Command>) {
    forall i, j :: 0 <= i < j < |cs| && cs[i].ChangeLane? ==> !cs[j].SlowDown?
  }

  /** Every lane change a command list holds comes before every slowDown. */
  predicate LaneChangesFirst(cs: seq<Command>) {
    forall i, j :: 0 <= i < j < |cs| && cs[i].SlowDown? ==> !cs[j].ChangeLane?
  }

  /** Every command `apply_acceleration` sends is a slowDown. */
  lemma AccelerationsAreSlowDowns(vehicles: Vehicles, vehIds: seq<string>, acc: seq<real>, timeStep: real)
    requires Accelerate(vehicles, vehIds, acc, timeStep).Ok?
    ensures forall c :: c in Accelerate(vehicles, vehIds, acc, timeStep).value ==> c.SlowDown?
  {
    var cs := Accelerate(vehicles, vehIds, acc, timeStep).value;
    forall c | c in cs ensures c.SlowDown? {
      var i :| 0 <= i < |cs| && cs[i] == c;
    }
  }

  lemma SlowDownsThenLaneChanges(a: seq<Command>, b: seq<Command>)
    requires forall c :: c in a ==> c.SlowDown?
    requires forall c :: c in b ==> c.ChangeLane?
    ensures AccelerationsFirst(a + b)
  {
    var cs := a + b;
    forall k | 0 <= k < |a| ensures cs[k].SlowDown? {
      assert cs[k] == a[k] && a[k] in a;
    }
    forall i, j | 0 <= i < j < |cs| && cs[i].ChangeLane? ensures !cs[j].SlowDown? {
      assert cs[j] == b[j - |a|] && b[j - |a|] in b;
    }
  }

  lemma LaneChangesThenSlowDowns(a: seq<Command>, b: seq<Command>)
    requires forall c :: c in a ==> c.ChangeLane?
    requires forall c :: c in b ==> c.SlowDown?
    ensures LaneChangesFirst(a + b)
  {
    var cs := a + b;
    forall k | 0 <= k < |a| ensures cs[k].ChangeLane? {
      assert cs[k] == a[k] && a[k] in a;
    }
    forall i, j | 0 <= i < j < |cs| && cs[i].SlowDown? ensures !cs[j].ChangeLane? {
      assert cs[j] == b[j - |a|] && b[j - |a|] in b;
    }
  }

  /** `apply_rl_actions` sends the accelerations before any lane change. */
  lemma SimpleAccelerationsFirst(vehicles: Vehicles, prev: map<string, Value>, ctx: Ctx, actions: seq<real>)
    ensures AccelerationsFirst(SimpleStep(vehicles, prev, ctx, actions).commands)
  {
    var sortedRl := RlOf(vehicles, ctx);
    var cool := Cooldown(vehicles, sortedRl, ctx.timer, ctx.duration);
    if cool.Ok? {
      var dirs := Directions(actions);
      var acc := Accelerate(vehicles, sortedRl, Evens(actions), ctx.timeStep);
      if !MaskMismatch(dirs, cool.value) && acc.Ok? {
        var lc := ApplyLaneChange(vehicles, prev, ctx.lanes, sortedRl, Some(Masked(dirs, cool.value)), None);
        LaneCommandsAreLaneChanges(vehicles, prev, ctx.lanes, sortedRl, Some(Masked(dirs, cool.value)), None);
        AccelerationsAreSlowDowns(vehicles, sortedRl, Evens(actions), ctx.timeStep);
        SlowDownsThenLaneChanges(acc.value, lc.commands);
      }
    }
  }

  // ---------------------------------------------------------------------
  // apply_rl_actions of the lane-change-only environment
  // ---------------------------------------------------------------------

  /** The accelerations of the RL vehicles' own controllers, given as the
      value each controller returns at this step; a vehicle without a
      controller raises KeyError. */
  function ControllerAccelerations(ids: seq<string>, accel: map<string, real>): (r: Result<seq<real>>)
    ensures r.Ok? <==> forall k :: 0 <= k < |ids| ==> ids[k] in accel
    ensures r.Ok? ==> |r.value| == |ids| && forall k :: 0 <= k < |ids| ==> r.value[k] == accel[ids[k]]
    ensures r.Err? ==> exists k :: 0 <= k < |ids| && ids[k] !in accel && r.error == KeyError(ids[k])
    decreases |ids|
  {
    if |ids| == 0 then Ok([])
    else if ids[0] !in accel then Err(KeyError(ids[0]))
    else match ControllerAccelerations(ids[1..], accel)
      case Err(e) => Err(e)
      case Ok(rest) => Ok([accel[ids[0]]] + rest)
  }

  /** The lane-change-only step as intended: the unrounded directions are
      masked by the cooldown (read with `get_state`), the lane change is
      applied, and only if it did not raise are the controllers'
      accelerations applied. */
  function LaneChangeOnlyStep(vehicles: Vehicles, prev: map<string, Value>, ctx: Ctx, actions: seq<real>,
                              accel: map<string, real>): (r: Step)
    reads vehicles
  {
    var sortedRl := RlOf(vehicles, ctx);
    match Cooldown(vehicles, sortedRl, ctx.timer, ctx.duration)
    case Err(e) => Step(prev, [], Some(e))
    case Ok(mask) =>
      if MaskMismatch(actions, mask) then Step(prev, [], Some(IndexError))
      else
        var lc := ApplyLaneChange(vehicles, prev, ctx.lanes, sortedRl, Some(Masked(actions, mask)), None);
        if lc.outcome.Raised? then Step(lc.prevLastLc, lc.commands, Some(lc.outcome.error))
        else match ControllerAccelerations(sortedRl, accel)
          case Err(e) => Step(lc.prevLastLc, lc.commands, Some(e))
          case Ok(acc) =>
            match Accelerate(vehicles, sortedRl, acc, ctx.timeStep)
            case Err(e) => Step(lc.prevLastLc, lc.commands, Some(e))
            case Ok(slow) => Step(lc.prevLastLc, lc.commands + slow, None)
  }

  /** The lane-change-only step as written: the cooldown reads
      `self.vehicles[veh_id]`, and the vehicle registry cannot be indexed, so
      the step raises TypeError as soon as there is an RL vehicle. */
  function LaneChangeOnlyAsWritten(vehicles: Vehicles, prev: map<string, Value>, ctx: Ctx, actions: seq<real>,
                                   accel: map<string, real>): (r: Step)
    reads vehicles
    ensures |RlOf(vehicles, ctx)| == 0 ==> r == LaneChangeOnlyStep(vehicles, prev, ctx, actions, accel)
  {
    if |RlOf(vehicles, ctx)| > 0 then Step(prev, [], Some(TypeError("'Vehicles' object is not subscriptable")))
    else LaneChangeOnlyStep(vehicles, prev, ctx, actions, accel)
  }

  /** As written, no RL vehicle is ever moved: whenever `sorted_ids` holds
      one, the step sends nothing and raises TypeError, even where the
      intended step succeeds. */
  lemma AsWrittenRaisesWithRlVehicles(vehicles: Vehicles, prev: map<string, Value>, ctx: Ctx, actions: seq<real>,
                                      accel: map<string, real>, v: string)
    requires v in ctx.sortedIds && v in vehicles.rlIds
    ensures var r := LaneChangeOnlyAsWritten(vehicles, prev, ctx, actions, accel);
      r.commands == [] && r.error.Some? && r.error.value.TypeError?
    ensures LaneChangeOnlyStep(vehicles, prev, ctx, actions, accel).error.None? ==>
      LaneChangeOnlyAsWritten(vehicles, prev, ctx, actions, accel) != LaneChangeOnlyStep(vehicles, prev, ctx, actions, accel)
  {
    assert v in RlOf(vehicles, ctx);
  }

  /** The intended lane-change-only step sends the lane changes before any
      slowDown. */
  lemma LaneChangeOnlyLaneChangesFirst(vehicles: Vehicles, prev: map<string, Value>, ctx: Ctx, actions: seq<real>,
                                       accel: map<string, real>)
    ensures LaneChangesFirst(LaneChangeOnlyStep(vehicles, prev, ctx, actions, accel).commands)
  {
    var sortedRl := RlOf(vehicles, ctx);
    var cool := Cooldown(vehicles, sortedRl, ctx.timer, ctx.duration);
    if cool.Ok? && !MaskMismatch(actions, cool.value) {
      var lc := ApplyLaneChange(vehicles, prev, ctx.lanes, sortedRl, Some(Masked(actions, cool.value)), None);
      LaneCommandsAreLaneChanges(vehicles, prev, ctx.lanes, sortedRl, Some(Masked(actions, cool.value)), None);
      var acc := ControllerAccelerations(sortedRl, accel);
      if !lc.outcome.Raised? && acc.Ok? && Accelerate(vehicles, sortedRl, acc.value, ctx.timeStep).Ok? {
        AccelerationsAreSlowDowns(vehicles, sortedRl, acc.value, ctx.timeStep);
        LaneChangesThenSlowDowns(lc.commands, Accelerate(vehicles, sortedRl, acc.value, ctx.timeStep).value);
      } else {
        assert forall c :: c in lc.commands ==> !c.SlowDown?;
      }
    }
  }

  /** In the intended lane-change-only step a vehicle in its cooldown whose
      lane exists gets no lane change. */
  lemma LaneChangeOnlyCooledVehicleKeepsLane(vehicles: Vehicles, prev: map<string, Value>, ctx: Ctx, actions: seq<real>,
                                             accel: map<string, real>, v: string)
    requires v in ctx.sortedIds && v in vehicles.rlIds
    requires vehicles.Number(v, "last_lc").Ok? && ctx.timer as real <= ctx.duration + vehicles.Number(v, "last_lc").value
    requires vehicles.Number(v, "lane").Ok? && 0.0 <= vehicles.Number(v, "lane").value <= (ctx.lanes - 1) as real
    ensures forall c :: c in LaneChangeOnlyStep(vehicles, prev, ctx, actions, accel).commands && c.vehId == v ==> c.SlowDown?
  {
    var sortedRl := RlOf(vehicles, ctx);
    var cool := Cooldown(vehicles, sortedRl, ctx.timer, ctx.duration);
    if cool.Ok? && !MaskMismatch(actions, cool.value) {
      assert |actions| == |sortedRl|;
      CooledVehicleKeepsLane(vehicles, prev, ctx.lanes, sortedRl, actions, ctx.timer, ctx.duration, v);
      var lc := ApplyLaneChange(vehicles, prev, ctx.lanes, sortedRl, Some(Masked(actions, cool.value)), None);
      var acc := ControllerAccelerations(sortedRl, accel);
      if !lc.outcome.Raised? && acc.Ok? && Accelerate(vehicles, sortedRl, acc.value, ctx.timeStep).Ok? {
        var slow := Accelerate(vehicles, sortedRl, acc.value, ctx.timeStep).value;
        forall c | c in lc.commands + slow && c.vehId == v ensures c.SlowDown? {
          if c in slow {
            var i :| 0 <= i < |slow| && slow[i] == c;
          }
        }
      }
    }
  }

  /** The lane-change-only directions are not rounded: a vehicle out of its
      cooldown with a direction strictly between the allowed values makes
      `apply_lane_change` raise ValueError, and nothing is sent. */
  lemma LaneChangeOnlyFractionalRaises(vehicles: Vehicles, prev: map<string, Value>, ctx: Ctx, actions: seq<real>,
                                       accel: map<string, real>, k: nat)
    requires ctx.lanes != 1
    requires k < |RlOf(vehicles, ctx)| == |actions|
    requires vehicles.Numbers(RlOf(vehicles, ctx), "last_lc").Ok? && vehicles.Numbers(RlOf(vehicles, ctx), "lane").Ok?
    requires !(ctx.timer as real <= ctx.duration + vehicles.Number(RlOf(vehicles, ctx)[k], "last_lc").value)
    requires Sign(actions[k]) != actions[k]
    ensures var r := LaneChangeOnlyStep(vehicles, prev, ctx, actions, accel);
      r.commands == [] && r.error.Some? && r.error.value.ValueError?
  {
    var sortedRl := RlOf(vehicles, ctx);
    var mask := Cooldown(vehicles, sortedRl, ctx.timer, ctx.duration).value;
    var masked := Masked(actions, mask);
    assert masked[k] == actions[k];
    BadDirectionRaisesAfterRefresh(vehicles, prev, ctx.lanes, sortedRl, masked, k);
  }
}
