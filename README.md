# Signal-aware intersection control: a verified model

This project models the core of a traffic-signal and reinforcement-learning
code base built on the SUMO simulator. It covers the two-way intersection
scenarios and an environment's per-step bookkeeping. The simulator is reached
through TraCI. Every TraCI reading is an input value of the model and every
TraCI command is an output value, a `Command` (`SetSpeedMode`, `SetSpeed`,
`SlowDown`, `ChangeLane`).

The model consists of one Dafny module per source file:

- `Glosa` (`glosa/glosa.py`) is the green-light speed advisory. `caller` and
  `caller1` turn a 16-character traffic-light state into a phase number 1..8.
  `algo` predicts when each vehicle reaches the stop line and commands maximum
  speed or a slow-down.
- `TwoIntersection` (`flow/envs/two_intersection.py`) is the observation of the
  two-intersection environment. It counts leaders and followers per lane and
  reads the remaining and next green time per vehicle. It builds one eight-column
  row per vehicle and applies the agent's actions. The four dictionaries of the
  observation are fields of a class that its methods update in place.
- `IntersectionEnv` (`flow/envs/intersection_env.py`) gives the distance to the
  intersection and the ordering by that distance.
- `BaseEnv` (`flow/envs/base_env.py`) is the base environment as a class:
  - `apply_acceleration` without a failsafe, and `apply_lane_change` with its
    checks and clipping;
  - the observation update and crash flag of `_step`, and the timer;
  - `get_headway_dict` and `sort_by_position`.
- `LaneChanging` (`flow/envs/lane_changing.py`) covers both lane-changing
  environments. It models the action spaces, the cooldown mask, the
  lane-change penalty in the reward, the state rows and `apply_rl_actions`.
- `Registry` (`flow/core/vehicles.py`) is the vehicle registry, the class
  `Vehicles`. It holds the id lists, the per-vehicle records and the counters.
  `add_vehicles` and the setters update it in place.
- `CarFollowing` (`flow/controllers/car_following_models.py`) holds the
  acceleration laws of CFM, BCM, OVM, the linear OVM and IDM. It also holds the
  delay queue every controller keeps, as a class with a `seq` field.
- `Scenarios` (`flow/scenarios/intersections/intersection_scenario.py` and
  `my_intersection_scenario.py`) holds the length and speed-limit normalisation
  of both constructors, the edge starts and the two start-position generators.
- `Common` holds the numpy and Python primitives the code relies on:
  `np.clip`, `np.sign`, `np.round` (half to even), `int()` truncation, slicing
  and broadcasting.
- `Sorting` is a stable sort by a key. It stands for `np.argsort`.

Every quantity is a `real`. `sqrt`, `cos` and `pow` are fields of a `RealOps`
value passed in. `Lawful(ops)` states the few facts about them that a proof
needs: a square root of a non-negative number is non-negative and squares back, and `cos` stays in [-1, 1]. A Python
exception is an `Err` value, or the `error` of a step, and it carries Python's
exception class. The one exception: `MathDomainError` stands for the
`ValueError("math domain error")` that `math.sqrt` raises on a negative
argument.

Where the code and its description disagree, the model follows the code:

- `algo` tests whether the vehicle reaches the speed cap against the lane
  length, not against the distance left. In the capped branch it then predicts
  as if the vehicle stood at the start of the lane (`glosa/glosa.py:195`,
  `glosa/glosa.py:201`). See `Glosa.CappedArrivalIgnoresPosition`.
- The advisory offsets of `algo` (59, 55, 49, 45, 14, 10, 4, 0) are not the
  next-green offsets of the observation (57, 54, 48, 45, 12, 9, 6, 0). Each
  module keeps its own table.
- The traffic-light phase is read again for every vehicle, so it is one input
  per vehicle, not one per lane.
- The distance column of the two-intersection observation is not normalised.
  It is the altleft lane's length minus the vehicle's lane position, for every
  vehicle (`flow/envs/two_intersection.py:130`).
- Both scenario constructors read the lane counts before checking that they
  are there. A missing count is therefore a KeyError, and the ValueErrors of
  those checks are never raised.
- The lane-change-only environment does not round its directions. A
  fractional direction makes `apply_lane_change` raise ValueError.

## Model

| member | source | states |
|---|---|---|
| Common.Clip | flow/envs/base_env.py:761 | `np.clip` of one entry: the result lies in [lo, hi] when lo <= hi, equals x inside the interval and the nearer bound outside |
| Common.Sign | flow/envs/base_env.py:755 | `np.sign` is -1, 0 or 1, and it equals its argument exactly when the argument is -1, 0 or 1 |
| Common.Trunc | flow/envs/base_env.py:766 | `int()` of a float truncates toward zero: the result has the sign of x and is within 1 of x, toward 0 |
| Common.Round | flow/envs/lane_changing.py:96 | `np.round` gives an integer at most 1/2 from x, and on a tie the even one |
| Common.BroadcastLength | flow/envs/base_env.py:759 | numpy broadcasts two vectors exactly when their lengths agree or one of them is 1, and the result has the length of the operand that is not 1 (so lengths 1 and 0 give 0) |
| Common.Evens | flow/envs/lane_changing.py:95 | `s[::2]` holds s[2k] at index k, and its length is half the length of s, rounded up |
| Common.Odds | flow/envs/lane_changing.py:96 | `s[1::2]` holds s[2k+1] at index k, and its length is half the length of s, rounded down |
| Common.NatToString | flow/core/vehicles.py:67 | `'%d' % i` is a non-empty string of decimal digits |
| Sorting.Insert | flow/envs/base_env.py:899 | inserting into a list keeps the multiset of elements and adds x |
| Sorting.InsertSorted | flow/envs/base_env.py:899 | inserting into a list ordered by key keeps it ordered |
| Sorting.SortByKey | flow/envs/base_env.py:899-900 | the result is a permutation of the input, ordered by non-decreasing key |
| Sorting.SortByKeyOfSorted | flow/envs/base_env.py:899-900 | a list already ordered by key comes back unchanged |
| Sorting.SortedSplit | flow/envs/base_env.py:899-900 | dropping the last element of an ordered list leaves it ordered, and every key is at most the dropped one |
| Sorting.InsertLargest | flow/envs/base_env.py:899-900 | inserting an element whose key is at least every other key appends it |
| Glosa.PhaseIndex | glosa/glosa.py:71-109 | the if/elif chain finds a string exactly when it is in the table; it returns the 1-based position of its first occurrence |
| Glosa.CallerTableDistinct | glosa/glosa.py:71-109 | the eight phase strings `caller` knows are pairwise different |
| Glosa.Caller1TableDistinct | glosa/glosa.py:123-161 | the eight phase strings `caller1` knows are pairwise different |
| Glosa.PhaseIndexOfEntry | glosa/glosa.py:71-109 | in a table without repeats, each entry is found at its own position |
| Glosa.PhaseIndexInjective | glosa/glosa.py:71-109 | two strings found at the same position are equal |
| Glosa.CallerIsBijective | glosa/glosa.py:71-109 | `caller` maps its eight strings one-to-one onto 1..8, and every other string to no phase, so it makes no `algo` call |
| Glosa.PhaseIndexRotated | glosa/glosa.py:71-161 | in a distinct table rotated by four entries, a string is found exactly when it is found in the original, at the index moved four phases along the cycle |
| Glosa.Caller1IsCallerRotated | glosa/glosa.py:123-161 | `caller1` knows the same strings as `caller`, and its index is ((caller(s) + 3) mod 8) + 1 |
| Glosa.ArrivalTime | glosa/glosa.py:189-210 | the arrival prediction fails, with a math domain error, exactly in the uncapped accelerating branch when the radicand is negative |
| Glosa.ArrivalAtConstantSpeed | glosa/glosa.py:206-210 | without acceleration the arrival time times the speed is the distance; at speed 0 it is 0 and nothing is divided |
| Glosa.ArrivalBeforeCapSolvesKinematics | glosa/glosa.py:189-199 | when the cap lies beyond the lane length, the arrival time t solves distance = speed t + acceleration t^2 / 2 |
| Glosa.ArrivalAfterCap | glosa/glosa.py:200-201 | when the cap is reached within the lane length, the arrival is tmax + (laneLength - dmax) / 14 |
| Glosa.CappedArrivalIgnoresPosition | glosa/glosa.py:195-201 | in the capped branch the prediction is the same wherever the vehicle is on the lane |
| Glosa.CappedArrivalNotFasterThanCapSpeed | glosa/glosa.py:189-201 | a vehicle still accelerating to the cap never arrives, in the capped branch, before one driving the distance at 14 |
| Glosa.ArrivalExamples | glosa/glosa.py:189-210 | two worked predictions: 5 m/s at 1 m/s^2 on a 1000 m lane, and 10 m/s without acceleration 50 m from the line |
| Glosa.AdvisoryOffsetsNonIncreasing | glosa/glosa.py:242-257 | the advisory offsets do not increase with the phase number; they run from 59 down to 0 |
| Glosa.ExpectedSpeed | glosa/glosa.py:233 | the advised speed is non-negative and at least 2 distance / horizon - speed; unless floored at 0, it and the current speed average to distance / horizon |
| Glosa.ClearsInGreenIsMarginTest | glosa/glosa.py:225 | the `np.greater` conjunct is implied: the phase-1 test is remaining - arrival >= 2 |
| Glosa.Algo | glosa/glosa.py:166-267 | `algo` first sets the speed mode that ignores red lights, then sends exactly one speed command unless the arrival prediction or the phase-1 advisory division raised (the latter when 59 + remaining + 2 is 0) |
| Glosa.Phase1MaxSpeedIffMargin | glosa/glosa.py:224-229 | in phase 1, speed 14 is commanded exactly when the vehicle arrives at least 2 s before the switch |
| Glosa.SlowDownWhenNotClearing | glosa/glosa.py:231-265 | otherwise, with remaining >= 0, the horizon is at least 2 and the command is a slow-down to the advised speed over horizon * 1000 ms; the fallback is never taken |
| Glosa.CommandedSpeedNonNegative | glosa/glosa.py:224-265 | every speed `algo` commands is non-negative when the vehicle's speed is |
| Glosa.Caller | glosa/glosa.py:61-162 | `caller` and `caller1` (one per table) emit the lane's advice vehicle by vehicle, stopping at the first exception |
| Glosa.LaneAdviceStaysFailed | glosa/glosa.py:61-110 | once a vehicle's prediction raised, the later vehicles add nothing and the exception stays |
| Glosa.UnknownPhasesIssueNothing | glosa/glosa.py:71-109 | a lane on which no vehicle reads a known phase string gets no command |
| Glosa.LaneAdviceCount | glosa/glosa.py:61-110 | without an exception, each vehicle with a known phase gets exactly two commands, and the others get none |
| TwoIntersection.Closer | flow/envs/two_intersection.py:296-302 | the leader count is at most the number of listed vehicles |
| TwoIntersection.Farther | flow/envs/two_intersection.py:296-302 | the follower count is at most the number of listed vehicles |
| TwoIntersection.Level | flow/envs/two_intersection.py:296-302 | the number of vehicles level with a distance is at most the number of listed vehicles |
| TwoIntersection.CountsPartition | flow/envs/two_intersection.py:296-302 | every listed vehicle is a leader, a follower or level with the reference |
| TwoIntersection.LevelOfMember | flow/envs/two_intersection.py:296-302 | a vehicle is level with itself, so it is never its own leader or follower |
| TwoIntersection.LevelAbsent | flow/envs/two_intersection.py:296-302 | a distance no vehicle has is level with nobody |
| TwoIntersection.LevelOfDistinct | flow/envs/two_intersection.py:296-302 | with distinct distances a vehicle is level with itself only |
| TwoIntersection.CloserMonotone | flow/envs/two_intersection.py:296-302 | everything nearer than or level with a is nearer than any b > a |
| TwoIntersection.LeadersPlusFollowers | flow/envs/two_intersection.py:296-302 | leaders + followers <= n - 1 for each vehicle, with equality when no two distances are equal |
| TwoIntersection.SumLeadersOfEmpty | flow/envs/two_intersection.py:296-302 | an empty lane contributes no leaders |
| TwoIntersection.SumLeadersSnoc | flow/envs/two_intersection.py:296-302 | one more vehicle adds the number of listed vehicles farther than it to the leader total |
| TwoIntersection.SumLeadersIsSumFollowers | flow/envs/two_intersection.py:296-302 | counting the pairs (d, e) with d < e by e or by d gives the same total |
| TwoIntersection.LaneLeadersBalanceFollowers | flow/envs/two_intersection.py:288-307 | over one lane the leader counts and the follower counts have the same sum |
| TwoIntersection.Below | flow/envs/two_intersection.py:296-307 | the set 0 .. n-1 |
| TwoIntersection.RankInjective | flow/envs/two_intersection.py:296-307 | with distinct distances two vehicles of a lane never have the same leader count |
| TwoIntersection.RanksCard | flow/envs/two_intersection.py:296-307 | with distinct distances the first m vehicles have m different leader counts |
| TwoIntersection.BelowCard | flow/envs/two_intersection.py:296-307 | the set 0 .. n-1 has n elements |
| TwoIntersection.SubsetCard | flow/envs/two_intersection.py:296-307 | a subset is no larger than its superset |
| TwoIntersection.SubsetOfSameSize | flow/envs/two_intersection.py:296-307 | a subset as large as its superset is the superset |
| TwoIntersection.LeaderCountsArePermutation | flow/envs/two_intersection.py:288-307 | with distinct distances the leader counts of a lane of n vehicles are 0, 1, ..., n-1, one each |
| TwoIntersection.Distances | flow/envs/two_intersection.py:288-295 | one distance per listed vehicle: the lane length minus its lane position |
| TwoIntersection.Counts | flow/envs/two_intersection.py:288-307 | one leader (or follower) count per listed vehicle |
| TwoIntersection.WithCountsNext | flow/envs/two_intersection.py:306-307 | storing the counts of one more vehicle sets that vehicle's entry |
| TwoIntersection.WithCountsAt | flow/envs/two_intersection.py:306-307 | an unlisted vehicle keeps its entry, a listed one gets its count, and nothing is removed |
| TwoIntersection.CountEntries | flow/envs/two_intersection.py:288-309 | a listed vehicle's leader count is the listed vehicles strictly nearer the stop line, its follower count those strictly farther; every other entry keeps its value |
| TwoIntersection.Preset | flow/envs/two_intersection.py:104-108 | a dictionary with exactly the given ids, each mapped to zero |
| TwoIntersection.GreenTimes | flow/envs/two_intersection.py:245-283 | the next green is the phase's offset plus the time to the switch in seconds; only phase 1 has green left, and that is the time to the switch |
| TwoIntersection.GreenTimesOrdered | flow/envs/two_intersection.py:247-279 | later phases see the next green sooner, never before the current phase ends; in phase 1 the next green comes 57 s after the green runs out |
| TwoIntersection.SelectedKeeps | flow/envs/two_intersection.py:143-191 | a vehicle the list does not hold, or whose readings are all unknown phase strings, keeps both of its entries |
| TwoIntersection.SelectedKeys | flow/envs/two_intersection.py:143-191 | a selector never removes an entry |
| TwoIntersection.SelectedKnown | flow/envs/two_intersection.py:143-191 | in a list without repeats, a vehicle whose phase string is known gets the green times of that phase |
| TwoIntersection.RotateReadings | flow/envs/two_intersection.py:194-241 | the readings with each known phase string moved four phases along the cycle |
| TwoIntersection.SelectOneRotated | flow/envs/two_intersection.py:143-241 | one selector step with a table rotated by four equals the step with the unrotated table on the rotated reading |
| TwoIntersection.SelectedRotated | flow/envs/two_intersection.py:143-241 | a selector with a rotated table equals the unrotated one on rotated readings, for a whole list |
| TwoIntersection.Selector2IsSelector1Rotated | flow/envs/two_intersection.py:143-241 | `phaseSelector2` is `phaseSelector1` on readings rotated by four phases; strings neither table knows stay unknown |
| TwoIntersection.StateTables.constructor | flow/envs/two_intersection.py:104-108 | all four dictionaries start with a 0 for every sorted id |
| TwoIntersection.StateTables.CountLeadersAndFollowers | flow/envs/two_intersection.py:286-309 | the nested counting loop stores, for each listed vehicle, the counts `CountEntries` describes, in both dictionaries |
| TwoIntersection.StateTables.CountAround | flow/envs/two_intersection.py:293-302 | the inner loop counts the listed vehicles strictly nearer and strictly farther than the reference |
| TwoIntersection.StateTables.SetGreenTimes | flow/envs/two_intersection.py:245-283 | one vehicle's remaining and next green become those of its phase; the other entries stay |
| TwoIntersection.StateTables.PhaseSelector | flow/envs/two_intersection.py:143-241 | `phaseSelector1` and `phaseSelector2` store, for each listed vehicle with a known phase string, the green times of that phase |
| TwoIntersection.StateTables.CountAllLanes | flow/envs/two_intersection.py:110-117 | the eight counting calls of `get_state`, lane after lane |
| TwoIntersection.StateTables.SelectAllLanes | flow/envs/two_intersection.py:119-126 | the eight selector calls: left and right approaches with `caller`'s table, bottom and top with `caller1`'s |
| TwoIntersection.SelectorTable | flow/envs/two_intersection.py:119-126 | each lane is read with one of the two eight-entry tables |
| TwoIntersection.CountLanesOf | flow/envs/two_intersection.py:110-117 | a vehicle keeps its entry; the last lane that lists it decides its counts; a vehicle on no lane keeps its preset 0 |
| TwoIntersection.SelectLanesUnknown | flow/envs/two_intersection.py:119-126 | a vehicle whose every reading is an unknown phase string, or that is on no lane, keeps its green entries |
| TwoIntersection.SelectLanesKnown | flow/envs/two_intersection.py:119-126 | a vehicle listed once on a lane, and on no later lane, gets the green times of the phase it read there |
| TwoIntersection.SelectLanesKeys | flow/envs/two_intersection.py:119-126 | the selectors never remove an entry |
| TwoIntersection.ToJunction | flow/envs/two_intersection.py:128-130 | the distance column has an entry for exactly the sorted ids |
| TwoIntersection.DistancesToJunction | flow/envs/two_intersection.py:128-130 | the loop fills the distance column: the altleft lane's length minus each vehicle's lane position |
| TwoIntersection.Row | flow/envs/two_intersection.py:132-139 | a row has eight columns: speed / enter speed, absolute position / length, distance, lane, leaders, followers, remaining and next green; it fails exactly when a field is missing or not a number, or a divisor is 0 |
| TwoIntersection.Rows | flow/envs/two_intersection.py:132-140 | one row per id in `sorted_ids` order, failing exactly when some row fails |
| TwoIntersection.GetState | flow/envs/two_intersection.py:74-140 | `get_state` presets the tables and counts all eight lanes, runs the selectors and returns the rows of the sorted ids; every sorted id has all four entries |
| TwoIntersection.RlStep | flow/envs/two_intersection.py:50-65 | when nothing raised, the i-th RL vehicle in sorted order was sent a slow-down towards its speed plus actions[2i] times the time step |
| TwoIntersection.ApplyRlActions | flow/envs/two_intersection.py:50-65 | `apply_rl_actions` returns that step's commands and error and refreshes `prev_last_lc`; the timer and the sorted ids stay |
| TwoIntersection.RlDirectionApplied | flow/envs/two_intersection.py:54-65 | an RL vehicle whose rounded direction actions[2i+1] leaves its lane is sent that lane change |
| TwoIntersection.RlStepCompleted | flow/envs/two_intersection.py:50-65 | a step that raised nothing sent every acceleration and then completed the lane-change loop |
| TwoIntersection.RlAccelerationsFirst | flow/envs/two_intersection.py:64-65 | the accelerations are sent before any lane change |
| IntersectionEnv.IntersectionEdges | flow/envs/intersection_env.py:18-21 | `intersection_edges` lists the first component of each edge start, in order, or nothing when the scenario has none |
| IntersectionEnv.ArgMinAbs | flow/envs/intersection_env.py:60 | `np.argmin(np.abs(...))` is the first index of an entry of least magnitude |
| IntersectionEnv.XReadError | flow/envs/intersection_env.py:47 | `get_x_by_id` raises KeyError exactly when the vehicle has no edge, or no position on its edge |
| IntersectionEnv.IntersectionDist | flow/envs/intersection_env.py:45-62 | a missing edge-starts attribute raises AttributeError and an empty one ValueError; otherwise the least candidate and its intersection |
| IntersectionEnv.IntersectionDistIsFirst | flow/envs/intersection_env.py:54-62 | every candidate is 1480 minus the lane position, so the result is that distance at the first intersection |
| IntersectionEnv.FindIntersectionDist | flow/envs/intersection_env.py:45-62 | the two appending loops and the argmin compute `IntersectionDist` |
| IntersectionEnv.DistList | flow/envs/intersection_env.py:41 | the distances of a list of ids, same length and order, or the first error |
| IntersectionEnv.GetDistance | flow/envs/intersection_env.py:40-43 | a list argument gives the list of distances in the same order, a single id its (distance, intersection) pair |
| IntersectionEnv.SortByIntersectionDist | flow/envs/intersection_env.py:81-83 | the ids are permuted into non-decreasing distance to the intersection |
| BaseEnv.ControllerCheck | flow/envs/base_env.py:679-696 | the controller loop raises exactly when a vehicle has no acceleration controller (KeyError) or the acceleration list is too short (IndexError) |
| BaseEnv.Accelerate | flow/envs/base_env.py:665-712 | without a failsafe, the slow-downs sent are, per vehicle, towards max(0, v + a * time_step), all non-negative; an error raises before any is sent |
| BaseEnv.NextSpeed | flow/envs/base_env.py:706-707 | the commanded speed is v + a * time_step when that is non-negative, and 0 otherwise |
| BaseEnv.SlowDowns | flow/envs/base_env.py:709-712 | one slow-down per listed vehicle, in order |
| BaseEnv.SlowDownCommands | flow/envs/base_env.py:709-712 | the command loop sends exactly those slow-downs |
| BaseEnv.Refresh | flow/envs/base_env.py:743-745 | the refresh loop copies each listed vehicle's `last_lc` into `prev_last_lc`, until a vehicle without one raises KeyError |
| BaseEnv.TargetLanes | flow/envs/base_env.py:751-761 | the target lanes are clip(current + direction, or target_lane, 0, lanes - 1), after checking every direction is -1, 0 or 1 |
| BaseEnv.ClippedLanes | flow/envs/base_env.py:761 | each given target lane clipped to [0, lanes - 1] |
| BaseEnv.DirectedLanes | flow/envs/base_env.py:753-761 | current lane plus direction, clipped, once every direction passed the check |
| BaseEnv.BroadcastSum | flow/envs/base_env.py:759-761 | the broadcast sum current + direction, entry by entry, clipped |
| BaseEnv.Issue | flow/envs/base_env.py:763-771 | the per-vehicle loop; a target list too short raises IndexError after the earlier commands went out |
| BaseEnv.IssueLaneChanges | flow/envs/base_env.py:763-771 | the loop sends exactly those commands, one at a time |
| BaseEnv.ApplyLaneChange | flow/envs/base_env.py:714-771 | the call raises ValueError when both or neither input is given; a single-lane network returns -1 and sends nothing |
| BaseEnv.SentIsIssued | flow/envs/base_env.py:738-771 | a call that sent something or completed had exactly one input, read every current lane, and sent the loop's commands |
| BaseEnv.BadDirectionRaisesAfterRefresh | flow/envs/base_env.py:743-757 | a direction outside {-1, 0, 1} raises ValueError; by then `prev_last_lc` holds every listed vehicle's `last_lc` |
| BaseEnv.IssueCommands | flow/envs/base_env.py:763-771 | a vehicle the loop reaches gets a change exactly when it is not an RL vehicle or its target differs from its lane, towards its truncated target |
| BaseEnv.CommandsNameExistingLanes | flow/envs/base_env.py:761-771 | every lane-change command names a lane 0 .. lanes - 1 |
| BaseEnv.TruncBelowInteger | flow/envs/base_env.py:766 | truncating a value of [0, n] gives an integer of 0 .. n |
| BaseEnv.EmptyTable | flow/envs/base_env.py:921-924 | `dict.fromkeys` gives exactly the ids, each with an empty entry |
| BaseEnv.Fill | flow/envs/base_env.py:926-942 | after the filling loop over the first n ids, the table still has exactly the ids |
| BaseEnv.FillStep | flow/envs/base_env.py:926-942 | one more pass of the filling loop |
| BaseEnv.EmptyHeadways | flow/envs/base_env.py:921-924 | the first loop produces the empty table |
| BaseEnv.FillLeaderAndHeadway | flow/envs/base_env.py:926-942 | a vehicle's leader and headway are the ones reported when that leader is among the ids; otherwise no leader and headway 1e-3 |
| BaseEnv.FillFollowerSound | flow/envs/base_env.py:934-936 | a recorded follower of v is a vehicle whose own reading names v as its leader |
| BaseEnv.HeadwayTableShape | flow/envs/base_env.py:921-944 | the table has one entry per id, each with its leader and headway keys |
| BaseEnv.FieldNamesDistinct | flow/envs/base_env.py:387-410 | the fields the observation update writes are pairwise different |
| BaseEnv.Advance | flow/envs/base_env.py:403-407 | the absolute position advances by the change of position, plus the network length when that change is negative |
| BaseEnv.AdvanceOfPositions | flow/envs/base_env.py:403-410 | for positions in [0, length) the advance lies in [0, length), so the absolute position never decreases |
| BaseEnv.UpdatedAgain | flow/envs/base_env.py:387-410 | setting a field of a record just replaced amends the replacement |
| BaseEnv.ObserveBySetters | flow/envs/base_env.py:387-410 | the setter calls of `_step`, one after the other, give the observed record |
| BaseEnv.ObserveEffect | flow/envs/base_env.py:383-412 | only the observed vehicle's record changes: position, edge, lane and speed; `last_lc` becomes the timer when an RL vehicle changed lane; the absolute position advances |
| BaseEnv.EntryBySetters | flow/envs/base_env.py:422-435 | the three setter calls of the copy give the registry with that entry's leader, follower and headway |
| BaseEnv.ApplyEntryKeepsTracked | flow/envs/base_env.py:422-435 | copying an entry keeps the fields `_step` reads |
| BaseEnv.ApplyTableKeepsTracked | flow/envs/base_env.py:422-435 | copying the table keeps the fields `_step` reads |
| BaseEnv.StepRecordsKeepsTracked | flow/envs/base_env.py:383-435 | the step keeps every record, and every field the step reads |
| BaseEnv.StepRecordsTrackedAt | flow/envs/base_env.py:383-435 | the fields `_step` reads are present at every listed vehicle throughout the step |
| BaseEnv.CrashedIff | flow/envs/base_env.py:414-416 | the crash flag is raised exactly when some observed vehicle reports a negative position or speed |
| BaseEnv.TrackedPositions | flow/envs/base_env.py:899 | every tracked vehicle has a numeric absolute position |
| BaseEnv.PositionKey | flow/envs/base_env.py:899 | the sort key of each id is its absolute position |
| BaseEnv.SortByPosition | flow/envs/base_env.py:884-901 | `sort_by_position` gives the ids ordered by absolute position, or the error of a vehicle whose position is missing or not a number |
| BaseEnv.SortByPositionSorts | flow/envs/base_env.py:899-901 | the result is a permutation of the ids in non-decreasing absolute position |
| BaseEnv.Env.constructor | flow/envs/base_env.py:59 | a new environment starts with timer 0, no `prev_last_lc` and no sorted ids |
| BaseEnv.Env.ResetTimer | flow/envs/base_env.py:519 | reset sets the timer back to 0; `prev_last_lc` and the sorted ids stay |
| BaseEnv.Env.ApplyAcceleration | flow/envs/base_env.py:665-712 | `apply_acceleration` sends the commands of `Accelerate`, or raises its error; the environment is unchanged |
| BaseEnv.Env.CheckControllers | flow/envs/base_env.py:679-696 | the controller loop raises exactly what `ControllerCheck` says |
| BaseEnv.Env.LaneChangeStep | flow/envs/base_env.py:714-771 | `apply_lane_change` sends the commands of `ApplyLaneChange` and leaves its `prev_last_lc`; the timer and the sorted ids stay |
| BaseEnv.Env.RefreshLastLc | flow/envs/base_env.py:743-745 | the refresh loop leaves the `prev_last_lc` of `Refresh` |
| BaseEnv.Env.GetHeadwayDict | flow/envs/base_env.py:903-944 | `get_headway_dict` returns the filled table |
| BaseEnv.Env.ObserveVehicle | flow/envs/base_env.py:384-412 | the observation of one vehicle, through the registry's setters, gives the registry of `ObserveEffect` |
| BaseEnv.Env.MarkLaneChange | flow/envs/base_env.py:395-397 | `last_lc` becomes the timer for an RL vehicle whose lane changed |
| BaseEnv.Env.CopyEntry | flow/envs/base_env.py:423-435 | one table entry is copied into the registry |
| BaseEnv.Env.CopyHeadways | flow/envs/base_env.py:422-435 | the inner loop copies the table into the registry |
| BaseEnv.Env.Step | flow/envs/base_env.py:320-438 | the timer grows by 1, every observed vehicle is updated and the table is copied after each, the crash flag is computed and the ids are sorted; no vehicle is added or removed |
| BaseEnv.Env.SortIds | flow/envs/base_env.py:438 | `sorted_ids` becomes the ids ordered by absolute position |
| BaseEnv.Env.ObserveAll | flow/envs/base_env.py:383-435 | the observation loop of `_step` over all observed vehicles: the same vehicles keep records, with the fields `_step` reads, and the crash flag is computed |
| BaseEnv.Env.ObserveAndCopy | flow/envs/base_env.py:384-435 | one pass of the outer loop: observe one vehicle, then copy the table |
| LaneChanging.SortedRlIds | flow/envs/lane_changing.py:99 | the RL vehicles of `sorted_ids`, in that order |
| LaneChanging.RlPositions | flow/envs/lane_changing.py:99 | the position in `sorted_ids` of each RL vehicle picked |
| LaneChanging.RlPositionsIncrease | flow/envs/lane_changing.py:99 | those positions lie in `sorted_ids` and strictly increase |
| LaneChanging.RlPositionsPick | flow/envs/lane_changing.py:99 | `sorted_rl_ids` picks `sorted_ids` at those positions: an order-preserving subsequence |
| LaneChanging.RlPositionsCover | flow/envs/lane_changing.py:99 | every position of `sorted_ids` that holds an RL vehicle is picked |
| LaneChanging.Directions | flow/envs/lane_changing.py:95-96 | one rounded direction per odd-indexed action |
| LaneChanging.ActionBounds | flow/envs/lane_changing.py:30-37 | the bounds alternate [-&#124;max_deacc&#124;, -1] and [max_acc, 1], two per RL vehicle (also the space of flow/envs/two_intersection.py) |
| LaneChanging.RoundInUnit | flow/envs/lane_changing.py:96 | rounding a value of [-1, 1] gives -1, 0 or 1 |
| LaneChanging.ActionsInBoxDecode | flow/envs/two_intersection.py:28-31 | an action in the box splits into one acceleration within bounds and one direction of -1, 0 or 1 per RL vehicle, so the direction check never fires |
| LaneChanging.DirectionBounds | flow/envs/lane_changing.py:141 | the lane-change-only space is one direction in [-1, 1] per RL vehicle |
| LaneChanging.Cooldown | flow/envs/lane_changing.py:103-105 | the mask is set exactly for the vehicles with timer <= lane_change_duration + last_lc; a missing `last_lc` raises KeyError |
| LaneChanging.Masked | flow/envs/lane_changing.py:107 | every masked direction becomes 0, and every other stays |
| LaneChanging.MaskedIdempotent | flow/envs/lane_changing.py:107 | masking twice is masking once, and directions stay in {-1, 0, 1} |
| LaneChanging.MaskDirections | flow/envs/lane_changing.py:107 | the in-place assignment masks the array, or raises IndexError when the mask does not fit |
| LaneChanging.Penalty | flow/envs/lane_changing.py:67-69 | the penalty is the number of RL vehicles whose `last_lc` is the timer |
| LaneChanging.Reward | flow/envs/lane_changing.py:52-71 | the reward is the velocity reward less that penalty: between base - n and base, and base exactly when nobody changed lanes |
| LaneChanging.ComputeReward | flow/envs/lane_changing.py:63-71 | the decrementing loop computes `Reward` |
| LaneChanging.PenaltyStep | flow/envs/lane_changing.py:67-69 | one more vehicle adds 1 exactly when it changed lanes at this step |
| LaneChanging.PenaltyErrorPersists | flow/envs/lane_changing.py:67-69 | a vehicle missing `last_lc` makes the whole penalty fail, with its error |
| LaneChanging.StateRow | flow/envs/lane_changing.py:80-83 | a row is [speed, absolute position, lane] |
| LaneChanging.StateRows | flow/envs/lane_changing.py:80-83 | one row per vehicle of `sorted_ids`, in that order, or the first error |
| LaneChanging.SimpleStep | flow/envs/lane_changing.py:85-110 | the i-th RL vehicle gets a slow-down towards its speed plus actions[2i] times the time step |
| LaneChanging.ApplyRlActions | flow/envs/lane_changing.py:85-110 | `apply_rl_actions` on the environment returns the step's commands and error |
| LaneChanging.LaneCommandsAreLaneChanges | flow/envs/base_env.py:763-771 | every command `apply_lane_change` sends is a lane change |
| LaneChanging.CooledVehicleKeepsLane | flow/envs/lane_changing.py:103-110 | a vehicle in its cooldown is never told to change lanes |
| LaneChanging.IssueSkips | flow/envs/base_env.py:763-771 | the loop sends nothing to an RL vehicle whose every target is its own lane |
| LaneChanging.SimpleCooledVehicleKeepsLane | flow/envs/lane_changing.py:103-110 | in `apply_rl_actions` every command naming a vehicle in cooldown is a slow-down |
| LaneChanging.SentLaneChangeAfter | flow/envs/base_env.py:763-771 | a lane change already sent stays sent when commands are sent before it |
| LaneChanging.DirectionApplied | flow/envs/base_env.py:751-771 | an RL vehicle whose direction leaves its lane is sent the change, when the call completes its loop |
| LaneChanging.SentFromTarget | flow/envs/base_env.py:761-771 | a command towards the clipped target is the lane change its direction asks for |
| LaneChanging.SimpleStepCompleted | flow/envs/lane_changing.py:95-110 | a step that raised nothing read every cooldown, had a fitting mask, sent every acceleration and completed the lane-change loop |
| LaneChanging.NotRaisedIsApplied | flow/envs/base_env.py:714-771 | on more than one lane, `apply_lane_change` either raises or completes its loop |
| LaneChanging.SimpleDirectionApplied | flow/envs/lane_changing.py:95-110 | a vehicle out of cooldown whose rounded direction actions[2i+1] leaves its lane is sent that change |
| LaneChanging.AccelerationsAreSlowDowns | flow/envs/base_env.py:709-712 | every command `apply_acceleration` sends is a slow-down |
| LaneChanging.SlowDownsThenLaneChanges | flow/envs/lane_changing.py:109-110 | slow-downs followed by lane changes send the accelerations first |
| LaneChanging.LaneChangesThenSlowDowns | flow/envs/lane_changing.py:164-172 | lane changes followed by slow-downs send the lane changes first |
| LaneChanging.SimpleAccelerationsFirst | flow/envs/lane_changing.py:109-110 | `apply_rl_actions` sends the accelerations before any lane change |
| LaneChanging.ControllerAccelerations | flow/envs/lane_changing.py:168-170 | one acceleration per RL vehicle from its own controller, or KeyError for a vehicle without one |
| LaneChanging.LaneChangeOnlyAsWritten | flow/envs/lane_changing.py:143-172 | as written the step sends nothing when the cooldown reads a vehicle's record, which raises TypeError |
| LaneChanging.AsWrittenRaisesWithRlVehicles | flow/envs/lane_changing.py:159 | as written, whenever `sorted_ids` holds an RL vehicle, the step raises TypeError, even where the intended step succeeds |
| LaneChanging.LaneChangeOnlyLaneChangesFirst | flow/envs/lane_changing.py:164-172 | the intended lane-change-only step sends the lane changes before the controllers' slow-downs |
| LaneChanging.LaneChangeOnlyCooledVehicleKeepsLane | flow/envs/lane_changing.py:157-164 | in the intended step a vehicle in its cooldown gets no lane change |
| LaneChanging.LaneChangeOnlyFractionalRaises | flow/envs/lane_changing.py:151-164 | an unrounded fractional direction of a vehicle out of cooldown makes the step raise ValueError, and nothing is sent |
| Registry.NewIds | flow/core/vehicles.py:66-67 | `add_vehicles(base, n)` creates base_0 .. base_{n-1} in order, and none for n <= 0 |
| Registry.NewIdsAt | flow/core/vehicles.py:66-67 | the i-th new id is base_i |
| Registry.NewIdsDistinct | flow/core/vehicles.py:66-67 | the ids of one call are pairwise different |
| Registry.NatToStringInjective | flow/core/vehicles.py:67 | different numbers have different decimal renderings |
| Registry.AddRecordsNext | flow/core/vehicles.py:66-99 | one more pass appends base_i and stores its record |
| Registry.AddRecordsEffect | flow/core/vehicles.py:66-99 | storing the new records adds exactly the new ids and leaves every other record |
| Registry.PartitionExtended | flow/core/vehicles.py:103-108 | appending ids of one kind, all with records, keeps every id recorded, the three list lengths adding up to the number of ids, and the id list the union of the kind lists |
| Registry.OneKindEachExtended | flow/core/vehicles.py:66-108 | when the appended ids are new, every id stays in exactly one of the sumo, RL and controlled lists |
| Registry.NewRecordFields | flow/core/vehicles.py:72-99 | a new record names its type and controller, has no lane changer or router unless given, and keeps the initial speed |
| Registry.Vehicles.constructor | flow/core/vehicles.py:8-27 | an empty registry, with all counters 0 |
| Registry.Vehicles.AddVehicles | flow/core/vehicles.py:29-117 | an empty name or missing controller raises ValueError and changes nothing; otherwise the ids grow by base_0 .. base_{n-1}, the counters match the lists, and the type count and type list grow on every call |
| Registry.Vehicles.AddAll | flow/core/vehicles.py:66-108 | the loop over `range(n)` appends the new ids with their records |
| Registry.Vehicles.Append | flow/core/vehicles.py:70-108 | one iteration: the id joins the id list and the list of its kind, and its record is stored |
| Registry.Vehicles.Field | flow/core/vehicles.py:366-381 | a field's value, or KeyError for a missing vehicle or field |
| Registry.Vehicles.FieldList | flow/core/vehicles.py:376-377 | the field of each vehicle of a list, in that order, or the first failure |
| Registry.Vehicles.Get | flow/core/vehicles.py:171-381 | a getter on a list gives values in the list's order, on "all" in id-list order, on one id its value |
| Registry.Vehicles.Number | flow/core/vehicles.py:366-381 | a numeric field as a real; any other value fails |
| Registry.Vehicles.Numbers | flow/core/vehicles.py:376-377 | that for each vehicle of a list, in order |
| Registry.Vehicles.SetState | flow/core/vehicles.py:146-151 | `set_state` sets one field of one vehicle; a missing vehicle raises KeyError and nothing changes |
| Registry.Vehicles.SetSpeed | flow/core/vehicles.py:119-120 | sets the speed field, nothing else |
| Registry.Vehicles.SetAbsolutePosition | flow/core/vehicles.py:122-123 | sets the absolute position, nothing else |
| Registry.Vehicles.SetPosition | flow/core/vehicles.py:125-126 | sets the position on the edge, nothing else |
| Registry.Vehicles.SetEdge | flow/core/vehicles.py:128-129 | sets the edge, nothing else |
| Registry.Vehicles.SetLane | flow/core/vehicles.py:131-132 | sets the lane, nothing else |
| Registry.Vehicles.SetRoute | flow/core/vehicles.py:134-135 | sets the route, nothing else |
| Registry.Vehicles.SetLeader | flow/core/vehicles.py:137-138 | sets the leader, with None stored as no vehicle |
| Registry.Vehicles.SetFollower | flow/core/vehicles.py:140-141 | sets the follower, with None stored as no vehicle |
| Registry.Vehicles.SetHeadway | flow/core/vehicles.py:143-144 | sets the headway, nothing else |
| Registry.UpdatedReads | flow/core/vehicles.py:119-151 | reading back a field just set gives the value set; every other (vehicle, field) pair reads as before; no vehicle appears or disappears |
| CarFollowing.OvmVelocity | flow/controllers/car_following_models.py:232-238 | OVM's optimal velocity is 0 up to h_st, v_max from h_go on, and in [0, v_max] between, when cos is lawful |
| CarFollowing.HalfScaled | flow/controllers/car_following_models.py:234-235 | for k >= 0 and c in [-1, 1], half of k times 1 - c lies in [0, k] |
| CarFollowing.LinearVelocity | flow/controllers/car_following_models.py:302-308 | the linear optimal velocity is 0 below h_st, v_max at the top, and always in [0, v_max] |
| CarFollowing.LinearAccel | flow/controllers/car_following_models.py:310 | the linear OVM fails exactly when the adaptation constant is 0; otherwise its raw value times that constant is the gap to the optimal velocity |
| CarFollowing.Clamp | flow/controllers/car_following_models.py:85 | CFM and BCM results are at most accel_max; OVM results lie in [-&#124;decel_max&#124;, accel_max] |
| CarFollowing.LeaderId | flow/controllers/car_following_models.py:372-385 | IDM's test: None or the empty string is no car ahead, any other string is the leader, and a leader that is neither is a KeyError |
| CarFollowing.CarAhead | flow/controllers/car_following_models.py:68-69 | the `if not lead_id` test of CFM, BCM and OVM: every falsy value (None, "", 0, 0.0, the empty list) is no car ahead, a non-empty string is the leader, and any other value is a KeyError |
| CarFollowing.CarAheadAgreesOnIds | flow/controllers/car_following_models.py:69 | the two tests agree on every leader that is a string or None; a stored 0 is no car ahead for CFM but a KeyError for IDM |
| CarFollowing.FollowerId | flow/controllers/car_following_models.py:151-152 | the follower id, or KeyError for anything that is not a string |
| CarFollowing.RawAccel | flow/controllers/car_following_models.py:67-310 | the raw value of each model; CFM, BCM and OVM give no value exactly when `CarAhead` finds no car ahead, and the linear OVM never tests for a leader |
| CarFollowing.Fill | flow/controllers/car_following_models.py:80-83 | the filling loop pushes the value on the left until the queue is longer than the delay |
| CarFollowing.QueueStep | flow/controllers/car_following_models.py:80-85 | fill, then pop the oldest value: a non-negative delay always yields a value, and a queue no longer than the delay comes back with the whole part of the delay in values |
| CarFollowing.Run | flow/controllers/car_following_models.py:80-85 | one output per call |
| CarFollowing.RunLast | flow/controllers/car_following_models.py:80-85 | one more call appends the popped value and keeps the popped queue |
| CarFollowing.QueueWindowStep | flow/controllers/car_following_models.py:80-85 | a window of the last D values stays one after a call |
| CarFollowing.DelayStep | flow/controllers/car_following_models.py:80-85 | the delay of D calls holds after one more call |
| CarFollowing.DelayedByWholePart | flow/controllers/car_following_models.py:80-85 | call k returns the raw value of call k - D, D being the whole part of the delay, or of the first call early on |
| CarFollowing.QueueIsFifo | flow/controllers/car_following_models.py:80-85 | a call adds the new value on the left and returns the rightmost, the oldest |
| CarFollowing.Call | flow/controllers/car_following_models.py:67-85 | no car ahead returns accel_max and leaves the queue; otherwise the raw value is queued and the oldest is popped and clipped |
| CarFollowing.ZeroDelayPassesThrough | flow/controllers/car_following_models.py:80-85 | with delay 0 a call returns its own clipped value and leaves the queue empty |
| CarFollowing.ControllerDelay | flow/controllers/car_following_models.py:55 | `tau / dt` fails with ZeroDivisionError exactly when dt is 0; otherwise the delay times dt is tau |
| CarFollowing.DelayedController.constructor | flow/controllers/car_following_models.py:55-65 | a new controller has an empty queue and the delay ControllerDelay computes |
| CarFollowing.DelayedController.GetAccel | flow/controllers/car_following_models.py:67-85 | `get_accel` returns the value of `Call` and leaves its queue |
| CarFollowing.DelayedController.ResetDelay | flow/controllers/car_following_models.py:87-88 | `reset_delay` empties the queue |
| CarFollowing.CfmTestValues | tests/test_controllers.py:42-57 | CFM gives 12, 2, 20, 12, 20 on the test's five vehicles |
| CarFollowing.BcmTestValues | tests/test_controllers.py:89-104 | BCM gives -12, -7, 15, -7, 13 |
| CarFollowing.LinearOvmTestValues | tests/test_controllers.py:184-199 | the linear OVM gives -5, -1.555 / 0.65, 5.3, 10.6, -5 |
| CarFollowing.OvmTestStopped | tests/test_controllers.py:136-151 | OVM at headway 0 gives 0, whatever cos is |
| CarFollowing.IdmHeadway | flow/controllers/car_following_models.py:379-380 | headways below 1e-3 in magnitude become 1e-3; the result is never 0 |
| CarFollowing.DesiredGap | flow/controllers/car_following_models.py:382-388 | the desired gap is 0 with no car ahead, otherwise at least s0, and it is a number when a b > 0 and sqrt is lawful |
| CarFollowing.IdmAccel | flow/controllers/car_following_models.py:370-391 | a result means v0 is not 0; with no car ahead it is a (1 - (v / v0)^delta) |
| CarFollowing.IdmLeaderBrakes | flow/controllers/car_following_models.py:382-391 | with a car ahead and a >= 0 the result is at most the free-road value a (1 - (v / v0)^delta), and strictly below it when a and s0 are positive |
| CarFollowing.IdmHeadwayNeverDivides | flow/controllers/car_following_models.py:379-391 | a zero or tiny headway never makes IDM fail |
| Scenarios.AsNumber | flow/scenarios/intersections/intersection_scenario.py:49-50 | ints, floats and bools are numbers; anything else is a TypeError |
| Scenarios.Lookup | flow/scenarios/intersections/intersection_scenario.py:18-24 | a parameter's value, or KeyError when it is missing |
| Scenarios.Contains | flow/scenarios/intersections/intersection_scenario.py:55-56 | Python's `in` on strings: the empty string is in every string, and only a string at least as long contains t |
| Scenarios.SpeedLimitOf | flow/scenarios/intersections/intersection_scenario.py:45-60 | no entry raises ValueError; a number applies to both directions; a dict with both keys is read, one without them raises ValueError; None raises TypeError, and so does a string or a list that holds both words, when it is indexed by "horizontal"; any other string or list raises ValueError |
| Scenarios.SearchError | flow/scenarios/intersections/intersection_scenario.py:55-60 | for a value that is neither a number nor a dict: None is a TypeError, a string or list holding both words is a TypeError, and any other string or list is a ValueError |
| Scenarios.LengthsOf | flow/scenarios/intersections/intersection_scenario.py:18-29 | the four edge lengths as given, and the junctions 2.9 + 3.3 per crossing lane |
| Scenarios.ScenarioOf | flow/scenarios/intersections/intersection_scenario.py:18-60 | the constructor builds its lengths and speed limits, or fails with the first error |
| Scenarios.LaneValueErrorsUnreachable | flow/scenarios/intersections/intersection_scenario.py:23-35 | a missing lane count is a KeyError, so the lane-count ValueErrors are never raised (the same in my_intersection_scenario.py:25-37) |
| Scenarios.NetParams.constructor | flow/scenarios/intersections/intersection_scenario.py:18-29 | the network parameters hold the given values |
| Scenarios.Init | flow/scenarios/intersections/intersection_scenario.py:18-62 | both constructors: the sum of the six lengths is written as "length" once the lengths are known, even when the speed limit then fails |
| Scenarios.TotalLength | flow/scenarios/intersections/intersection_scenario.py:28-29 | the total is the four edge lengths plus both junctions |
| Scenarios.EdgeStarts | flow/scenarios/intersections/intersection_scenario.py:64-71 | each edge's absolute start |
| Scenarios.EdgeStartsOrdered | flow/scenarios/intersections/intersection_scenario.py:64-71 | for non-negative lengths, bottom = 0 <= top <= left <= right |
| Scenarios.EdgeLength | flow/scenarios/intersections/my_intersection_scenario.py:133 | the entry edges are 20 m long, the others 1480 m |
| Scenarios.Rates | flow/scenarios/intersections/intersection_scenario.py:86-95 | both keys must exist (KeyError); with no vehicle to place nothing else is checked; otherwise a non-numeric intensity is a TypeError, a zero one a ZeroDivisionError, then a non-numeric entry speed a TypeError, and success returns the entry speed |
| Scenarios.NoVehiclesNoChecks | flow/scenarios/intersections/intersection_scenario.py:86-108 | with no vehicle to place, both scenarios return empty lists whatever types the two parameters have |
| Scenarios.SpreadDraw | flow/scenarios/intersections/intersection_scenario.py:94-104 | an increment over 10 moves the cursor and places a vehicle there in lane 0; any other draw changes nothing |
| Scenarios.Accepted | flow/scenarios/intersections/intersection_scenario.py:99 | at most the number of draws are accepted |
| Scenarios.SpreadPlacesAll | flow/scenarios/intersections/intersection_scenario.py:93-104 | the loop returns exactly n positions, more than 10 apart from a cursor starting at 1, exactly when the stream has enough draws over 10 |
| Scenarios.CustomStartPosShape | flow/scenarios/intersections/intersection_scenario.py:93-108 | the result has n positions, all in lane 0, strictly increasing with gaps over 10 |
| Scenarios.GenCustomStartPos | flow/scenarios/intersections/intersection_scenario.py:79-108 | the generator's loop computes that placement |
| Scenarios.LaneIndex | flow/scenarios/intersections/my_intersection_scenario.py:140 | the lane drawn is 0 or 1 |
| Scenarios.PlaceDraw | flow/scenarios/intersections/my_intersection_scenario.py:140-152 | a draw over 10 that stays inside its edge is placed after its (edge, lane) cursor, and only that cursor moves; any other draw changes nothing |
| Scenarios.PlaceDrawAccepts | flow/scenarios/intersections/my_intersection_scenario.py:145-152 | a draw over 10 whose position stays inside its edge is placed |
| Scenarios.PlaceDrawKeepsCursorsAhead | flow/scenarios/intersections/my_intersection_scenario.py:145-152 | each cursor stays at or beyond every position on its edge and lane, and each draw places at most one vehicle |
| Scenarios.PlacePlacesAll | flow/scenarios/intersections/my_intersection_scenario.py:139-153 | a completed loop returns n positions, each in lane 0 or 1, inside its edge and more than 10 past the previous one on its (edge, lane) |
| Scenarios.ShortEdgeHoldsOnePerLane | flow/scenarios/intersections/my_intersection_scenario.py:133-150 | a 20 m entry edge holds at most one vehicle per lane |
| Scenarios.MyCustomStartPosShape | flow/scenarios/intersections/my_intersection_scenario.py:120-153 | a placement has n positions and lanes, well placed in that sense |
| Scenarios.MyGenCustomStartPos | flow/scenarios/intersections/my_intersection_scenario.py:120-153 | the generator's loop computes that placement |

## Left out

- Simulator I/O through TraCI is not modelled: starting, restarting and subscribing, and the removal and re-adding of vehicles in `_reset`. Readings are inputs and commands are outputs. The glosa `run`, `get_options` and `__main__` are left out for the same reason.
- Randomness (`np.random`, `random.expovariate`, `random.sample`) is an input stream of draws. When the stream runs out before n vehicles are placed the result is None. The random colours and shuffles are not modelled.
- `BaseController.get_action` (noise and failsafes), `rewards.desired_velocity`, `Scenario.get_x` and `get_edge` are not part of this model. The controllers' accelerations and the velocity reward are inputs, and `get_x_by_id` is a function parameter.
- The failsafe branches and the multi-agent branches of `apply_acceleration` and `_step` are left out.
- Floating point is not modelled: every quantity is a real. `sqrt`, `cos` and `pow` are parameters, with only the facts stated by `Lawful`.
- Glosa.ArrivalTime: the division in Python 2 is not modelled. `remaining` is taken as a real.
- Glosa.Algo: the divisions of the advisory speeds (glosa/glosa.py:233 and 260) are real divisions; Python 2's integer division is not modelled, since `remaining` is taken as a real.
- CarFollowing.IdmAccel: numpy divides to inf or nan where a denominator is 0, and `np.sqrt` of a negative a b is nan with a warning. The model reports ZeroDivisionError or `MathDomainError` instead.
- CarFollowing.IdmAccel: the numeric values the source's tests expect are not derived, since `pow` and `sqrt` are parameters; with a car ahead only the bound of IdmLeaderBrakes is stated.
- CarFollowing.LeaderId: a non-empty list stored as the leader is not modelled as Python treats it. `get_speed` of a list returns a list of speeds, and the arithmetic then raises TypeError; the model reports KeyError. The same holds for CarFollowing.CarAhead. The environments store only vehicle ids or None there.
- CarFollowing.FollowerId: a follower stored as a list makes `get_speed` return a list and the arithmetic raise TypeError. The model reports KeyError for every follower that is not a string.
- CarFollowing.DelayedController.constructor: requires a non-zero dt, because a Dafny constructor cannot fail. The ZeroDivisionError every controller constructor raises for dt = 0 is the error of CarFollowing.ControllerDelay.
- BaseEnv.Env.Step: the crash flag it returns is the observation part only. The starting and ending teleport counts that `_step` ORs in (flow/envs/base_env.py:456-459) are simulator readings and are not modelled.
- TwoIntersection.Row: the lane column is read as a number, so a non-numeric lane is a TypeError in the model. `np.array` would instead build an object array and `get_state` would return normally. The speed and position columns are divided, so there both raise TypeError.
- Registry.Vehicles.AddVehicles: building the controllers is not modelled. A controller is stored as its class and owner, so its constructor cannot fail. The exceptions a Python constructor can raise (ZeroDivisionError for dt = 0, TypeError for bad keyword arguments) are left out, and so is the half-added vehicle they leave behind: its id is listed with a record holding only `"type"`, and the counters are not updated.
- Registry.PartitionExtended: exactly one kind list per id is not promised in general. A base name added again under a second kind puts its ids in two lists, as the code does; Registry.OneKindEachExtended proves the exactly-one split when the new ids are new.
- LaneChanging.StateRow: a non-numeric field is a TypeError in the model. `np.array` would instead build an object array, and the error would appear only where the state is used.
- Sorting.SortByKey: `np.argsort` does not promise an order for equal keys. The model sorts stably, and the contracts state only the permutation and the order.
- The Scenario base class and the edge-start helpers other than `specify_edge_starts` of the first scenario are left out. This covers `specify_intersection_edge_starts`, the internal edge starts and the second scenario's edge starts.
- Network file generation (`generator.py`, `gen.py`, `my_gen.py`), the RL library glue under `rllab`, the scripts, printing and logging are left out. Of the gym spaces only the bound vectors are modelled.
- Dead code is left out: the code after `return` in `set_speed_mode`, the commented-out lane-change mode, and the `status` dictionary `algo` builds and never reads.
- `lane_change_duration` is a parameter of the lane-changing steps, since the environment parameters are not part of this model.

## Findings

| source | as written | input that shows it | evidently intended | confidence | as-written member | corrected member |
|---|---|---|---|---|---|---|
| flow/envs/lane_changing.py:159 | the lane-change-only cooldown reads `self.vehicles[veh_id]['last_lc']`, and the registry is not indexable, so this raises TypeError | any `sorted_ids` holding an RL vehicle | read the field with `self.vehicles.get_state(veh_id, 'last_lc')`, as the other environment does | not executed | LaneChanging.AsWrittenRaisesWithRlVehicles | LaneChanging.LaneChangeOnlyCooledVehicleKeepsLane |
